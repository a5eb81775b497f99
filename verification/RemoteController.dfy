/**
 The controller's side: one queue of edits a device, acknowledged by the receipts of its
 heartbeats. Source: crates/controller/src/configuration.rs.
 */
module RemoteController {
  import opened Outcomes
  import opened RemoteModel

  datatype RowStatus = RowRequested | RowPending | RowReviewed | RowApplied | RowRejected

  /** `own` marks a row the controller itself rejected, without a receipt of the node. */
  datatype Row = Row(edit: Edit, status: RowStatus, own: bool)

  /** A heartbeat's configuration report. Without consent the policy is not kept. */
  datatype Report = Report(consent: bool, revision: nat, policy: Option<Policy>, receipts: seq<Receipt>)

  predicate Active(row: Row) { row.status == RowRequested || row.status == RowPending }

  /** The index of the row with this request id. */
  function FindRow(rows: seq<Row>, id: string): (r: Option<nat>)
    ensures r.Some? ==> r.value < |rows| && rows[r.value].edit.requestId == id
    ensures r.None? ==> forall row <- rows :: row.edit.requestId != id
  {
    if rows == [] then None
    else
      var earlier := FindRow(rows[..|rows| - 1], id);
      if earlier.Some? then earlier
      else if rows[|rows| - 1].edit.requestId == id then Some(|rows| - 1)
      else None
  }

  function StatusOf(status: ReceiptStatus): RowStatus
    requires status != UnknownStatus
  {
    match status
    case Pending => RowPending
    case Reviewed => RowReviewed
    case Applied => RowApplied
    case Rejected => RowRejected
  }

  // ---------------------------------------------------------------- requests

  /** `usable` is the verdict of the freshness, capability, capacity and policy checks. */
  function Requested(rows: seq<Row>, stored: Option<Report>, edit: Edit, usable: bool): Result<seq<Row>> {
    var known := FindRow(rows, edit.requestId);
    if known.Some? then
      if rows[known.value].edit == edit then Ok(rows) else Refused
    else if stored.None? || !stored.value.consent || stored.value.policy.None? || !usable then Refused
    else if !ValidEdit(edit, stored.value.policy.value, stored.value.consent, stored.value.revision, usable) then
      Refused
    else if exists row <- rows :: Active(row) then Refused
    else Ok(rows + [Row(edit, RowRequested, false)])
  }

  // ---------------------------------------------------------------- exchange

  /** One receipt: only an active row of that id, not one reported from before the edit's revision. */
  function Acknowledged(rows: seq<Row>, receipt: Receipt): seq<Row>
    requires receipt.status != UnknownStatus
  {
    var k := FindRow(rows, receipt.requestId);
    if k.None? || !Active(rows[k.value]) || receipt.revision < rows[k.value].edit.expectedRevision then rows
    else rows[k.value := rows[k.value].(status := StatusOf(receipt.status))]
  }

  predicate Readable(receipts: seq<Receipt>) {
    forall r <- receipts :: r.status != UnknownStatus
  }

  function AcknowledgeAll(rows: seq<Row>, receipts: seq<Receipt>): seq<Row>
    requires Readable(receipts)
  {
    if receipts == [] then rows
    else Acknowledged(AcknowledgeAll(rows, receipts[..|receipts| - 1]), receipts[|receipts| - 1])
  }

  /** The node still reports the edit as pending at its current revision. */
  predicate Confirmed(row: Row, report: Report) {
    row.status == RowPending &&
    exists r <- report.receipts ::
      r.requestId == row.edit.requestId && r.status == Pending && r.revision == report.revision
  }

  predicate Stale(row: Row, report: Report) {
    Active(row) && !(report.consent && Confirmed(row, report)) &&
    (!report.consent || report.revision != row.edit.expectedRevision)
  }

  predicate Issued(row: Row, report: Report) {
    Active(row) && report.consent && !Confirmed(row, report) && report.revision == row.edit.expectedRevision
  }

  function Settled(rows: seq<Row>, report: Report): (r: seq<Row>)
    ensures |r| == |rows|
    ensures forall i :: 0 <= i < |r| ==>
      r[i] == if Stale(rows[i], report) then rows[i].(status := RowRejected, own := true) else rows[i]
  {
    seq(|rows|, i requires 0 <= i < |rows| =>
      if Stale(rows[i], report) then rows[i].(status := RowRejected, own := true) else rows[i])
  }

  /** The last active row the node should still carry out. */
  function CommandFor(rows: seq<Row>, report: Report): (r: Option<Edit>)
    ensures r.Some? ==> exists row <- rows :: Issued(row, report) && row.edit == r.value
  {
    if rows == [] then None
    else if Issued(rows[|rows| - 1], report) then Some(rows[|rows| - 1].edit)
    else CommandFor(rows[..|rows| - 1], report)
  }

  datatype Exchanged = Exchanged(rows: seq<Row>, stored: Option<Report>, command: Option<Edit>)

  function Exchange(rows: seq<Row>, stored: Option<Report>, report: Report): Result<Exchanged> {
    if |report.receipts| > MAX_RECEIPTS then Refused
    else if stored.Some? && stored.value.revision > report.revision then Ok(Exchanged(rows, stored, None))
    else if !Readable(report.receipts) then Refused
    else
      var acknowledged := AcknowledgeAll(rows, report.receipts);
      var kept := if report.consent then report else report.(policy := None);
      Ok(Exchanged(Settled(acknowledged, report), Some(kept), CommandFor(acknowledged, report)))
  }

  /** The queue as the controller keeps it: the device's last report and its requests in order. */
  class Queue {
    var rows: seq<Row>
    var stored: Option<Report>

    constructor ()
      ensures rows == [] && stored == None
    {
      rows, stored := [], None;
    }

    /** A repeated identical request is answered with the saved row; anything else new needs a fresh report. */
    method Enqueue(edit: Edit, usable: bool) returns (accepted: bool)
      modifies this`rows
      ensures accepted == Requested(old(rows), stored, edit, usable).Ok?
      ensures rows == if accepted then Requested(old(rows), stored, edit, usable).value else old(rows)
    {
      var known := FindRow(rows, edit.requestId);
      if known.Some? { return rows[known.value].edit == edit; }
      if stored.None? || !stored.value.consent || stored.value.policy.None? || !usable { return false; }
      if !ValidEdit(edit, stored.value.policy.value, stored.value.consent, stored.value.revision,
        usable) { return false; }
      var waiting := 0;
      for i := 0 to |rows|
        invariant waiting > 0 <==> exists k :: 0 <= k < i && Active(rows[k])
        invariant waiting >= 0 && rows == old(rows)
      {
        if Active(rows[i]) { waiting := waiting + 1; }
      }
      if waiting != 0 { return false; }
      rows := rows + [Row(edit, RowRequested, false)];
      accepted := true;
    }

    /** The receipts of one report, applied in order; none of them when one cannot be read. */
    static method Acknowledge(rows: seq<Row>, receipts: seq<Receipt>) returns (ok: bool, draft: seq<Row>)
      ensures ok == Readable(receipts)
      ensures ok ==> draft == AcknowledgeAll(rows, receipts)
    {
      hide Acknowledged;
      draft := rows;
      for i := 0 to |receipts|
        invariant Readable(receipts[..i])
        invariant draft == AcknowledgeAll(rows, receipts[..i])
      {
        var receipt := receipts[i];
        if receipt.status == UnknownStatus {
          assert receipts[i] in receipts;
          return false, rows;
        }
        assert receipts[..i + 1] == receipts[..i] + [receipt];
        assert receipts[..i + 1][..i] == receipts[..i];
        draft := Acknowledged(draft, receipt);
      }
      assert receipts[..|receipts|] == receipts;
      ok := true;
    }

    /** Every active row is kept, rejected here, or named as the node's next command. */
    static method Settle(acknowledged: seq<Row>, report: Report) returns (draft: seq<Row>, command: Option<Edit>)
      ensures draft == Settled(acknowledged, report) && command == CommandFor(acknowledged, report)
    {
      hide Confirmed;
      draft, command := acknowledged, None;
      for i := 0 to |draft|
        invariant |draft| == |acknowledged|
        invariant command == CommandFor(acknowledged[..i], report)
        invariant forall k :: 0 <= k < i ==> draft[k] == Settled(acknowledged, report)[k]
        invariant forall k :: i <= k < |draft| ==> draft[k] == acknowledged[k]
      {
        assert acknowledged[..i + 1][..i] == acknowledged[..i];
        var row := draft[i];
        if Active(row) && !(report.consent && Confirmed(row, report)) {
          if !report.consent || report.revision != row.edit.expectedRevision {
            draft := draft[i := row.(status := RowRejected, own := true)];
          } else {
            command := Some(row.edit);
          }
        }
      }
      assert acknowledged[..|acknowledged|] == acknowledged;
    }

    /** A heartbeat, inside one transaction: an unreadable receipt leaves everything as it was. */
    method Heartbeat(report: Report) returns (ok: bool, command: Option<Edit>)
      modifies this
      ensures ok == Exchange(old(rows), old(stored), report).Ok?
      ensures ok ==> Exchanged(rows, stored, command) == Exchange(old(rows), old(stored), report).value
      ensures !ok ==> rows == old(rows) && stored == old(stored) && command == None
    {
      hide Readable, AcknowledgeAll, Settled, CommandFor;
      if |report.receipts| > MAX_RECEIPTS { return false, None; }
      if stored.Some? && stored.value.revision > report.revision { return true, None; }
      var readable, acknowledged := Acknowledge(rows, report.receipts);
      if !readable { return false, None; }
      rows, command := Settle(acknowledged, report);
      stored := Some(if report.consent then report else report.(policy := None));
      ok := true;
    }
  }
}
