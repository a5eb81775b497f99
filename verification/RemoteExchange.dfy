/** A heartbeat processed, however late: what the exchange makes of every row. */
module RemoteExchange {
  import opened Outcomes
  import opened RemoteModel
  import opened RemoteController
  import opened RemoteSystem
  import opened RemoteWrites
  import opened RemoteInvariant
  import opened RemoteMoves

  lemma {:induction false} FindUnique(rows: seq<Row>, i: nat)
    requires UniqueRows(rows) && i < |rows|
    ensures FindRow(rows, rows[i].edit.requestId) == Some(i)
  {
    assert rows[i] in rows;
  }

  /** Acknowledging touches only the row a receipt names, and only while it is active. */
  lemma {:induction false} AcknowledgedAt(rows: seq<Row>, receipts: seq<Receipt>, i: nat)
    requires UniqueRows(rows) && Readable(receipts) && UniqueReceipts(receipts) && i < |rows|
    ensures |AcknowledgeAll(rows, receipts)| == |rows| && UniqueRows(AcknowledgeAll(rows, receipts))
    ensures AcknowledgeAll(rows, receipts)[i].edit == rows[i].edit
    ensures AcknowledgeAll(rows, receipts)[i].own == rows[i].own
    ensures !Active(rows[i]) || !HasReceipt(receipts, rows[i].edit.requestId) ==>
      AcknowledgeAll(rows, receipts)[i] == rows[i]
    ensures forall r <- receipts ::
      r.requestId == rows[i].edit.requestId && Active(rows[i]) && r.revision >= rows[i].edit.expectedRevision ==>
      AcknowledgeAll(rows, receipts)[i] == rows[i].(status := StatusOf(r.status))
  {
    if receipts != [] {
      var last := |receipts| - 1;
      var r := receipts[last];
      assert receipts == receipts[..last] + [r];
      assert r in receipts;
      AcknowledgedAt(rows, receipts[..last], i);
      var before := AcknowledgeAll(rows, receipts[..last]);
      var k := FindRow(before, r.requestId);
      EditsKept(rows, receipts[..last]);
      if r.requestId == rows[i].edit.requestId {
        FindUnique(before, i);
        LastOnly(receipts, last);
      }
      SameEdits(before, Acknowledged(before, r));
    }
  }

  lemma {:induction false} EditsKept(rows: seq<Row>, receipts: seq<Receipt>)
    requires Readable(receipts)
    ensures |AcknowledgeAll(rows, receipts)| == |rows|
    ensures forall k :: 0 <= k < |rows| ==> AcknowledgeAll(rows, receipts)[k].edit == rows[k].edit
  {
    if receipts != [] {
      EditsKept(rows, receipts[..|receipts| - 1]);
    }
  }

  lemma SameEdits(a: seq<Row>, b: seq<Row>)
    requires UniqueRows(a) && |b| == |a| && forall k :: 0 <= k < |a| ==> b[k].edit == a[k].edit
    ensures UniqueRows(b)
  {
  }

  lemma LastOnly(receipts: seq<Receipt>, last: nat)
    requires UniqueReceipts(receipts) && last == |receipts| - 1
    ensures !HasReceipt(receipts[..last], receipts[last].requestId)
    ensures forall r <- receipts :: r.requestId == receipts[last].requestId ==> r == receipts[last]
  {
  }

  // ---------------------------------------------------------- one row, one report

  /** A report the controller takes in: one that was sent, and not older than the last it took in. */
  ghost predicate Taken(s: Sys, h: Report) {
    h in s.sent && ReportSound(h, s.past, s.node.revision) && AllTrue(h.receipts, s) &&
    (s.stored.Some? ==> s.stored.value.revision <= h.revision)
  }

  lemma TakenReadable(s: Sys, h: Report)
    requires Taken(s, h)
    ensures Readable(h.receipts) && UniqueReceipts(h.receipts) && |h.receipts| <= MAX_RECEIPTS
  {
    hide Tells;
    forall r <- h.receipts
      ensures r.status != UnknownStatus
    {
      assert ReceiptTrue(r, s.rows, s.log, s.node.remote.pending);
    }
  }

  function AcknowledgedRow(s: Sys, h: Report, k: nat): Row
    requires k < |s.rows| && Readable(h.receipts)
  {
    var all := AcknowledgeAll(s.rows, h.receipts);
    if k < |all| then all[k] else s.rows[k]
  }

  function SettledRow(row: Row, h: Report): Row {
    if Stale(row, h) then row.(status := RowRejected, own := true) else row
  }

  /** An active row takes the status of its receipt, if the report has one. */
  lemma Acknowledging(s: Sys, h: Report, k: nat) returns (r: Option<Receipt>)
    requires Taken(s, h) && UniqueRows(s.rows) && k < |s.rows| && Active(s.rows[k]) && Readable(h.receipts)
    ensures r.None? ==> !HasReceipt(h.receipts, s.rows[k].edit.requestId) && AcknowledgedRow(s, h, k) == s.rows[k]
    ensures r.Some? ==>
      r.value in h.receipts && r.value.requestId == s.rows[k].edit.requestId && r.value.status != UnknownStatus
    ensures r.Some? ==> Tells(r.value, s.rows[k].edit, s.log, s.node.remote.pending)
    ensures r.Some? ==> AcknowledgedRow(s, h, k) == s.rows[k].(status := StatusOf(r.value.status))
  {
    hide Tells, InLog, Active;
    TakenReadable(s, h);
    AcknowledgedAt(s.rows, h.receipts, k);
    r := None;
    if HasReceipt(h.receipts, s.rows[k].edit.requestId) {
      var found :| found in h.receipts && found.requestId == s.rows[k].edit.requestId;
      assert ReceiptTrue(found, s.rows, s.log, s.node.remote.pending);
      assert Tells(found, s.rows[k].edit, s.log, s.node.remote.pending);
      assert found.revision >= s.rows[k].edit.expectedRevision by { TellsRevision(found, s.rows[k].edit, s.log,
        s.node.remote.pending); }
      r := Some(found);
    }
  }

  lemma TellsRevision(r: Receipt, edit: Edit, log: seq<Entry>, pending: Option<Edit>)
    requires Tells(r, edit, log, pending)
    ensures r.revision >= edit.expectedRevision
  {
  }

  lemma OnlyOne(receipts: seq<Receipt>, a: Receipt, b: Receipt)
    requires UniqueReceipts(receipts) && a in receipts && b in receipts && a.requestId == b.requestId
    ensures a == b
  {
  }

  /** The report the edit was made against still counts as consenting, so it settles nothing. */
  lemma NotStaleYet(s: Sys, h: Report, row: Row)
    requires Taken(s, h) && RowSound(row, s) && h.revision == row.edit.expectedRevision
    ensures h.consent
  {
  }

  /** What the node still holds as pending stays with it. */
  lemma PendingStays(s: Sys, h: Report, k: nat)
    requires Taken(s, h) && UniqueRows(s.rows) && k < |s.rows| && Active(s.rows[k]) && RowSound(s.rows[k], s)
    requires Readable(h.receipts)
    requires s.node.remote.pending == Some(s.rows[k].edit)
    ensures Active(SettledRow(AcknowledgedRow(s, h, k), h))
  {
    hide AllTrue, InLog, AcknowledgedRow, UniqueRows;
    var row := s.rows[k];
    var r := Acknowledging(s, h, k);
    if h.revision == row.edit.expectedRevision {
      NotStaleYet(s, h, row);
    } else {
      assert h.consent && HasPending(h.receipts, row.edit.requestId);
      var p :| p in h.receipts && p.requestId == row.edit.requestId && p.status == Pending;
      assert p.revision == h.revision;
      if r.Some? {
        OnlyOne(h.receipts, p, r.value);
      }
      assert Confirmed(AcknowledgedRow(s, h, k), h);
    }
  }

  /** A committed edit is never rejected by the controller. */
  lemma CommittedStays(s: Sys, h: Report, k: nat)
    requires Taken(s, h) && UniqueRows(s.rows) && k < |s.rows| && Active(s.rows[k]) && RowSound(s.rows[k], s)
    requires Readable(h.receipts)
    requires InLog(s.log, s.rows[k].edit)
    ensures !Stale(AcknowledgedRow(s, h, k), h)
  {
    hide AllTrue, InLog, AcknowledgedRow, UniqueRows;
    var row := s.rows[k];
    var r := Acknowledging(s, h, k);
    if h.revision == row.edit.expectedRevision {
      NotStaleYet(s, h, row);
    } else {
      assert HasApplied(h.receipts, row.edit.requestId);
      var p :| p in h.receipts && p.requestId == row.edit.requestId && p.status == Applied;
      if r.Some? {
        OnlyOne(h.receipts, p, r.value);
      }
    }
  }

  lemma ToldNow(s: Sys, h: Report, r: Receipt, row: Row)
    requires h in s.sent && r in h.receipts && r.requestId == row.edit.requestId && r.status != UnknownStatus
    requires row.status == StatusOf(r.status)
    ensures Told(s.sent, row)
  {
  }

  /** Everything the invariant says of one row survives a report. */
  lemma RowProcessed(s: Sys, t: Sys, h: Report, k: nat)
    requires Taken(s, h) && UniqueRows(s.rows) && k < |s.rows| && RowSound(s.rows[k], s) && Readable(h.receipts)
    requires t.node == s.node && t.log == s.log && t.sent == s.sent && t.past == s.past
    requires t.stored.Some? && t.stored.value.revision == h.revision
    ensures
      var row := SettledRow(AcknowledgedRow(s, h, k), h);
      && RowSound(row, t) && row.edit == s.rows[k].edit && (Active(row) ==> Active(s.rows[k]))
      && (!Active(s.rows[k]) ==> row == s.rows[k])
  {
    hide AllTrue, InLog, Told, HasReceipt, HasApplied, HasPending, UniqueRows, Confirmed, ReportSound, Tells;
    var was := s.rows[k];
    if Active(was) {
      var r := Acknowledging(s, h, k);
      var row := SettledRow(AcknowledgedRow(s, h, k), h);
      if InLog(s.log, was.edit) {
        CommittedStays(s, h, k);
      }
      if r.Some? && !row.own && !Active(row) {
        ToldNow(s, h, r.value, row);
      }
    } else {
      TakenReadable(s, h);
      AcknowledgedAt(s.rows, h.receipts, k);
    }
  }
}
