/**
 What a heartbeat, a delivered edit and a recorded receipt come to, said without the checks' own
 order: which rows are kept, rejected and issued, which edits are taken up, which receipt is forgotten.
 */
module RemoteOutcome {
  import opened Outcomes
  import opened RemoteModel
  import opened RemoteController
  import opened RemoteSystem
  import opened RemoteWrites
  import opened RemoteInvariant
  import RemoteExchange
  import RemoteChannel
  import RemoteAgreement

  // -------------------------------------------------------------- the exchange

  ghost predicate Waiting(row: Row) {
    row.status == RowRequested || row.status == RowPending
  }

  /** The receipt is about the row's request, and not from before the settings it was made for. */
  ghost predicate Answers(r: Receipt, row: Row) {
    r.requestId == row.edit.requestId && r.revision >= row.edit.expectedRevision
  }

  /** The first receipt that settles the row. */
  ghost predicate Decides(receipts: seq<Receipt>, row: Row, k: nat) {
    && k < |receipts| && Answers(receipts[k], row) && receipts[k].status != Pending
    && forall l :: 0 <= l < k && Answers(receipts[l], row) ==> receipts[l].status == Pending
  }

  ghost predicate Decided(receipts: seq<Receipt>, row: Row) {
    exists k: nat :: Decides(receipts, row, k)
  }

  ghost predicate Heard(receipts: seq<Receipt>, row: Row) {
    exists r <- receipts :: Answers(r, row)
  }

  ghost predicate ShownAs(status: ReceiptStatus, row: RowStatus) {
    && (status == Pending <==> row == RowPending) && (status == Reviewed <==> row == RowReviewed)
    && (status == Applied <==> row == RowApplied) && (status == Rejected <==> row == RowRejected)
  }

  /** The node still has the request in hand at the revision it reports. */
  ghost predicate InHand(row: Row, h: Report) {
    && (row.status == RowPending || Heard(h.receipts, row))
    && exists r <- h.receipts :: r.requestId == row.edit.requestId && r.status == Pending && r.revision == h.revision
  }

  /** What one report makes of one row. */
  ghost predicate RowAfter(was: Row, h: Report, now: Row) {
    if !Waiting(was) then now == was
    else if Decided(h.receipts, was) then
      exists k: nat :: Decides(h.receipts, was, k) && now == was.(status := now.status) &&
        ShownAs(h.receipts[k].status, now.status)
    else if h.consent && (InHand(was, h) || h.revision == was.edit.expectedRevision) then
      now == was.(status := if was.status == RowPending || Heard(h.receipts, was) then RowPending else RowRequested)
    else now == was.(status := RowRejected, own := true)
  }

  /** The request the node is to carry out next. */
  ghost predicate Carries(was: Row, h: Report) {
    Waiting(was) && !Decided(h.receipts, was) && h.consent && !InHand(was, h) && h.revision == was.edit.expectedRevision
  }

  ghost predicate Answered(was: Row, receipts: seq<Receipt>, now: Row) {
    && now == was.(status := now.status)
    && (!Waiting(was) ==> now == was)
    && (Waiting(was) ==>
      if Decided(receipts, was) then exists k: nat ::
        Decides(receipts, was, k) && ShownAs(receipts[k].status, now.status)
      else now.status == if Heard(receipts, was) then RowPending else was.status)
  }

  lemma LaterDecides(init: seq<Receipt>, r: Receipt, row: Row)
    ensures Decided(init + [r], row) <==> Decided(init, row) || (Answers(r, row) && r.status != Pending)
    ensures forall k: nat :: Decides(init, row, k) ==> Decides(init + [r], row, k)
    ensures Decided(init, row) ==> forall k: nat :: Decides(init + [r], row, k) ==> Decides(init, row, k)
    ensures !Decided(init, row) ==> forall k: nat :: Decides(init + [r], row, k) ==> k == |init|
    ensures Heard(init + [r], row) <==> Heard(init, row) || Answers(r, row)
  {
    var all := init + [r];
    assert forall k :: 0 <= k < |init| ==> all[k] == init[k];
    assert all[|init|] == r;
    forall k: nat | Decides(init, row, k)
      ensures Decides(all, row, k)
    {
    }
    forall k: nat | Decides(all, row, k) && k < |init|
      ensures Decides(init, row, k)
    {
    }
    if Answers(r, row) && r.status != Pending && !Decided(init, row) {
      NoneDecides(init, row);
      assert Decides(all, row, |init|);
    }
  }

  lemma {:induction false} NoneDecides(receipts: seq<Receipt>, row: Row)
    requires !Decided(receipts, row)
    ensures forall l :: 0 <= l < |receipts| && Answers(receipts[l], row) ==> receipts[l].status == Pending
  {
    if receipts != [] {
      var last := |receipts| - 1;
      var init := receipts[..last];
      if k: nat :| Decides(init, row, k) {
        assert Decides(receipts, row, k);
      }
      NoneDecides(init, row);
      if Answers(receipts[last], row) && receipts[last].status != Pending {
        assert Decides(receipts, row, last);
      }
    }
  }

  lemma OneAnswer(was: Row, before: Row, init: seq<Receipt>, r: Receipt, now: Row)
    requires Answered(was, init, before) && Readable(init + [r])
    requires now == if Waiting(before) && Answers(r, was) then before.(status := StatusOf(r.status)) else before
    ensures Answered(was, init + [r], now)
  {
    hide Heard, Answers;
    assert r in init + [r];
    LaterDecides(init, r, was);
    if Waiting(was) {
      if Decided(init, was) {
        var k: nat :| Decides(init, was, k) && ShownAs(init[k].status, before.status);
        assert (init + [r])[k] == init[k] && init[k] in init + [r];
      } else if Decided(init + [r], was) {
        var k: nat :| Decides(init + [r], was, k);
        assert (init + [r])[k] == r;
      }
    }
  }

  lemma {:induction false} AllAnswered(rows: seq<Row>, receipts: seq<Receipt>, i: nat)
    requires UniqueRows(rows) && Readable(receipts) && i < |rows|
    ensures |AcknowledgeAll(rows, receipts)| == |rows|
    ensures Answered(rows[i], receipts, AcknowledgeAll(rows, receipts)[i])
  {
    hide Answered;
    RemoteExchange.EditsKept(rows, receipts);
    if receipts == [] {
      NoReceipts(rows[i]);
    } else {
      var last := |receipts| - 1;
      var init, r := receipts[..last], receipts[last];
      assert receipts == init + [r] && r in receipts;
      AllAnswered(rows, init, i);
      var before := AcknowledgeAll(rows, init);
      RemoteExchange.EditsKept(rows, init);
      RemoteExchange.SameEdits(rows, before);
      RemoteExchange.FindUnique(before, i);
      OneAnswer(rows[i], before[i], init, r, AcknowledgeAll(rows, receipts)[i]);
    }
  }

  lemma NoReceipts(row: Row)
    ensures Answered(row, [], row)
  {
  }

  /** The last of the first n rows that is issued. */
  ghost predicate LastIssued(rows: seq<Row>, h: Report, n: nat, i: nat) {
    i < n <= |rows| && Issued(rows[i], h) && forall k :: i < k < n ==> !Issued(rows[k], h)
  }

  lemma {:induction false} LastCarried(rows: seq<Row>, h: Report, n: nat)
    requires n <= |rows|
    ensures CommandFor(rows[..n], h).None? ==> forall i :: 0 <= i < n ==> !Issued(rows[i], h)
    ensures CommandFor(rows[..n], h).Some? ==>
      exists i: nat :: LastIssued(rows, h, n, i) && CommandFor(rows[..n], h).value == rows[i].edit
  {
    hide Issued, CommandFor;
    NoneYet(h);
    assert rows[..0] == [];
    if n > 0 {
      LastCarried(rows, h, n - 1);
      OneMore(rows, h, n);
      if Issued(rows[n - 1], h) {
        assert LastIssued(rows, h, n, n - 1);
      } else if CommandFor(rows[..n - 1], h).Some? {
        var i: nat :| LastIssued(rows, h, n - 1, i) && CommandFor(rows[..n - 1], h).value == rows[i].edit;
        assert LastIssued(rows, h, n, i);
      }
    }
  }

  lemma NoneYet(h: Report)
    ensures CommandFor([], h) == None
  {
  }

  lemma OneMore(rows: seq<Row>, h: Report, n: nat)
    requires 0 < n <= |rows|
    ensures CommandFor(rows[..n], h) ==
      if Issued(rows[n - 1], h) then Some(rows[n - 1].edit) else CommandFor(rows[..n - 1], h)
  {
    hide Issued;
    assert rows[..n][..n - 1] == rows[..n - 1];
  }

  /** One row of the exchange. */
  lemma RowIs(was: Row, h: Report, acknowledged: Row, now: Row)
    requires Answered(was, h.receipts, acknowledged) && Readable(h.receipts)
    requires now == if Stale(acknowledged, h) then acknowledged.(status := RowRejected, own := true) else acknowledged
    ensures RowAfter(was, h, now)
    ensures Issued(acknowledged, h) <==> Carries(was, h)
  {
    hide Heard, Answers;
    assert Waiting(acknowledged) <==> Waiting(was) && !Decided(h.receipts, was) by {
      if Waiting(was) && Decided(h.receipts, was) {
        var k: nat :| Decides(h.receipts, was, k) && ShownAs(h.receipts[k].status, acknowledged.status);
        assert h.receipts[k] in h.receipts;
      }
    }
  }

  ghost predicate LastCarrying(rows: seq<Row>, h: Report, i: nat) {
    i < |rows| && Carries(rows[i], h) && forall k :: i < k < |rows| ==> !Carries(rows[k], h)
  }

  /** The report as it is kept: without consent the policy is withheld. */
  ghost predicate KeptAs(h: Report, stored: Report) {
    && stored.consent == h.consent && stored.revision == h.revision && stored.receipts == h.receipts
    && stored.policy == if h.consent then h.policy else None
  }

  /**
   The exchange, row by row. A report with too many or unreadable receipts is refused; one older than
   the last is answered with nothing; any other settles every waiting row and names one command.
   */
  lemma ExchangeIs(rows: seq<Row>, stored: Option<Report>, h: Report)
    requires UniqueRows(rows)
    ensures
      var x := Exchange(rows, stored, h);
      if |h.receipts| <= 64 && stored.Some? && stored.value.revision > h.revision then
        x == Ok(Exchanged(rows, stored, None))
      else if |h.receipts| > 64 || exists r <- h.receipts :: r.status == UnknownStatus then x.Refused?
      else
        && x.Ok? && x.value.stored.Some? && KeptAs(h, x.value.stored.value) && |x.value.rows| == |rows|
        && (forall i :: 0 <= i < |rows| ==> RowAfter(rows[i], h, x.value.rows[i]))
        && (x.value.command.None? ==> forall i :: 0 <= i < |rows| ==> !Carries(rows[i], h))
        && (x.value.command.Some? ==>
             exists i: nat :: LastCarrying(rows, h, i) && x.value.command.value == rows[i].edit)
  {
    hide RowAfter, Carries, Stale, Issued, Answered;
    if Readable(h.receipts) {
      var acknowledged := AcknowledgeAll(rows, h.receipts);
      RemoteExchange.EditsKept(rows, h.receipts);
      var settled := Settled(acknowledged, h);
      forall i | 0 <= i < |rows|
        ensures RowAfter(rows[i], h, settled[i]) && (Issued(acknowledged[i], h) <==> Carries(rows[i], h))
      {
        AllAnswered(rows, h.receipts, i);
        RowIs(rows[i], h, acknowledged[i], settled[i]);
      }
      LastCarried(acknowledged, h, |rows|);
      assert acknowledged[..|rows|] == acknowledged;
      if CommandFor(acknowledged, h).Some? {
        var i: nat :| LastIssued(acknowledged, h, |rows|, i) &&
          CommandFor(acknowledged, h).value == acknowledged[i].edit;
        assert LastCarrying(rows, h, i);
      }
    }
  }

  /** After a report is taken in, a row still waiting is in the node's hands or stands at the reported revision. */
  lemma StillWaiting(rows: seq<Row>, stored: Option<Report>, h: Report, i: nat)
    requires UniqueRows(rows) && |h.receipts| <= 64 && Readable(h.receipts)
    requires stored.Some? ==> stored.value.revision <= h.revision
    requires i < |rows| && Exchange(rows, stored, h).Ok? && i < |Exchange(rows, stored, h).value.rows|
    requires Waiting(Exchange(rows, stored, h).value.rows[i])
    ensures h.consent && Waiting(rows[i])
    ensures
      || (rows[i].edit.expectedRevision == h.revision)
      || (Exchange(rows, stored, h).value.rows[i].status == RowPending && exists r <- h.receipts ::
           r.requestId == rows[i].edit.requestId && r.status == Pending && r.revision == h.revision)
  {
    hide Exchange, Heard, Answers;
    ExchangeIs(rows, stored, h);
    var now := Exchange(rows, stored, h).value.rows[i];
    assert RowAfter(rows[i], h, now);
    DecidedSettles(rows[i], h, now);
  }

  lemma DecidedSettles(was: Row, h: Report, now: Row)
    requires RowAfter(was, h, now) && Readable(h.receipts)
    ensures Waiting(was) && Decided(h.receipts, was) ==> !Waiting(now)
  {
    if Waiting(was) && Decided(h.receipts, was) {
      var k: nat :| Decides(h.receipts, was, k) && now == was.(status := now.status) &&
        ShownAs(h.receipts[k].status, now.status);
      assert h.receipts[k] in h.receipts;
    }
  }

  // ------------------------------------------------------------------- requests

  ghost predicate GoodId(id: string) {
    0 < |id| < 129 && forall c <- id ::
      48 <= c as int <= 57 || 65 <= c as int <= 90 || 97 <= c as int <= 122 || c == '-' || c == '_'
  }

  /** An edit made for these settings that asks for nothing only the owner may change. */
  ghost predicate GoodEdit(edit: Edit, policy: Policy, revision: nat, allowed: bool) {
    && edit.expectedRevision == revision && GoodId(edit.requestId)
    && edit.policy.startAtLogin == policy.startAtLogin
    && (!edit.acknowledgeInterruption ==> edit.operation == Some(StoragePreview))
    && (edit.operation.Some? ==> edit.policy == policy)
    && (edit.operation.None? ==> allowed)
  }

  lemma EditIs(edit: Edit, policy: Policy, consent: bool, revision: nat, allowed: bool)
    ensures ValidEdit(edit, policy, consent, revision, allowed) <==>
      consent && GoodEdit(edit, policy, revision, allowed)
  {
    IdIs(edit.requestId);
    hide ValidId, GoodId;
  }

  lemma IdIs(id: string)
    ensures ValidId(id) <==> GoodId(id)
  {
  }

  /** What a request needs: a consenting report with settings it fits, and no request waiting before it. */
  ghost predicate MayAsk(rows: seq<Row>, stored: Option<Report>, edit: Edit, usable: bool) {
    && usable && stored.Some? && stored.value.consent && stored.value.policy.Some?
    && GoodEdit(edit, stored.value.policy.value, stored.value.revision, true)
    && forall row <- rows :: !Waiting(row)
  }

  /** A request known by its id is answered from the queue; a new one is added at its end or refused. */
  lemma RequestedIs(rows: seq<Row>, stored: Option<Report>, edit: Edit, usable: bool)
    requires UniqueRows(rows)
    ensures
      var r := Requested(rows, stored, edit, usable);
      if exists row <- rows :: row.edit.requestId == edit.requestId then
        if exists row <- rows :: row.edit == edit then r == Ok(rows) else r.Refused?
      else if MayAsk(rows, stored, edit, usable) then r == Ok(rows + [Row(edit, RowRequested, false)])
      else r.Refused?
  {
    hide ValidEdit, GoodEdit;
    if exists row <- rows :: row.edit.requestId == edit.requestId {
      var k :| 0 <= k < |rows| && rows[k].edit.requestId == edit.requestId;
      RemoteExchange.FindUnique(rows, k);
    }
    if stored.Some? && stored.value.policy.Some? {
      EditIs(edit, stored.value.policy.value, stored.value.consent, stored.value.revision, usable);
      UsableEdit(edit, stored.value.policy.value, stored.value.revision);
    }
  }

  lemma UsableEdit(edit: Edit, policy: Policy, revision: nat)
    ensures GoodEdit(edit, policy, revision, true) || !GoodEdit(edit, policy, revision, false)
  {
  }

  /** The node sends a report and the controller processes it before anything else happens. */
  ghost function Reported(s: Sys): Sys
    requires Enabled(s, Send)
  {
    Next(Next(s, Send), Process(|s.sent|))
  }

  /** In the node's hands, or the very edit issued to it now. */
  ghost predicate StillDue(s: Sys, t: Sys, row: Row) {
    if s.node.remote.pending.Some? then row.edit == s.node.remote.pending.value && row.status == RowPending
    else t.reply == Some(row.edit) && row.edit.expectedRevision == s.node.revision && s.node.saved.consent
  }

  /**
   Every report sent between jobs clears the queue: what still waits is what the node has in hand,
   or is the very edit issued in answer. A request the owner has overtaken is never left waiting.
   */
  lemma NothingLingers(s0: Sys, events: seq<Event>, s: Sys)
    requires Initial(s0) && Reachable(s0, events, s) && Enabled(s, Send)
    ensures
      var t := Reported(s);
      && t.stored.Some? && KeptAs(ReportOf(s.node), t.stored.value)
      && forall row <- t.rows :: Waiting(row) ==> StillDue(s, t, row)
  {
    hide Initial, Reachable, Exchange, RowAfter, Carries, NodeSound, NetSound;
    RemoteAgreement.SoundInitially(s0);
    RemoteAgreement.SoundAlways(s0, events, s);
    var u := Next(s, Send);
    var h := ReportOf(s.node);
    assert u.sent[|s.sent|] == h;
    SentReport(s);
    ExchangeIs(s.rows, s.stored, h);
    var t := Next(u, Process(|s.sent|));
    forall i | 0 <= i < |t.rows| && Waiting(t.rows[i])
      ensures StillDue(s, t, t.rows[i])
    {
      assert RowAfter(s.rows[i], h, t.rows[i]);
      WaitingRow(s, i, t.rows[i]);
      if s.node.remote.pending.None? {
        assert Carries(s.rows[i], h);
        var k: nat :| LastCarrying(s.rows, h, k) && t.reply == Some(s.rows[k].edit);
        OnlyCarried(s, i, k);
      }
    }
  }

  /** What the node reports is readable, and not older than what the controller has. */
  lemma SentReport(s: Sys)
    requires Sound(s)
    ensures UniqueRows(s.rows)
    ensures |ReportOf(s.node).receipts| <= 64 && Readable(ReportOf(s.node).receipts)
    ensures s.stored.Some? ==> s.stored.value.revision <= s.node.revision
  {
    hide InLog, Told, Tells, SentSound, InPlay, LogSound;
    assert AllTrue(s.node.remote.receipts, s);
    forall r <- s.node.remote.receipts
      ensures r.status != UnknownStatus
    {
      assert ReceiptTrue(r, s.rows, s.log, s.node.remote.pending);
    }
  }

  /** A row that still waits after the node's own report. */
  lemma WaitingRow(s: Sys, i: nat, now: Row)
    requires Sound(s) && i < |s.rows| && RowAfter(s.rows[i], ReportOf(s.node), now) && Waiting(now)
    ensures now.edit == s.rows[i].edit
    ensures s.node.remote.pending.Some? ==> now.edit == s.node.remote.pending.value && now.status == RowPending
    ensures s.node.remote.pending.None? ==>
      Carries(s.rows[i], ReportOf(s.node)) && now.edit.expectedRevision == s.node.revision && s.node.saved.consent
  {
    hide InLog, Told, Tells, SentSound, LogSound, ReceiptTrue, PastSound, Answers;
    SentReport(s);
    var was, h := s.rows[i], ReportOf(s.node);
    DecidedSettles(was, h, now);
    if s.node.remote.pending.Some? {
      PendingHeard(s, i);
    }
  }

  lemma PendingHeard(s: Sys, i: nat)
    requires Sound(s) && i < |s.rows| && Waiting(s.rows[i]) && s.node.remote.pending.Some?
    ensures s.rows[i].edit == s.node.remote.pending.value && Heard(s.node.remote.receipts, s.rows[i])
  {
    hide InLog, Told, Tells, SentSound, LogSound, ReceiptTrue, PastSound, Owed;
    var edit := s.node.remote.pending.value;
    assert ActiveRow(s.rows, edit);
    var k :| 0 <= k < |s.rows| && s.rows[k].edit == edit && Active(s.rows[k]);
    assert k == i;
    assert RowSound(s.rows[i], s);
    var r :| r in s.node.remote.receipts && r.requestId == edit.requestId && r.status == Pending;
    assert Answers(r, s.rows[i]);
  }

  lemma OnlyCarried(s: Sys, i: nat, k: nat)
    requires Sound(s) && i < |s.rows| && k < |s.rows|
    requires Carries(s.rows[i], ReportOf(s.node)) && Carries(s.rows[k], ReportOf(s.node))
    ensures i == k
  {
    hide InLog, Told, Tells, SentSound, InPlay, LogSound, Decided, InHand;
    assert OneActive(s.rows);
  }

  lemma SoundTwice(s0: Sys, events: seq<Event>, s: Sys)
    requires Initial(s0) && Reachable(s0, events, s) && Enabled(s, Send)
    ensures UniqueRows(s.rows) && UniqueRows(Reported(s).rows)
  {
    hide Initial, Reachable, NodeSound, NetSound, Next;
    RemoteAgreement.SoundInitially(s0);
    RemoteAgreement.SoundAlways(s0, events, s);
    RemoteAgreement.SoundKept(s, Send);
    SendsOne(s);
    RemoteAgreement.SoundKept(Next(s, Send), Process(|s.sent|));
    SoundRows(s);
    SoundRows(Reported(s));
  }

  lemma SendsOne(s: Sys)
    requires Enabled(s, Send)
    ensures Enabled(Next(s, Send), Process(|s.sent|))
  {
  }

  lemma SoundRows(s: Sys)
    requires Sound(s)
    ensures UniqueRows(s.rows)
  {
    hide NodeSound, SentSound, InPlay, RowSound;
  }

  lemma RowKept(was: Row, h: Report, now: Row)
    requires RowAfter(was, h, now)
    ensures now.edit == was.edit && (Waiting(now) && Readable(h.receipts) ==> Waiting(was))
  {
  }

  lemma ReportedRows(s: Sys)
    requires Sound(s) && Enabled(s, Send)
    ensures |Reported(s).rows| == |s.rows| && Readable(s.node.remote.receipts)
    ensures forall i :: 0 <= i < |s.rows| ==> RowAfter(s.rows[i], ReportOf(s.node), Reported(s).rows[i])
  {
    hide Exchange, RowAfter, Carries, NodeSound, NetSound;
    SentReport(s);
    var h := ReportOf(s.node);
    assert Next(s, Send).sent[|s.sent|] == h;
    ExchangeIs(s.rows, s.stored, h);
  }

  /** Once the owner has overtaken every waiting request, one report is enough for a new one to be queued. */
  lemma OvertakenMakesRoom(s0: Sys, events: seq<Event>, s: Sys, edit: Edit)
    requires Initial(s0) && Reachable(s0, events, s) && Enabled(s, Send)
    requires s.node.remote.pending.None? && s.node.saved.consent
    requires forall row <- s.rows :: row.edit.requestId != edit.requestId
    requires forall row <- s.rows :: Waiting(row) ==> row.edit.expectedRevision < s.node.revision
    requires GoodEdit(edit, s.node.saved.policy, s.node.revision, true)
    ensures
      var t := Reported(s);
      && (forall row <- t.rows :: !Waiting(row))
      && Next(t, Ask(edit, true)).rows == t.rows + [Row(edit, RowRequested, false)]
  {
    hide Initial, Reachable, Reported, RowAfter, NodeSound, NetSound, GoodEdit, Requested;
    NothingLingers(s0, events, s);
    SoundTwice(s0, events, s);
    RemoteAgreement.SoundInitially(s0);
    RemoteAgreement.SoundAlways(s0, events, s);
    ReportedRows(s);
    var t := Reported(s);
    forall i | 0 <= i < |t.rows|
      ensures t.rows[i].edit == s.rows[i].edit && !Waiting(t.rows[i])
    {
      assert s.rows[i] in s.rows && t.rows[i] in t.rows;
      RowKept(s.rows[i], ReportOf(s.node), t.rows[i]);
    }
    RequestedIs(t.rows, t.stored, edit, true);
  }
}
