/** The heartbeat channel: reports sent, answers lost, issued edits delivered, requests made. */
module RemoteChannel {
  import opened Outcomes
  import opened RemoteModel
  import opened RemoteController
  import opened RemoteSystem
  import opened RemoteWrites
  import opened RemoteInvariant
  import opened RemoteMoves

  /** An answer lost, or a crash, only forgets. */
  lemma ForgetNet(s: Sys, e: Event)
    requires NetSound(s) && Enabled(s, e) && (e.Lose? || e.Crash?)
    ensures NetSound(Next(s, e))
  {
    hide AllTrue, RowSound, StoredSound, Known, ActiveRow, InLog, ReportSound, Listed;
    var t := Next(s, e);
    assert forall h <- s.sent :: AllTrue(h.receipts, s) ==> AllTrue(h.receipts, t) by { TrueSame(s, t); }
    assert AllTrue(t.node.remote.receipts, t) by { TrueSame(s, t); }
    RowsSame(s, t);
    assert StoredSound(t) by { StoredSame(s, t); }
  }

  lemma TrueSame(s: Sys, t: Sys)
    requires t.rows == s.rows && t.log == s.log && t.node.remote.pending == s.node.remote.pending
    ensures forall receipts :: AllTrue(receipts, s) ==> AllTrue(receipts, t)
  {
    hide ReceiptTrue;
  }

  lemma StoredSame(s: Sys, t: Sys)
    requires StoredSound(s) && t.stored == s.stored && t.past == s.past && t.node == s.node
    ensures StoredSound(t)
  {
  }

  lemma RowsSame(s: Sys, t: Sys)
    requires t.rows == s.rows && t.log == s.log && t.node == s.node && t.sent == s.sent && t.stored == s.stored
    requires t.past == s.past
    requires RowsSound(s)
    ensures RowsSound(t)
  {
    hide InLog, HasReceipt, HasApplied, HasPending, Told;
    forall row <- t.rows
      ensures RowSound(row, t)
    {
      assert RowSound(row, s);
    }
  }

  // -------------------------------------------------------------------- send

  lemma SendOwed(s: Sys, row: Row)
    requires NodeSound(s) && RowsSound(s) && row in s.rows && Enabled(s, Send)
    ensures RowSound(row, Next(s, Send))
  {
    hide InLog, HasReceipt, HasPending, HasApplied, LogSound, PastSound;
    var t := Next(s, Send);
    var h := ReportOf(s.node);
    assert forall x <- t.sent :: x in s.sent || x == h;
    assert RowSound(row, s);
    if Told(s.sent, row) {
      assert Told(t.sent, row) by { ToldKept(s.sent, h, row); }
    }
  }

  lemma ToldKept(sent: seq<Report>, h: Report, row: Row)
    requires Told(sent, row)
    ensures Told(sent + [h], row)
  {
    var x :| x in sent && Reports(x.receipts, row);
    assert x in sent + [h];
  }

  lemma SendSent(s: Sys)
    requires NodeSound(s) && SentSound(s) && AllTrue(s.node.remote.receipts, s) && Enabled(s, Send)
    ensures SentSound(Next(s, Send))
  {
    hide AllTrue, LogSound, JobSound, PendingSound;
    var t := Next(s, Send);
    TrueSame(s, t);
    var h := ReportOf(s.node);
    assert forall x <- t.sent :: x in s.sent || x == h;
    assert ReportSound(h, s.past, s.node.revision);
    forall i, k | 0 <= i < k < |t.sent|
      ensures t.sent[i].revision <= t.sent[k].revision
    {
      assert t.sent[i] in s.sent;
    }
    forall x <- t.sent
      ensures AllTrue(x.receipts, t)
    {
      assert AllTrue(x.receipts, s);
    }
  }

  lemma SendNet(s: Sys)
    requires NodeSound(s) && NetSound(s) && Enabled(s, Send)
    ensures NetSound(Next(s, Send))
  {
    hide AllTrue, RowSound, StoredSound, Known, ActiveRow, InLog, SentSound, NodeSound;
    var t := Next(s, Send);
    SendSent(s);
    forall row <- t.rows
      ensures RowSound(row, t)
    {
      SendOwed(s, row);
    }
    assert AllTrue(t.node.remote.receipts, t) by { TrueSame(s, t); }
    assert StoredSound(t) by { StoredSame(s, t); }
  }

  // ----------------------------------------------------------------- deliver

  /** An issued edit finds nothing pending. */
  lemma NothingPending(s: Sys)
    requires NodeSound(s) && NetSound(s) && s.reply.Some?
    ensures s.node.remote.pending == None && !HasReceipt(s.node.remote.receipts, s.reply.value.requestId)
    ensures !InLog(s.log, s.reply.value)
  {
    hide AllTrue, SentSound, StoredSound, PendingSound, JobSound, PastSound, LogSound, ChannelSound;
    var row :| row in s.rows && row.edit == s.reply.value && Active(row);
    assert RowSound(row, s);
    PendingHas(s.node.remote.receipts, s.node.remote.pending, s.node.revision);
    PendingIsReply(s);
  }

  lemma PendingIsReply(s: Sys)
    requires NetSound(s) && s.reply.Some?
    ensures s.node.remote.pending.Some? ==> s.node.remote.pending == s.reply
  {
    hide AllTrue, SentSound, StoredSound, ChannelSound, RowSound, InLog, Unseen;
    if s.node.remote.pending.Some? {
      OneActiveEdit(s.rows, s.reply.value, s.node.remote.pending.value);
    }
  }

  lemma OneActiveEdit(rows: seq<Row>, a: Edit, b: Edit)
    requires OneActive(rows) && ActiveRow(rows, a) && ActiveRow(rows, b)
    ensures a == b
  {
  }

  ghost predicate Delivers(s: Sys, t: Sys, edit: Edit) {
    && t.rows == s.rows && t.log == s.log && t.stored == s.stored && t.sent == s.sent && t.past == s.past
    && t.job == s.job && t.node.revision == s.node.revision && s.node.remote.pending == None
    && (t.node.remote.pending == None || t.node.remote.pending == Some(edit))
    && (forall r <- t.node.remote.receipts :: r in s.node.remote.receipts ||
         (r.requestId == edit.requestId && r.revision == t.node.revision &&
           (r.status == Pending || r.status == Rejected)))
    && HasReceipt(t.node.remote.receipts, edit.requestId)
    && (t.node.remote.pending == Some(edit) ==>
      forall r <- t.node.remote.receipts :: r.status == Pending || r.requestId != edit.requestId)
    && ActiveRow(s.rows, edit) && Unseen(s, edit.requestId) && !InLog(s.log, edit) &&
      edit.expectedRevision <= s.node.revision
  }

  lemma DeliverMoves(s: Sys, allowed: bool)
    requires NodeSound(s) && NetSound(s) && Enabled(s, Deliver(allowed))
    ensures Delivers(s, Next(s, Deliver(allowed)), s.reply.value) && !Next(s, Deliver(allowed)).outstanding
    ensures Next(s, Deliver(allowed)).reply == None
  {
    hide AllTrue, SentSound, InLog, Delivered, LogSound, JobSound, PendingSound, HasReceipt, RowsSound, ActiveRow;
    hide Known, ChannelSound;
    NothingPending(s);
    DeliverFacts(s.node, s.reply.value, allowed);
    var d := Delivered(s.node, s.reply.value, allowed);
    PastSame(s, d);
    if d.remote.pending.Some? {
      PendingOnly(d);
    }
  }

  lemma PastSame(s: Sys, d: Config)
    requires PastSound(s.node, s.past) && d.revision == s.node.revision && d.saved == s.node.saved
    ensures Saves(s, d).past == s.past
  {
  }

  lemma PendingOnly(d: Config)
    requires NodeReceipts(d) && d.remote.pending.Some?
    ensures forall r <- d.remote.receipts :: r.status == Pending || r.requestId != d.remote.pending.value.requestId
  {
    var receipts := d.remote.receipts;
    var id := d.remote.pending.value.requestId;
    var k :| 0 <= k < |receipts| && receipts[k].requestId == id && receipts[k].status == Pending;
    forall r <- receipts | r.requestId == id
      ensures r.status == Pending
    {
      var i :| 0 <= i < |receipts| && receipts[i] == r;
      assert i == k;
    }
  }

  lemma DeliverTrue(s: Sys, t: Sys, edit: Edit, r: Receipt)
    requires Delivers(s, t, edit) && UniqueRows(s.rows)
    requires
      || ReceiptTrue(r, s.rows, s.log, None)
      || (r.requestId == edit.requestId && r.revision == t.node.revision &&
        (r.status == Pending || r.status == Rejected))
    requires r.requestId == edit.requestId ==> r in t.node.remote.receipts && r !in s.node.remote.receipts
    ensures ReceiptTrue(r, t.rows, t.log, t.node.remote.pending)
  {
    hide InLog, HasReceipt, Unseen;
    forall row <- t.rows | row.edit.requestId == r.requestId
      ensures Tells(r, row.edit, t.log, t.node.remote.pending)
    {
      if r.requestId == edit.requestId {
        SameRow(s.rows, row, edit);
      }
    }
  }

  lemma DeliverAllTrue(s: Sys, t: Sys, edit: Edit)
    requires Delivers(s, t, edit) && UniqueRows(s.rows) && AllTrue(s.node.remote.receipts, s) && SentSound(s)
    ensures AllTrue(t.node.remote.receipts, t) && SentSound(t)
  {
    hide ReceiptTrue, InLog, UniqueRows, ReportSound;
    forall r <- t.node.remote.receipts
      ensures ReceiptTrue(r, t.rows, t.log, t.node.remote.pending)
    {
      DeliverTrue(s, t, edit, r);
    }
    forall h <- t.sent
      ensures AllTrue(h.receipts, t)
    {
      forall r <- h.receipts
        ensures ReceiptTrue(r, t.rows, t.log, t.node.remote.pending)
      {
        assert !HasReceipt(h.receipts, edit.requestId);
        DeliverTrue(s, t, edit, r);
      }
    }
  }

  lemma DeliverRow(s: Sys, t: Sys, edit: Edit, row: Row)
    requires Delivers(s, t, edit) && RowsSound(s) && SentSound(s) && row in s.rows
    requires |s.sent| > 0 && s.sent[|s.sent| - 1].revision == edit.expectedRevision
    ensures RowSound(row, t)
  {
    hide InLog, HasReceipt, HasApplied, HasPending, Told, AllTrue, ReportSound;
    assert RowSound(row, s);
    if Active(row) {
      assert row.edit == edit by {
        var i :| 0 <= i < |s.rows| && s.rows[i] == row;
        var k :| 0 <= k < |s.rows| && s.rows[k].edit == edit && Active(s.rows[k]);
        assert i == k;
      }
      forall h <- s.sent
        ensures h.revision <= edit.expectedRevision
      {
        var i :| 0 <= i < |s.sent| && s.sent[i] == h;
        if i < |s.sent| - 1 {
          assert s.sent[i].revision <= s.sent[|s.sent| - 1].revision;
        }
      }
    }
  }

  lemma DeliverNet(s: Sys, allowed: bool)
    requires NodeSound(s) && NetSound(s) && Enabled(s, Deliver(allowed))
    ensures NetSound(Next(s, Deliver(allowed)))
  {
    hide AllTrue, SentSound, RowSound, ReceiptsSound, PastSound, JobSound, PendingSound, LogSound, InLog, Known;
    hide UniqueRows, OneActive, Delivered;
    var t := Next(s, Deliver(allowed));
    var edit := s.reply.value;
    DeliverMoves(s, allowed);
    DeliverAllTrue(s, t, edit);
    forall row <- t.rows
      ensures RowSound(row, t)
    {
      DeliverRow(s, t, edit, row);
    }
  }

  // ----------------------------------------------------------------- request

  lemma AskNet(s: Sys, edit: Edit, usable: bool)
    requires NetSound(s)
    ensures NetSound(Next(s, Ask(edit, usable)))
  {
    hide AllTrue, SentSound, RowSound, InLog, Known, ActiveRow, ChannelSound, ReplySound, StoredSound, Unseen;
    hide Requested, UniqueRows, OneActive;
    var t := Next(s, Ask(edit, usable));
    var rows := Requested(s.rows, s.stored, edit, usable);
    if rows.Ok? && rows.value != s.rows {
      AskFacts(s, edit, usable);
      AskTrue(s, t, edit);
      AskRows(s, t, edit);
      AskPlay(s, t, edit);
    } else {
      assert t == s;
    }
  }

  ghost predicate Asks(s: Sys, t: Sys, edit: Edit) {
    && t == s.(rows := t.rows) && t.rows == s.rows + [Row(edit, RowRequested, false)]
    && s.stored.Some? && s.stored.value.consent && s.stored.value.revision == edit.expectedRevision
    && (forall row <- s.rows :: row.edit.requestId != edit.requestId && !Active(row))
  }

  lemma AskFacts(s: Sys, edit: Edit, usable: bool)
    requires Requested(s.rows, s.stored, edit, usable).Ok? && Requested(s.rows, s.stored, edit, usable).value != s.rows
    ensures Asks(s, Next(s, Ask(edit, usable)), edit)
  {
    hide FindRow;
  }

  lemma AskTrueOne(s: Sys, t: Sys, edit: Edit, r: Receipt)
    requires Asks(s, t, edit) && ReceiptTrue(r, s.rows, s.log, s.node.remote.pending)
    ensures ReceiptTrue(r, t.rows, t.log, t.node.remote.pending)
  {
    hide InLog;
    var known :| known in s.rows && known.edit.requestId == r.requestId;
    assert known in t.rows;
    forall row <- t.rows | row.edit.requestId == r.requestId
      ensures Tells(r, row.edit, t.log, t.node.remote.pending)
    {
      assert row in s.rows;
    }
  }

  lemma AskTrue(s: Sys, t: Sys, edit: Edit)
    requires Asks(s, t, edit) && AllTrue(s.node.remote.receipts, s) && SentSound(s)
    ensures AllTrue(t.node.remote.receipts, t) && SentSound(t)
  {
    hide ReceiptTrue, ReportSound, Asks;
    assert t == s.(rows := t.rows) by { AskOnly(s, t, edit); }
    forall r <- t.node.remote.receipts
      ensures ReceiptTrue(r, t.rows, t.log, t.node.remote.pending)
    {
      AskTrueOne(s, t, edit, r);
    }
    forall h <- t.sent
      ensures AllTrue(h.receipts, t)
    {
      forall r <- h.receipts
        ensures ReceiptTrue(r, t.rows, t.log, t.node.remote.pending)
      {
        AskTrueOne(s, t, edit, r);
      }
    }
  }

  lemma AskOnly(s: Sys, t: Sys, edit: Edit)
    requires Asks(s, t, edit)
    ensures t == s.(rows := t.rows)
  {
  }

  /** A request nobody made before is not committed, not pending, and in no receipt. */
  lemma AskFresh(s: Sys, t: Sys, edit: Edit)
    requires Asks(s, t, edit) && InPlay(s) && AllTrue(s.node.remote.receipts, s) && SentSound(s)
    ensures !InLog(s.log, edit) && s.node.remote.pending != Some(edit) && Unseen(s, edit.requestId)
  {
    hide ReportSound;
    forall r <- s.node.remote.receipts
      ensures r.requestId != edit.requestId
    {
      assert ReceiptTrue(r, s.rows, s.log, s.node.remote.pending);
    }
    forall h <- s.sent
      ensures !HasReceipt(h.receipts, edit.requestId)
    {
      assert AllTrue(h.receipts, s);
    }
  }

  lemma AskRows(s: Sys, t: Sys, edit: Edit)
    requires Asks(s, t, edit) && RowsSound(s) && StoredSound(s) && InPlay(s) && AllTrue(s.node.remote.receipts, s)
    requires SentSound(s)
    ensures RowsSound(t)
  {
    hide InLog, HasReceipt, HasApplied, HasPending, Told, AllTrue, SentSound, InPlay;
    AskFresh(s, t, edit);
    forall row <- t.rows
      ensures RowSound(row, t)
    {
      if row in s.rows {
        assert RowSound(row, s);
      }
    }
  }

  lemma AskPlay(s: Sys, t: Sys, edit: Edit)
    requires Asks(s, t, edit) && InPlay(s) && ChannelSound(s) && ReplySound(s) && StoredSound(s)
    ensures InPlay(t) && ChannelSound(t) && ReplySound(t) && StoredSound(t)
  {
    hide InLog, SameIds, Unseen;
    assert forall row <- s.rows :: row in t.rows;
  }
}
