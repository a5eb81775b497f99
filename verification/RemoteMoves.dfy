/** The network's invariant over the node's own writes: reports, rows and issued edits stay truthful. */
module RemoteMoves {
  import opened Outcomes
  import opened RemoteModel
  import opened RemoteController
  import opened RemoteSystem
  import opened RemoteWrites
  import opened RemoteInvariant
  import RemoteNodeRuns

  /** The log is kept, or the pending edit was committed to it. */
  ghost predicate LogStep(log: seq<Entry>, log': seq<Entry>, pending: Option<Edit>) {
    || log' == log
    || (|log'| == |log| + 1 && log'[..|log|] == log && pending == Some(log'[|log|].edit))
  }

  /** One write of the node, seen from outside: nothing but the node, its job, its history and the log moves. */
  ghost predicate Moves(s: Sys, t: Sys) {
    && t.rows == s.rows && t.stored == s.stored && t.sent == s.sent && t.reply == s.reply &&
      t.outstanding == s.outstanding
    && t.node.revision >= s.node.revision && (forall k <- s.past :: k in t.past && t.past[k] == s.past[k])
    && (t.node.remote.pending == None || t.node.remote.pending == s.node.remote.pending)
    && LogStep(s.log, t.log, s.node.remote.pending)
  }

  /** The receipts a write leaves: the same requests, still true, and applied for all that is committed. */
  ghost predicate Keeps(s: Sys, t: Sys) {
    && SameIds(s.node.remote.receipts, t.node.remote.receipts)
    && AllTrue(t.node.remote.receipts, t)
    && (forall e <- s.log :: HasApplied(s.node.remote.receipts, e.edit.requestId) ==>
      HasApplied(t.node.remote.receipts, e.edit.requestId))
    && (|t.log| > |s.log| ==>
         var edit := t.log[|s.log|].edit;
         HasApplied(t.node.remote.receipts, edit.requestId) && s.node.revision == edit.expectedRevision)
  }

  lemma LogStepIn(log: seq<Entry>, log': seq<Entry>, pending: Option<Edit>, edit: Edit)
    requires LogStep(log, log', pending)
    ensures InLog(log, edit) ==> InLog(log', edit)
    ensures InLog(log', edit) ==>
      InLog(log, edit) || (|log'| > |log| && pending == Some(edit) && log'[|log|].edit == edit)
  {
    if InLog(log, edit) {
      var i :| 0 <= i < |log| && log[i].edit == edit;
      assert log'[i] == log[i] by { assert log'[..|log|][i] == log[i]; }
    }
    if InLog(log', edit) {
      var i :| 0 <= i < |log'| && log'[i].edit == edit;
      if i < |log| {
        assert log'[..|log|][i] == log[i];
      }
    }
  }

  lemma ReceiptStays(r: Receipt, rows: seq<Row>, log: seq<Entry>, pending: Option<Edit>, log': seq<Entry>,
      pending': Option<Edit>)
    requires ReceiptTrue(r, rows, log, pending) && LogStep(log, log', pending)
    requires pending' == None || pending' == pending
    ensures ReceiptTrue(r, rows, log', pending')
  {
    hide LogStep, InLog;
    forall row <- rows | row.edit.requestId == r.requestId
      ensures Tells(r, row.edit, log', pending')
    {
      LogStepIn(log, log', pending, row.edit);
    }
  }

  lemma SentStays(s: Sys, t: Sys)
    requires SentSound(s) && Moves(s, t)
    ensures SentSound(t)
  {
    hide LogStep, ReceiptTrue, Listed;
    forall h <- t.sent
      ensures AllTrue(h.receipts, t)
    {
      forall r <- h.receipts
        ensures ReceiptTrue(r, t.rows, t.log, t.node.remote.pending)
      {
        ReceiptStays(r, s.rows, s.log, s.node.remote.pending, t.log, t.node.remote.pending);
      }
    }
  }

  lemma SameRow(rows: seq<Row>, row: Row, edit: Edit)
    requires UniqueRows(rows) && row in rows && Known(rows, edit) && row.edit.requestId == edit.requestId
    ensures row.edit == edit
  {
  }

  lemma ActiveIs(rows: seq<Row>, row: Row)
    requires UniqueRows(rows) && row in rows && ActiveRow(rows, row.edit)
    ensures Active(row)
  {
  }

  lemma OwedStays(s: Sys, t: Sys, edit: Edit)
    requires Owed(edit, s) && Moves(s, t) && Keeps(s, t) && SentSound(s)
    ensures Owed(edit, t)
  {
    hide LogStep, AllTrue, InLog, HasReceipt, HasPending, HasApplied;
    LogStepIn(s.log, t.log, s.node.remote.pending, edit);
    if InLog(s.log, edit) {
      assert HasApplied(t.node.remote.receipts, edit.requestId) by { LoggedKept(s, t, edit); }
    } else if InLog(t.log, edit) {
      forall h <- s.sent
        ensures h.revision <= edit.expectedRevision
      {
        assert ReportSound(h, s.past, s.node.revision);
      }
    }
  }

  lemma LoggedKept(s: Sys, t: Sys, edit: Edit)
    requires Keeps(s, t) && InLog(s.log, edit) && HasApplied(s.node.remote.receipts, edit.requestId)
    ensures HasApplied(t.node.remote.receipts, edit.requestId)
  {
  }

  lemma RowStays(s: Sys, t: Sys, row: Row)
    requires row in s.rows && RowSound(row, s) && UniqueRows(s.rows) && InPlay(s) && SentSound(s)
    requires Moves(s, t) && Keeps(s, t)
    ensures RowSound(row, t)
  {
    hide LogStep, InLog, Owed, Keeps, SentSound;
    LogStepIn(s.log, t.log, s.node.remote.pending, row.edit);
    if Active(row) {
      OwedStays(s, t, row.edit);
    }
    if s.node.remote.pending == Some(row.edit) {
      ActiveIs(s.rows, row);
    }
  }

  lemma RowsStay(s: Sys, t: Sys)
    requires RowsSound(s) && InPlay(s) && SentSound(s) && Moves(s, t) && Keeps(s, t)
    ensures RowsSound(t)
  {
    hide InPlay, SentSound, Keeps, RowSound, UniqueRows, OneActive;
    forall row <- t.rows
      ensures RowSound(row, t)
    {
      RowStays(s, t, row);
    }
  }

  lemma PlayStays(s: Sys, t: Sys)
    requires InPlay(s) && Moves(s, t)
    requires !t.job.NoJob? ==> Known(s.rows, t.job.edit) && !InLog(t.log, t.job.edit)
    requires t.node.remote.pending.Some? ==> t.log == s.log
    ensures InPlay(t)
  {
    hide InLog;
    forall e <- t.log
      ensures Known(t.rows, e.edit)
    {
      var i :| 0 <= i < |t.log| && t.log[i] == e;
      if i < |s.log| {
        assert t.log[i] == t.log[..|s.log|][i];
      }
    }
  }

  lemma ReplyStays(s: Sys, t: Sys)
    requires ReplySound(s) && StoredSound(s) && ChannelSound(s) && Moves(s, t)
    requires SameIds(s.node.remote.receipts, t.node.remote.receipts)
    requires t.job == s.job || !s.outstanding
    ensures ReplySound(t) && StoredSound(t) && ChannelSound(t)
  {
    hide LogStep;
  }

  /** A write that keeps the receipts true keeps everything the controller relies on. */
  lemma MoveKept(s: Sys, t: Sys)
    requires NetSound(s) && Moves(s, t) && Keeps(s, t)
    requires t.job == s.job || !s.outstanding
    requires !t.job.NoJob? ==> Known(s.rows, t.job.edit) && !InLog(t.log, t.job.edit)
    requires t.node.remote.pending.Some? ==> t.log == s.log
    ensures NetSound(t)
  {
    hide AllTrue, SentSound, RowsSound, StoredSound, InPlay, ChannelSound, ReplySound, Moves, InLog;
    SentStays(s, t);
    RowsStay(s, t);
    PlayStays(s, t);
    assert SameIds(s.node.remote.receipts, t.node.remote.receipts);
    ReplyStays(s, t);
  }

  // ----------------------------------------------- the two kinds of write

  /** A write that leaves the receipts and the log alone. */
  lemma QuietKeeps(s: Sys, t: Sys)
    requires AllTrue(s.node.remote.receipts, s) && Moves(s, t)
    requires t.node.remote.receipts == s.node.remote.receipts && t.log == s.log
    ensures Keeps(s, t)
  {
    hide ReceiptTrue, HasApplied;
    forall r <- t.node.remote.receipts
      ensures ReceiptTrue(r, t.rows, t.log, t.node.remote.pending)
    {
      ReceiptStays(r, s.rows, s.log, s.node.remote.pending, t.log, t.node.remote.pending);
    }
  }

  /** A write that rewrites the receipt of one known request. */
  ghost predicate Acted(s: Sys, t: Sys, edit: Edit, status: ReceiptStatus) {
    && Moves(s, t) && Known(s.rows, edit) && !InLog(s.log, edit) && status != UnknownStatus
    && Acts(s.node.remote.receipts, t.node.remote.receipts, edit.requestId, status, t.node.revision)
    && t.node.revision >= edit.expectedRevision
    && (t.node.remote.pending == Some(edit) ==> status == Pending)
    && (t.log == s.log ||
      (status == Applied && t.log[|s.log|].edit == edit && s.node.revision == edit.expectedRevision &&
                           HasApplied(t.node.remote.receipts, edit.requestId)))
    && (status == Applied && edit.operation == None ==> t.log != s.log)
  }

  lemma ActedTrue(s: Sys, t: Sys, edit: Edit, status: ReceiptStatus, r: Receipt)
    requires Acted(s, t, edit, status) && UniqueRows(s.rows) && AllTrue(s.node.remote.receipts, s)
    requires r in t.node.remote.receipts
    ensures ReceiptTrue(r, t.rows, t.log, t.node.remote.pending)
  {
    hide LogStep, InLog, HasReceipt, HasApplied;
    if r in s.node.remote.receipts {
      ReceiptStays(r, s.rows, s.log, s.node.remote.pending, t.log, t.node.remote.pending);
    } else {
      forall row <- t.rows | row.edit.requestId == r.requestId
        ensures Tells(r, row.edit, t.log, t.node.remote.pending)
      {
        SameRow(s.rows, row, edit);
        LogStepIn(s.log, t.log, s.node.remote.pending, edit);
        LogStepLast(s.log, t.log, s.node.remote.pending);
      }
    }
  }

  lemma LogStepLast(log: seq<Entry>, log': seq<Entry>, pending: Option<Edit>)
    requires LogStep(log, log', pending)
    ensures log' != log ==> |log'| > |log| && InLog(log', log'[|log|].edit)
  {
    if log' != log {
      assert log'[|log|] in log';
    }
  }

  lemma ActedApplied(s: Sys, t: Sys, edit: Edit, status: ReceiptStatus, e: Entry)
    requires Acted(s, t, edit, status) && UniqueRows(s.rows) && InPlay(s) && e in s.log
    requires HasApplied(s.node.remote.receipts, e.edit.requestId)
    ensures HasApplied(t.node.remote.receipts, e.edit.requestId)
  {
    hide Moves;
    var row :| row in s.rows && row.edit == e.edit;
    assert InLog(s.log, e.edit);
    if row.edit.requestId == edit.requestId {
      SameRow(s.rows, row, edit);
      assert false;
    }
    var r :| r in s.node.remote.receipts && r.requestId == e.edit.requestId && r.status == Applied;
    assert r in t.node.remote.receipts;
  }

  lemma ActedKeeps(s: Sys, t: Sys, edit: Edit, status: ReceiptStatus)
    requires Acted(s, t, edit, status) && UniqueRows(s.rows) && InPlay(s) && AllTrue(s.node.remote.receipts, s)
    ensures Keeps(s, t)
  {
    hide Acted, InPlay, UniqueRows, ReceiptTrue, HasApplied, SameIds;
    assert SameIds(s.node.remote.receipts, t.node.remote.receipts) by {
      ActedIds(s, t, edit, status);
    }
    forall r <- t.node.remote.receipts
      ensures ReceiptTrue(r, t.rows, t.log, t.node.remote.pending)
    {
      ActedTrue(s, t, edit, status, r);
    }
    forall e <- s.log | HasApplied(s.node.remote.receipts, e.edit.requestId)
      ensures HasApplied(t.node.remote.receipts, e.edit.requestId)
    {
      ActedApplied(s, t, edit, status, e);
    }
    ActedLog(s, t, edit, status);
  }

  lemma ActedIds(s: Sys, t: Sys, edit: Edit, status: ReceiptStatus)
    requires Acted(s, t, edit, status)
    ensures SameIds(s.node.remote.receipts, t.node.remote.receipts)
  {
    hide Acts, SameIds;
    RemoteNodeRuns.ActsKeepsIds(s.node.remote.receipts, t.node.remote.receipts, edit.requestId, status,
      t.node.revision);
  }

  lemma ActedLog(s: Sys, t: Sys, edit: Edit, status: ReceiptStatus)
    requires Acted(s, t, edit, status)
    ensures |t.log| > |s.log| ==>
         var e := t.log[|s.log|].edit;
         HasApplied(t.node.remote.receipts, e.requestId) && s.node.revision == e.expectedRevision
  {
  }
}
