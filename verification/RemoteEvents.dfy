/** Every event of the node keeps what the controller relies on. */
module RemoteEvents {
  import opened Outcomes
  import opened RemoteModel
  import opened RemoteController
  import opened RemoteSystem
  import opened RemoteWrites
  import opened RemoteInvariant
  import opened RemoteMoves
  import RemoteNodeRuns

  lemma ActiveKnown(rows: seq<Row>, edit: Edit)
    requires ActiveRow(rows, edit)
    ensures Known(rows, edit)
  {
  }

  /** What is pending was made for a revision the controller had already been told of. */
  lemma KnownExpected(s: Sys, edit: Edit)
    requires Known(s.rows, edit) && RowsSound(s) && StoredSound(s)
    ensures edit.expectedRevision <= s.node.revision
  {
  }

  /** Writes that leave the receipts alone. */
  lemma QuietKept(s: Sys, t: Sys)
    requires NetSound(s) && Moves(s, t) && t.node.remote.receipts == s.node.remote.receipts && t.log == s.log
    requires t.job == s.job || !s.outstanding
    requires !t.job.NoJob? ==> Known(s.rows, t.job.edit) && !InLog(t.log, t.job.edit)
    ensures NetSound(t)
  {
    hide Moves, AllTrue, SentSound, RowsSound, StoredSound, InPlay, ChannelSound, ReplySound, InLog, Keeps;
    QuietKeeps(s, t);
    MoveKept(s, t);
  }

  lemma ActedKept(s: Sys, t: Sys, edit: Edit, status: ReceiptStatus)
    requires NetSound(s) && Acted(s, t, edit, status)
    requires t.job == s.job || !s.outstanding
    requires !t.job.NoJob? ==> Known(s.rows, t.job.edit) && !InLog(t.log, t.job.edit)
    requires t.node.remote.pending.Some? ==> t.log == s.log
    ensures NetSound(t)
  {
    hide Acted, AllTrue, SentSound, RowSound, StoredSound, InPlay, ChannelSound, ReplySound, InLog, Keeps, UniqueRows;
    assert UniqueRows(s.rows);
    ActedKeeps(s, t, edit, status);
    ActedMoves(s, t, edit, status);
    MoveKept(s, t);
  }

  lemma ActedMoves(s: Sys, t: Sys, edit: Edit, status: ReceiptStatus)
    requires Acted(s, t, edit, status)
    ensures Moves(s, t)
  {
  }

  lemma OwnerNet(s: Sys, e: Event)
    requires NodeSound(s) && NetSound(s) && e.Owner?
    ensures NetSound(Next(s, e))
  {
    hide AllTrue, SentSound, RowsSound, StoredSound, ChannelSound, ReplySound, InLog, Known, ActiveRow;
    hide ReceiptsSound, Acts, OwnerUpdated, LogSound, HasReceipt;
    var t := Next(s, e);
    if OwnerUpdated(s.node, e.change).Ok? {
      OwnerFacts(s.node, e.change);
      RemoteNodeRuns.PastGrows(s.node, t.node, s.past);
      if s.node.remote.pending.None? {
        QuietKept(s, t);
      } else if t.node.remote.pending.None? {
        var edit := s.node.remote.pending.value;
        ActiveKnown(s.rows, edit);
        KnownExpected(s, edit);
        ActedKept(s, t, edit, Rejected);
      } else {
        QuietKept(s, t);
      }
    }
  }

  lemma ClaimNet(s: Sys, e: Event)
    requires NodeSound(s) && NetSound(s) && Enabled(s, e) && (e.Claim? || e.StorageStart?)
    ensures NetSound(Next(s, e))
  {
    hide AllTrue, SentSound, RowsSound, StoredSound, ChannelSound, ReplySound, InLog, Known, ActiveRow;
    hide NodeReceipts, JobSound, PendingSound, Claimed, LogSound, HasReceipt;
    var t := Next(s, e);
    var edit := s.node.remote.pending.value;
    ActiveKnown(s.rows, edit);
    if e.Claim? && Claimed(s.node, edit, e.allowed).Ok? {
      ClaimFacts(s.node, edit, e.allowed);
      RemoteNodeRuns.PastGrows(s.node, t.node, s.past);
    }
    QuietKept(s, t);
  }

  lemma CommitNet(s: Sys)
    requires NodeSound(s) && NetSound(s) && s.job.Ready?
    ensures NetSound(Next(s, Commit))
  {
    hide AllTrue, SentSound, RowsSound, StoredSound, ReplySound, InLog, Known, ActiveRow;
    hide ReceiptsSound, Acts, Committed, LogSound, HasReceipt, PendingSound, Effective;
    var t := Next(s, Commit);
    var edit := s.job.edit;
    if Committed(s.node, edit).Ok? {
      CommitFacts(s.node, edit);
      RemoteNodeRuns.PastGrows(s.node, t.node, s.past);
      assert HasApplied(t.node.remote.receipts, edit.requestId);
      ActedKept(s, t, edit, Applied);
    } else {
      QuietKept(s, t);
    }
  }

  /** A job that ends without committing rewrites only its own receipt. */
  lemma EndNet(s: Sys, e: Event)
    requires NodeSound(s) && NetSound(s) && Enabled(s, e) && (e.GiveUp? || e.StorageDone? || e.StorageGiveUp?)
    ensures NetSound(Next(s, e))
  {
    hide AllTrue, SentSound, RowsSound, StoredSound, ReplySound, InLog, Known, ActiveRow;
    hide ReceiptsSound, Acts, Failed, FinishAfter, LogSound, HasReceipt, PendingSound;
    var t := Next(s, e);
    var edit := s.job.edit;
    KnownExpected(s, edit);
    if e.GiveUp? {
      FailFacts(s.node, edit);
      RemoteNodeRuns.PastGrows(s.node, t.node, s.past);
      ActedKept(s, t, edit, Rejected);
    } else if e.StorageGiveUp? {
      FinishFacts(s.node, edit, Rejected, None);
      RemoteNodeRuns.PastGrows(s.node, t.node, s.past);
      ActedKept(s, t, edit, Rejected);
    } else {
      DoneNet(s, e);
    }
  }

  lemma DoneNet(s: Sys, e: Event)
    requires NodeSound(s) && NetSound(s) && Enabled(s, e) && e.StorageDone?
    ensures NetSound(Next(s, e))
  {
    hide AllTrue, SentSound, RowsSound, StoredSound, ReplySound, InLog, Known, ActiveRow;
    hide ReceiptsSound, Acts, FinishAfter, LogSound, HasReceipt, PendingSound;
    var t := Next(s, e);
    var edit := s.job.edit;
    KnownExpected(s, edit);
    if StorageFinished(s.node, edit, e.result).Ok? {
      var status := if e.result.Some? then Reviewed else Applied;
      FinishFacts(s.node, edit, status, e.result);
      RemoteNodeRuns.PastGrows(s.node, t.node, s.past);
      ActedKept(s, t, edit, status);
    }
  }

  lemma StorageNet(s: Sys, e: Event)
    requires NodeSound(s) && NetSound(s) && Enabled(s, e) && (e.StorageStep? || e.StoragePause?)
    ensures NetSound(Next(s, e))
  {
    hide AllTrue, SentSound, RowsSound, StoredSound, ReplySound, InLog, Known, ActiveRow;
    hide ReceiptsSound, Acts, StorageWritten, LogSound, HasReceipt, PendingSound;
    var t := Next(s, e);
    var edit := s.job.edit;
    KnownExpected(s, edit);
    if e.StoragePause? {
      RemoteNodeRuns.PastGrows(s.node, t.node, s.past);
      QuietKept(s, t);
    } else if StorageWritten(s.node, edit, e.storage).Ok? {
      StorageFacts(s.node, edit, e.storage);
      RemoteNodeRuns.PastGrows(s.node, t.node, s.past);
      ActedKept(s, t, edit, Pending);
    }
  }

  lemma RecoverNet(s: Sys)
    requires NodeSound(s) && NetSound(s) && Enabled(s, Recover)
    ensures NetSound(Next(s, Recover))
  {
    hide AllTrue, SentSound, RowsSound, StoredSound, ReplySound, InLog, Known, ActiveRow;
    hide ReceiptsSound, Acts, Recovered, LogSound, HasReceipt, PendingSound;
    var t := Next(s, Recover);
    RecoverFacts(s.node);
    RemoteNodeRuns.PastGrows(s.node, t.node, s.past);
    if s.node.remote.pending.None? || t.node.remote.pending.Some? {
      QuietKept(s, t);
    } else {
      var edit := s.node.remote.pending.value;
      ActiveKnown(s.rows, edit);
      KnownExpected(s, edit);
      ActedKept(s, t, edit, Rejected);
    }
  }

  lemma ResizeNet(s: Sys, e: Event)
    requires NodeSound(s) && NetSound(s) && Enabled(s, e) && (e.Resize? || e.Interrupt?)
    ensures NetSound(Next(s, e))
  {
    hide AllTrue, SentSound, RowsSound, StoredSound, ReplySound, InLog, Known, ActiveRow;
    hide NodeReceipts, PendingSound, PastSound, LogSound;
    QuietKept(s, Next(s, e));
  }
}
