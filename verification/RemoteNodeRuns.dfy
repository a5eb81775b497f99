/** The node's own invariant over every event: authority, revisions and the log of committed edits. */
module RemoteNodeRuns {
  import opened Outcomes
  import opened RemoteModel
  import opened RemoteController
  import opened RemoteSystem
  import opened RemoteWrites
  import opened RemoteInvariant

  /** A write never rewrites what an earlier revision stood for. */
  lemma PastGrows(c: Config, d: Config, past: map<nat, Saved>)
    requires PastSound(c, past) && Advances(c, d)
    ensures PastSound(d, past[d.revision := d.saved])
    ensures forall k <- past :: past[d.revision := d.saved][k] == past[k]
  {
  }

  lemma LogKept(log: seq<Entry>, past: map<nat, Saved>, revision: nat, past': map<nat, Saved>, revision': nat)
    requires LogSound(log, past, revision) && revision <= revision'
    requires forall k <- past :: k in past' && past'[k] == past[k]
    ensures LogSound(log, past', revision')
  {
  }

  lemma LogGrows(log: seq<Entry>, e: Entry, past: map<nat, Saved>, revision: nat)
    requires LogSound(log, past, revision) && EntrySound(e, past, revision)
    requires forall x <- log :: x.to <= e.at
    ensures LogSound(log + [e], past, revision)
  {
  }

  /** Every saved write keeps the history sound. */
  lemma SavesKeep(s: Sys, d: Config)
    requires PastSound(s.node, s.past) && LogSound(s.log, s.past, s.node.revision) && Advances(s.node, d)
    ensures PastSound(d, Saves(s, d).past) && LogSound(s.log, Saves(s, d).past, d.revision)
    ensures forall k <- s.past :: k in Saves(s, d).past && Saves(s, d).past[k] == s.past[k]
  {
    hide EntrySound;
    PastGrows(s.node, d, s.past);
    LogKept(s.log, s.past, s.node.revision, Saves(s, d).past, d.revision);
  }

  lemma ActsKeepsIds(a: seq<Receipt>, b: seq<Receipt>, id: string, status: ReceiptStatus, revision: nat)
    requires Acts(a, b, id, status, revision)
    ensures SameIds(a, b)
  {
    forall x
      ensures HasReceipt(a, x) <==> HasReceipt(b, x)
    {
      if HasReceipt(a, x) && x != id {
        var r :| r in a && r.requestId == x;
        assert r in b;
      }
      if HasReceipt(b, x) && x != id {
        var r :| r in b && r.requestId == x;
        assert r in a;
      }
    }
  }

  lemma OwnerKept(s: Sys, e: Event)
    requires NodeSound(s) && e.Owner?
    ensures NodeSound(Next(s, e))
  {
    hide ReceiptsSound, Acts, OwnerUpdated, PastSound, LogSound, HasReceipt;
    var c := OwnerUpdated(s.node, e.change);
    if c.Ok? {
      OwnerFacts(s.node, e.change);
      SavesKeep(s, c.value);
      ActsKeepsIds(s.node.remote.receipts, c.value.remote.receipts, PendingId(s.node), Rejected, c.value.revision);
    }
  }

  lemma ClaimKept(s: Sys, e: Event)
    requires NodeSound(s) && e.Claim? && Enabled(s, e)
    ensures NodeSound(Next(s, e))
  {
    hide ReceiptsSound, Acts, Claimed, PastSound, LogSound, HasReceipt;
    var edit := s.node.remote.pending.value;
    PendingHas(s.node.remote.receipts, s.node.remote.pending, s.node.revision);
    var c := Claimed(s.node, edit, e.allowed);
    if c.Ok? {
      ClaimFacts(s.node, edit, e.allowed);
      SavesKeep(s, c.value);
    }
  }

  lemma CommitKept(s: Sys)
    requires NodeSound(s) && s.job.Ready?
    ensures NodeSound(Next(s, Commit))
  {
    hide ReceiptsSound, Acts, Committed, PastSound, LogSound, HasReceipt, Effective;
    var c := Committed(s.node, s.job.edit);
    if c.Ok? {
      CommitFacts(s.node, s.job.edit);
      SavesKeep(s, c.value);
      CommitLogged(s, c.value);
    }
  }

  lemma CommitLogged(s: Sys, d: Config)
    requires s.job.Ready? && s.job.edit.operation.None? && s.node.saved.consent
    requires s.node.revision == s.job.edit.expectedRevision
    requires d.saved == s.node.saved.(policy := s.job.edit.policy)
    requires d.revision == s.node.revision + (if s.node.saved.policy != s.job.edit.policy then 1 else 0)
    requires PastSound(s.node, s.past) && LogSound(s.log, s.past, s.node.revision)
    requires PastSound(d, Saves(s, d).past) && LogSound(s.log, Saves(s, d).past, d.revision)
    ensures LogSound(s.log + [Entry(s.job.edit, s.node.saved.policy, s.node.revision, d.revision)], Saves(s, d).past,
      d.revision)
  {
    LogGrows(s.log, Entry(s.job.edit, s.node.saved.policy, s.node.revision, d.revision), Saves(s, d).past, d.revision);
  }

  lemma GiveUpKept(s: Sys)
    requires NodeSound(s) && s.job.Broken?
    ensures NodeSound(Next(s, GiveUp))
  {
    hide ReceiptsSound, Acts, Failed, PastSound, LogSound, HasReceipt;
    FailFacts(s.node, s.job.edit);
    SavesKeep(s, Failed(s.node, s.job.edit));
  }

  lemma RecoverKept(s: Sys)
    requires NodeSound(s) && Enabled(s, Recover)
    ensures NodeSound(Next(s, Recover))
  {
    hide ReceiptsSound, Acts, PastSound, LogSound, HasReceipt, Recovered;
    RecoverFacts(s.node);
    SavesKeep(s, Recovered(s.node));
  }

  lemma StorageKept(s: Sys, e: Event)
    requires NodeSound(s) && Enabled(s, e) && (e.StorageStart? || e.StorageStep? || e.StoragePause?)
    ensures NodeSound(Next(s, e))
  {
    hide ReceiptsSound, Acts, PastSound, LogSound, StorageWritten, HasReceipt;
    PendingHas(s.node.remote.receipts, s.node.remote.pending, s.node.revision);
    match e
    case StorageStep(change) =>
      var c := StorageWritten(s.node, s.job.edit, change);
      if c.Ok? {
        StorageFacts(s.node, s.job.edit, change);
        SavesKeep(s, c.value);
        ActsKeepsIds(s.node.remote.receipts, c.value.remote.receipts, s.job.edit.requestId, Pending, c.value.revision);
      }
    case StoragePause => SavesKeep(s, StoragePaused(s.node, s.job.edit));
    case _ =>
  }

  lemma StorageEndKept(s: Sys, e: Event)
    requires NodeSound(s) && Enabled(s, e) && (e.StorageDone? || e.StorageGiveUp?)
    ensures NodeSound(Next(s, e))
  {
    hide ReceiptsSound, Acts, PastSound, LogSound, HasReceipt, FinishAfter;
    if e.StorageDone? {
      var status := if e.result.Some? then Reviewed else Applied;
      FinishFacts(s.node, s.job.edit, status, e.result);
      SavesKeep(s, FinishAfter(s.node, s.job.edit, status, e.result));
    } else {
      FinishFacts(s.node, s.job.edit, Rejected, None);
      SavesKeep(s, FinishAfter(s.node, s.job.edit, Rejected, None));
    }
  }

  lemma DeliverKept(s: Sys, allowed: bool)
    requires NodeSound(s) && Enabled(s, Deliver(allowed)) && s.node.remote.pending == None
    requires !HasReceipt(s.node.remote.receipts, s.reply.value.requestId)
    ensures NodeSound(Next(s, Deliver(allowed)))
  {
    hide ReceiptsSound, Acts, PastSound, LogSound, HasReceipt, Delivered;
    DeliverFacts(s.node, s.reply.value, allowed);
    SavesKeep(s, Delivered(s.node, s.reply.value, allowed));
  }

  /** Every event keeps the node sound; an issued edit must be one it has not seen while nothing is pending. */
  lemma NodeKept(s: Sys, e: Event)
    requires NodeSound(s) && Enabled(s, e)
    requires e.Deliver? ==>
      s.node.remote.pending == None && !HasReceipt(s.node.remote.receipts, s.reply.value.requestId)
    ensures NodeSound(Next(s, e))
  {
    match e
    case Owner(_) => OwnerKept(s, e);
    case Claim(_) => ClaimKept(s, e);
    case Commit => CommitKept(s);
    case GiveUp => GiveUpKept(s);
    case Recover => RecoverKept(s);
    case Deliver(allowed) => DeliverKept(s, allowed);
    case StorageDone(_) => StorageEndKept(s, e);
    case StorageGiveUp => StorageEndKept(s, e);
    case _ => QuietKept(s, e);
  }

  lemma QuietKept(s: Sys, e: Event)
    requires NodeSound(s) && Enabled(s, e)
    requires !e.Owner? && !e.Claim? && !e.Commit? && !e.GiveUp? && !e.Recover? && !e.Deliver? && !e.StorageDone?
    requires !e.StorageGiveUp?
    ensures NodeSound(Next(s, e))
  {
    hide ReceiptsSound, PastSound, LogSound, HasReceipt, Exchange, Requested, StorageWritten, StoragePaused, Authorized;
    if e.StorageStart? || e.StorageStep? || e.StoragePause? {
      StorageKept(s, e);
    }
  }

  // ------------------------------------------------------------------- the VM

  lemma VmOwner(s: Sys, e: Event)
    requires VmSound(s) && e.Owner? && Careful(s, e)
    ensures VmSound(Next(s, e))
  {
    hide OwnerUpdated;
    if OwnerUpdated(s.node, e.change).Ok? {
      OwnerAllocation(s.node, e.change);
    }
  }

  lemma VmStorage(s: Sys, e: Event)
    requires VmSound(s) && NodeSound(s) && Enabled(s, e)
    requires e.StorageStart? || e.StorageStep? || e.StoragePause? || e.StorageDone? || e.StorageGiveUp?
    ensures VmSound(Next(s, e))
  {
    hide ReceiptsSound, PastSound, LogSound, StorageWritten, FinishAfter, StoragePaused;
    match e
    case StorageStep(change) =>
      if StorageWritten(s.node, s.job.edit, change).Ok? {
        StorageFacts(s.node, s.job.edit, change);
      }
    case StoragePause => PauseAllocation(s.node, s.job.edit);
    case StorageDone(result) => FinishFacts(s.node, s.job.edit, if result.Some? then Reviewed else Applied, result);
    case StorageGiveUp => FinishFacts(s.node, s.job.edit, Rejected, None);
    case _ =>
  }

  lemma PauseAllocation(c: Config, edit: Edit)
    ensures
      var d := StoragePaused(c, edit);
      && d.saved == c.saved && d.machine == c.machine.(work := d.machine.work)
  {
  }

  lemma VmApply(s: Sys, e: Event)
    requires VmSound(s) && NodeSound(s) && Enabled(s, e)
    requires (e.Claim? || e.Commit? || e.GiveUp? || e.Recover? || e.Deliver?)
    requires e.Deliver? ==>
      s.node.remote.pending == None && !HasReceipt(s.node.remote.receipts, s.reply.value.requestId)
    ensures VmSound(Next(s, e))
  {
    hide ReceiptsSound, Acts, PastSound, LogSound, HasReceipt, Claimed, Committed, Failed, Recovered, Delivered;
    hide Effective;
    match e
    case Claim(allowed) =>
      if Claimed(s.node, s.node.remote.pending.value, allowed).Ok? {
        ClaimFacts(s.node, s.node.remote.pending.value, allowed);
      }
    case Commit =>
      if Committed(s.node, s.job.edit).Ok? {
        CommitFacts(s.node, s.job.edit);
      }
    case GiveUp => FailFacts(s.node, s.job.edit);
    case Recover => RecoverFacts(s.node);
    case Deliver(allowed) => DeliverFacts(s.node, s.reply.value, allowed);
  }

  /**
   No event leaves an allocation believed in effect that the hypervisor does not have, unless it
   asks for a replacement while a recorded allocation is unverified.
   */
  lemma VmKept(s: Sys, e: Event)
    requires VmSound(s) && NodeSound(s) && Enabled(s, e) && Careful(s, e)
    requires e.Deliver? ==>
      s.node.remote.pending == None && !HasReceipt(s.node.remote.receipts, s.reply.value.requestId)
    ensures VmSound(Next(s, e))
  {
    hide NodeSound, HasReceipt, Exchange, Requested;
    match e
    case Owner(_) => VmOwner(s, e);
    case StorageStart => VmStorage(s, e);
    case StorageStep(_) => VmStorage(s, e);
    case StoragePause => VmStorage(s, e);
    case StorageDone(_) => VmStorage(s, e);
    case StorageGiveUp => VmStorage(s, e);
    case Claim(_) => VmApply(s, e);
    case Commit => VmApply(s, e);
    case GiveUp => VmApply(s, e);
    case Recover => VmApply(s, e);
    case Deliver(_) => VmApply(s, e);
    case _ =>
  }
}
