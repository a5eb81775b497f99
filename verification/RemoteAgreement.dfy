/**
 What a node and its controller can rely on, in every state that owner changes, crashes,
 interrupted resizes and late, repeated or lost heartbeats can lead to.
 */
module RemoteAgreement {
  import opened Outcomes
  import opened RemoteModel
  import opened RemoteController
  import opened RemoteSystem
  import opened RemoteWrites
  import opened RemoteInvariant
  import RemoteNodeRuns
  import RemoteEvents
  import RemoteChannel
  import RemoteProcess
  import RemoteExchange

  // ----------------------------------------------------------- the invariant

  lemma NetKept(s: Sys, e: Event)
    requires NodeSound(s) && NetSound(s) && Enabled(s, e)
    ensures NetSound(Next(s, e))
  {
    hide NodeSound, NetSound, Exchange, Requested;
    match e
    case Owner(_) => RemoteEvents.OwnerNet(s, e);
    case Claim(_) => RemoteEvents.ClaimNet(s, e);
    case Resize(_, _) => RemoteEvents.ResizeNet(s, e);
    case Interrupt(_) => RemoteEvents.ResizeNet(s, e);
    case Commit => RemoteEvents.CommitNet(s);
    case GiveUp => RemoteEvents.EndNet(s, e);
    case StorageStart => RemoteEvents.ClaimNet(s, e);
    case StorageStep(_) => RemoteEvents.StorageNet(s, e);
    case StoragePause => RemoteEvents.StorageNet(s, e);
    case StorageDone(_) => RemoteEvents.EndNet(s, e);
    case StorageGiveUp => RemoteEvents.EndNet(s, e);
    case Crash => RemoteChannel.ForgetNet(s, e);
    case Recover => RemoteEvents.RecoverNet(s);
    case Send => RemoteChannel.SendNet(s);
    case Process(i) => RemoteProcess.ProcessNet(s, i);
    case Deliver(allowed) => RemoteChannel.DeliverNet(s, allowed);
    case Lose => RemoteChannel.ForgetNet(s, e);
    case Ask(edit, usable) => RemoteChannel.AskNet(s, edit, usable);
  }

  lemma SoundKept(s: Sys, e: Event)
    requires Sound(s) && Enabled(s, e)
    ensures Sound(Next(s, e))
  {
    hide NodeSound, NetSound, HasReceipt, InLog;
    if e.Deliver? {
      RemoteChannel.NothingPending(s);
    }
    RemoteNodeRuns.NodeKept(s, e);
    NetKept(s, e);
  }

  lemma SoundInitially(s: Sys)
    requires Initial(s)
    ensures Sound(s)
  {
    assert s.node.remote.receipts == [];
  }

  /** Whatever happens, every state is sound. */
  lemma {:induction false} SoundAlways(s0: Sys, events: seq<Event>, s: Sys)
    requires Sound(s0) && Reachable(s0, events, s)
    ensures Sound(s)
    decreases |events|
  {
    hide Sound, Next, Enabled;
    if events != [] {
      var last := |events| - 1;
      var m :| Reachable(s0, events[..last], m) && Enabled(m, events[last]) && s == Next(m, events[last]);
      SoundAlways(s0, events[..last], m);
      SoundKept(m, events[last]);
    }
  }

  // ------------------------------------------------------- one row, for ever

  lemma {:induction false} SettledAcknowledge(rows: seq<Row>, receipts: seq<Receipt>, i: nat)
    requires Readable(receipts) && i < |rows| && !Active(rows[i])
    ensures |AcknowledgeAll(rows, receipts)| == |rows| && AcknowledgeAll(rows, receipts)[i] == rows[i]
  {
    if receipts != [] {
      SettledAcknowledge(rows, receipts[..|receipts| - 1], i);
    }
  }

  /** A terminal row never changes, and requests are only ever added after it. */
  lemma RowStep(s: Sys, e: Event, i: nat)
    requires Enabled(s, e) && i < |s.rows|
    ensures i < |Next(s, e).rows| && Next(s, e).rows[i].edit == s.rows[i].edit
    ensures !Active(s.rows[i]) ==> Next(s, e).rows[i] == s.rows[i]
  {
    hide Claimed, Committed, Failed, Recovered, Delivered, OwnerUpdated, StorageWritten, StorageFinished, Effective;
    match e
    case Process(j) =>
      var x := Exchange(s.rows, s.stored, s.sent[j]);
      if x.Ok? && Readable(s.sent[j].receipts) {
        RemoteExchange.EditsKept(s.rows, s.sent[j].receipts);
        if !Active(s.rows[i]) {
          SettledAcknowledge(s.rows, s.sent[j].receipts, i);
        }
      }
    case _ =>
  }

  lemma {:induction false} TerminalForever(s0: Sys, events: seq<Event>, s: Sys, i: nat)
    requires Reachable(s0, events, s) && i < |s0.rows|
    ensures i < |s.rows| && s.rows[i].edit == s0.rows[i].edit
    ensures !Active(s0.rows[i]) ==> s.rows[i] == s0.rows[i]
    decreases |events|
  {
    hide Next, Enabled;
    if events != [] {
      var last := |events| - 1;
      var m :| Reachable(s0, events[..last], m) && Enabled(m, events[last]) && s == Next(m, events[last]);
      TerminalForever(s0, events[..last], m, i);
      RowStep(m, events[last], i);
    }
  }

  lemma ToldTrue(s: Sys, row: Row)
    requires NetSound(s) && row in s.rows && Told(s.sent, row) && row.edit.operation == None
    ensures row.status == RowApplied ==> InLog(s.log, row.edit)
    ensures row.status == RowRejected || row.status == RowReviewed ==> !InLog(s.log, row.edit)
  {
    hide InLog, RowsSound, StoredSound, InPlay, ChannelSound, ReplySound, ReportSound;
    var h :| h in s.sent && Reports(h.receipts, row);
    var r :| r in h.receipts && r.requestId == row.edit.requestId && r.status != UnknownStatus &&
      StatusOf(r.status) == row.status;
    assert AllTrue(h.receipts, s);
    assert ReceiptTrue(r, s.rows, s.log, s.node.remote.pending);
    assert Tells(r, row.edit, s.log, s.node.remote.pending);
  }

  /** A settled policy edit is marked applied exactly when the node committed it. */
  lemma RowAgrees(s: Sys, row: Row)
    requires NetSound(s) && row in s.rows && !Active(row) && row.edit.operation == None
    ensures row.status == RowApplied <==> InLog(s.log, row.edit)
  {
    hide InLog, StoredSound, InPlay, ChannelSound, ReplySound, SentSound, Told, NetSound;
    assert RowSound(row, s) by { RowHere(s, row); }
    if !row.own {
      ToldTrue(s, row);
    }
  }

  lemma RowHere(s: Sys, row: Row)
    requires NetSound(s) && row in s.rows
    ensures RowSound(row, s)
  {
  }

  /**
   Agreement, for policy edits: once a row is settled it is applied exactly when the node has
   committed that edit, and however the run goes on this stays so. In particular an edit the
   controller rejected, by itself or on the node's word, was not applied and never will be.
   */
  lemma Agreement(s0: Sys, before: seq<Event>, s: Sys, after: seq<Event>, t: Sys, i: nat)
    requires Initial(s0) && Reachable(s0, before, s) && Reachable(s, after, t)
    requires i < |s.rows| && !Active(s.rows[i]) && s.rows[i].edit.operation == None
    ensures i < |t.rows| && t.rows[i] == s.rows[i]
    ensures s.rows[i].status == RowApplied <==> InLog(t.log, s.rows[i].edit)
  {
    hide NodeSound, NetSound, InLog, Initial, Reachable;
    SoundInitially(s0);
    SoundAlways(s0, before, s);
    SoundAlways(s, after, t);
    TerminalForever(s, after, t, i);
    RowAgrees(t, t.rows[i]);
  }

  // -------------------------------------------------------- authority, revisions

  /** A request is only ever carried out under consent and at the revision it was granted for. */
  lemma Authority(s0: Sys, events: seq<Event>, s: Sys)
    requires Initial(s0) && Reachable(s0, events, s) && s.node.remote.pending.Some?
    ensures s.node.saved.consent
    ensures s.node.remote.execution.Some? ==> s.node.revision == s.node.remote.execution.value
    ensures s.node.remote.execution.None? ==> s.node.revision == s.node.remote.pending.value.expectedRevision
    ensures s.node.remote.pending.value.operation.None? ==> s.node.remote.execution.None?
  {
    hide NetSound, Initial, Reachable, JobSound, PastSound, LogSound, ReceiptsSound;
    SoundInitially(s0);
    SoundAlways(s0, events, s);
  }

  /** One event advances the revision by nothing or by one, and by nothing only if nothing saved under it moved. */
  lemma RevisionStep(s: Sys, e: Event)
    requires Sound(s) && Enabled(s, e)
    ensures Advances(s.node, Next(s, e).node)
  {
    hide NetSound, ReceiptsSound, Acts, PastSound, LogSound, HasReceipt, InLog, Authorized, Requested;
    hide Exchange;
    hide OwnerUpdated, Claimed, Committed, Failed, Recovered, Delivered, StorageWritten, FinishAfter, StoragePaused;
    if e.Deliver? {
      RemoteChannel.NothingPending(s);
    }
    match e
    case Owner(change) =>
      if OwnerUpdated(s.node, change).Ok? { OwnerFacts(s.node, change); }
    case Claim(allowed) =>
      if Claimed(s.node, s.node.remote.pending.value,
        allowed).Ok? { ClaimFacts(s.node, s.node.remote.pending.value, allowed); }
    case Commit =>
      if Committed(s.node, s.job.edit).Ok? { CommitFacts(s.node, s.job.edit); }
    case GiveUp => FailFacts(s.node, s.job.edit);
    case Recover => RecoverFacts(s.node);
    case Deliver(allowed) => DeliverFacts(s.node, s.reply.value, allowed);
    case StorageStep(change) =>
      if StorageWritten(s.node, s.job.edit, change).Ok? { StorageFacts(s.node, s.job.edit, change); }
    case StoragePause => RemoteNodeRuns.PauseAllocation(s.node, s.job.edit); PauseRevision(s.node, s.job.edit);
    case StorageDone(result) => FinishFacts(s.node, s.job.edit, if result.Some? then Reviewed else Applied, result);
    case StorageGiveUp => FinishFacts(s.node, s.job.edit, Rejected, None);
    case _ =>
  }

  lemma PauseRevision(c: Config, edit: Edit)
    ensures StoragePaused(c, edit).revision == c.revision
  {
  }

  lemma {:induction false} RevisionsGrow(s0: Sys, events: seq<Event>, s: Sys)
    requires Sound(s0) && Reachable(s0, events, s)
    ensures s0.node.revision <= s.node.revision
    ensures s0.node.revision == s.node.revision ==> s0.node.saved == s.node.saved
    decreases |events|
  {
    hide Sound, Next, Enabled;
    if events != [] {
      var last := |events| - 1;
      var m :| Reachable(s0, events[..last], m) && Enabled(m, events[last]) && s == Next(m, events[last]);
      RevisionsGrow(s0, events[..last], m);
      SoundAlways(s0, events[..last], m);
      RevisionStep(m, events[last]);
    }
  }

  /** Two moments of one run with the same revision have the same policy, consent and storage choices. */
  lemma EqualRevisions(s0: Sys, before: seq<Event>, s: Sys, after: seq<Event>, t: Sys)
    requires Initial(s0) && Reachable(s0, before, s) && Reachable(s, after, t)
    requires s.node.revision == t.node.revision
    ensures s.node.saved == t.node.saved
  {
    hide Sound, Initial, Reachable;
    SoundInitially(s0);
    SoundAlways(s0, before, s);
    RevisionsGrow(s, after, t);
  }

  // --------------------------------------------------------- compare and swap

  ghost predicate Distinct(log: seq<Entry>) {
    forall i, k :: 0 <= i < k < |log| ==> log[i].edit != log[k].edit
  }

  lemma LogStep(s: Sys, e: Event)
    requires Sound(s) && Enabled(s, e)
    ensures Next(s, e).log == s.log ||
      (e.Commit? && |Next(s, e).log| == |s.log| + 1 && Next(s, e).log[..|s.log|] == s.log)
    ensures Next(s, e).log != s.log ==>
      var x := Next(s, e).log[|s.log|];
      x == Entry(s.job.edit, s.node.saved.policy, s.node.revision, Next(s, e).node.revision) &&
      !InLog(s.log, x.edit) && s.node.remote.pending == Some(x.edit) && s.node.revision == x.edit.expectedRevision &&
      Next(s, e).node.saved.policy == x.edit.policy
  {
    hide NetSound, NodeSound, InLog, Requested, Exchange;
    hide OwnerUpdated, Claimed, Committed, Failed, Recovered, Delivered, StorageWritten, FinishAfter, StoragePaused;
    if e.Commit? {
      assert !InLog(s.log, s.job.edit) by { NotLogged(s); }
      if Committed(s.node, s.job.edit).Ok? {
        assert NodeReceipts(s.node) by { Receipts(s); }
        CommitFacts(s.node, s.job.edit);
      }
    }
  }

  lemma NotLogged(s: Sys)
    requires NetSound(s) && !s.job.NoJob?
    ensures !InLog(s.log, s.job.edit)
  {
  }

  lemma Receipts(s: Sys)
    requires NodeSound(s)
    ensures NodeReceipts(s.node)
  {
  }

  lemma {:induction false} DistinctAlways(s0: Sys, events: seq<Event>, s: Sys)
    requires Initial(s0) && Reachable(s0, events, s)
    ensures Distinct(s.log)
    decreases |events|
  {
    hide Sound, Next, Enabled;
    if events != [] {
      var last := |events| - 1;
      var m :| Reachable(s0, events[..last], m) && Enabled(m, events[last]) && s == Next(m, events[last]);
      DistinctAlways(s0, events[..last], m);
      SoundInitially(s0);
      SoundAlways(s0, events[..last], m);
      LogStep(m, events[last]);
      if s.log != m.log {
        assert s.log == m.log + [s.log[|m.log|]];
        assert forall i :: 0 <= i < |m.log| ==> m.log[i] in m.log;
      }
    }
  }

  /**
   Compare and swap: a committed policy edit replaced exactly the policy that its own expected
   revision stood for. At most once: no edit is committed twice, and of the edits that change
   the policy no two were made for the same revision, however many receipts were forgotten.
   */
  lemma CompareAndSwap(s0: Sys, events: seq<Event>, s: Sys)
    requires Initial(s0) && Reachable(s0, events, s)
    ensures forall e <- s.log ::
      e.at == e.edit.expectedRevision && e.at in s.past && s.past[e.at].policy == e.from && s.past[e.at].consent
    ensures forall e <- s.log ::
      e.to == e.at + (if e.from != e.edit.policy then 1 else 0) && e.to in s.past &&
        s.past[e.to].policy == e.edit.policy
    ensures Distinct(s.log)
    ensures forall i, k :: 0 <= i < k < |s.log| && s.log[i].from != s.log[i].edit.policy ==>
      s.log[i].edit.expectedRevision < s.log[k].edit.expectedRevision
  {
    hide NetSound, Initial, Reachable, JobSound, PastSound, ReceiptsSound, PendingSound, Distinct;
    SoundInitially(s0);
    SoundAlways(s0, events, s);
    DistinctAlways(s0, events, s);
    forall i, k | 0 <= i < k < |s.log| && s.log[i].from != s.log[i].edit.policy
      ensures s.log[i].edit.expectedRevision < s.log[k].edit.expectedRevision
    {
      assert EntrySound(s.log[i], s.past, s.node.revision) && EntrySound(s.log[k], s.past, s.node.revision);
    }
  }

  // ------------------------------------------------------- all or unverified

  lemma {:induction false} CarefulReaches(s0: Sys, events: seq<Event>, s: Sys)
    requires CarefulRun(s0, events, s)
    ensures Reachable(s0, events, s)
    decreases |events|
  {
    hide Next, Enabled, Careful;
    if events != [] {
      var last := |events| - 1;
      var m :| CarefulRun(s0, events[..last], m) && Enabled(m, events[last]) && Careful(m, events[last]) &&
        s == Next(m, events[last]);
      CarefulReaches(s0, events[..last], m);
    }
  }

  lemma {:induction false} VmAlways(s0: Sys, events: seq<Event>, s: Sys)
    requires Initial(s0) && CarefulRun(s0, events, s)
    ensures VmSound(s)
    decreases |events|
  {
    hide Sound, NetSound, NodeSound, Next, Careful, HasReceipt;
    if events != [] {
      var last := |events| - 1;
      var m :| CarefulRun(s0, events[..last], m) && Enabled(m, events[last]) && Careful(m, events[last]) &&
        s == Next(m, events[last]);
      VmAlways(s0, events[..last], m);
      CarefulReaches(s0, events[..last], m);
      SoundInitially(s0);
      SoundAlways(s0, events[..last], m);
      SoundParts(m);
      if events[last].Deliver? {
        RemoteChannel.NothingPending(m);
      }
      RemoteNodeRuns.VmKept(m, events[last]);
    }
  }

  lemma SoundParts(s: Sys)
    requires Sound(s)
    ensures NodeSound(s) && NetSound(s)
  {
  }

  /** No allocation is reported as in effect that the VM does not have. */
  ghost predicate Honest(s: Sys) {
    s.node.machine.created && Effective(s.node.machine).Some? ==> s.vm == Effective(s.node.machine).value
  }

  /**
   An allocation reported as in effect is the one the VM has, if no replacement was granted while a
   recorded allocation was unverified.
   */
  lemma EffectiveIsReal(s0: Sys, events: seq<Event>, s: Sys)
    requires Initial(s0) && CarefulRun(s0, events, s)
    ensures Honest(s)
  {
    hide Initial, CarefulRun;
    VmAlways(s0, events, s);
  }

  // ------------------------------------------ a replacement under an unverified allocation

  /** A request for a replacement that changes nothing else. */
  function Replace(c: Config): OwnerChange {
    OwnerChange(c.saved, false, c.machine.busy, c.machine.work, c.machine.storageDown, true)
  }

  /**
   The exception is needed: while a resize is under way a replacement clears the mark but keeps
   the old figure, which the node then reports whatever the resize leaves behind.
   */
  lemma LostMark(s: Sys, vm: Resources)
    requires s.job.Resizing? && !s.node.saved.recreation && s.node.revision + 1 < U64
    requires s.node.machine.created && s.node.machine.allocation.Some? && s.node.machine.allocation != Some(vm)
    requires s.node.machine.work == NoWork && !s.node.machine.storageDown
    ensures Enabled(s, Owner(Replace(s.node)))
    ensures
      var asked := Next(s, Owner(Replace(s.node)));
      && (Careful(s, Owner(Replace(s.node))) <==> !Unsettled(s.node.machine))
      && Enabled(asked, Interrupt(vm)) && !Honest(Next(asked, Interrupt(vm)))
      && (vm == s.job.edit.policy.resources ==>
        Enabled(asked, Resize(vm, true)) && !Honest(Next(asked, Resize(vm, true))))
  {
    hide Record, CancelReceipt;
    OwnerMachineFacts(s.node, Replace(s.node));
  }

  ghost predicate Receipted(receipts: seq<Receipt>, id: string, status: ReceiptStatus, revision: nat) {
    exists r <- receipts :: r.requestId == id && r.status == status && r.revision == revision
  }

  /** Everything of the edit was saved in one write, and it is what the VM is believed to have. */
  ghost predicate AppliedWhole(s: Sys, t: Sys, edit: Edit) {
    && t.log == s.log + [Entry(edit, s.node.saved.policy, s.node.revision, t.node.revision)]
    && t.node.saved == s.node.saved.(policy := edit.policy)
    && (t.node.machine.created ==>
      t.node.machine.allocation == Some(edit.policy.resources) && !t.node.machine.repairRequired)
    && Receipted(t.node.remote.receipts, edit.requestId, Applied, t.node.revision)
  }

  /** Nothing of the edit was saved: the policy is the one before, or the owner's own. */
  ghost predicate RejectedWhole(s: Sys, t: Sys, e: Event, edit: Edit) {
    && t.log == s.log
    && (t.node.saved == s.node.saved ||
      (e.Owner? && t.node.saved == e.change.saved.(recreation := t.node.saved.recreation)))
    && Receipted(t.node.remote.receipts, edit.requestId, Rejected, t.node.revision)
  }

  /** A receipt that is no longer pending was rewritten to the status of the write. */
  lemma ActsStatus(a: seq<Receipt>, b: seq<Receipt>, edit: Edit, status: ReceiptStatus, before: nat, revision: nat)
    requires ReceiptsSound(a, Some(edit), before) && ReceiptsSound(b, None, revision)
    requires Acts(a, b, edit.requestId, status, revision)
    ensures Receipted(b, edit.requestId, status, revision)
  {
    var p :| p in a && p.requestId == edit.requestId && p.status == Pending;
    var r :| r in b && r.requestId == edit.requestId;
    if r in a {
      SamePending(a, p, r);
    }
  }

  lemma SamePending(a: seq<Receipt>, p: Receipt, r: Receipt)
    requires UniqueReceipts(a) && p in a && r in a && p.requestId == r.requestId
    ensures p == r
  {
  }

  /**
   All or unverified: whichever event ends a pending policy edit — its commit, a failure, the
   recovery after a crash, the owner — either all of it is saved at once, or none of it is. If no
   replacement was granted while a recorded allocation was unverified, an applied edit is what the
   VM has, and no allocation is reported that it does not have.
   */
  lemma Resolved(s0: Sys, events: seq<Event>, s: Sys, e: Event, edit: Edit)
    requires Initial(s0) && Reachable(s0, events, s) && Enabled(s, e)
    requires s.node.remote.pending == Some(edit) && edit.operation == None
    requires Next(s, e).node.remote.pending != Some(edit)
    ensures Next(s, e).node.remote.pending == None
    ensures AppliedWhole(s, Next(s, e), edit) || RejectedWhole(s, Next(s, e), e, edit)
    ensures CarefulRun(s0, events, s) && Careful(s, e) ==>
      && Honest(Next(s, e))
      && (AppliedWhole(s, Next(s, e), edit) && Next(s, e).node.machine.created ==>
        Next(s, e).vm == edit.policy.resources)
  {
    SoundInitially(s0) by {
      hide Sound, NetSound, NodeSound;
    }
    SoundAlways(s0, events, s) by {
      hide Sound, Initial, Reachable, Next;
    }
    hide Initial, Reachable, CarefulRun, Next, AppliedWhole, RejectedWhole, Sound, NetSound, NodeSound, Careful,
      HasReceipt;
    SoundKept(s, e);
    ResolvedStep(s, e, edit);
    if CarefulRun(s0, events, s) && Careful(s, e) {
      VmAlways(s0, events, s);
      ResolvedHonest(s, e, edit);
    }
  }

  lemma ResolvedHonest(s: Sys, e: Event, edit: Edit)
    requires Sound(s) && VmSound(s) && Enabled(s, e) && Careful(s, e)
    ensures Honest(Next(s, e))
    ensures AppliedWhole(s, Next(s, e), edit) && Next(s, e).node.machine.created ==>
      Next(s, e).vm == edit.policy.resources
  {
    hide NetSound, NodeSound, Next, Careful, HasReceipt, Receipted;
    if e.Deliver? {
      RemoteChannel.NothingPending(s);
    }
    RemoteNodeRuns.VmKept(s, e);
  }

  lemma ResolvedStep(s: Sys, e: Event, edit: Edit)
    requires Sound(s) && Enabled(s, e) && Sound(Next(s, e))
    requires s.node.remote.pending == Some(edit) && edit.operation == None
    requires Next(s, e).node.remote.pending != Some(edit)
    ensures Next(s, e).node.remote.pending == None
    ensures AppliedWhole(s, Next(s, e), edit) || RejectedWhole(s, Next(s, e), e, edit)
  {
    hide NetSound, NodeSound, AppliedWhole, RejectedWhole, Exchange, Requested;
    hide OwnerUpdated, Claimed, Committed, Failed, Recovered, StorageWritten, FinishAfter, StoragePaused, Delivered;
    if e.Owner? {
      ResolvedByOwner(s, e, edit);
    } else if e.Commit? {
      ResolvedByCommit(s, edit);
    } else if e.GiveUp? {
      ResolvedByFailure(s, edit);
    } else if e.Recover? {
      ResolvedByRecovery(s, edit);
    } else {
      NotResolved(s, e, edit);
    }
  }

  lemma ResolvedByOwner(s: Sys, e: Event, edit: Edit)
    requires Sound(s) && e.Owner? && Sound(Next(s, e))
    requires s.node.remote.pending == Some(edit) && edit.operation == None
    requires Next(s, e).node.remote.pending != Some(edit)
    ensures Next(s, e).node.remote.pending == None && RejectedWhole(s, Next(s, e), e, edit)
  {
    hide NetSound, JobSound, PastSound, LogSound, PendingSound, Acts, ReceiptsSound, OwnerUpdated, OwnerMachine;
    OwnerFacts(s.node, e.change);
    OwnerMachineFacts(s.node, e.change);
    var t := Next(s, e);
    ActsStatus(s.node.remote.receipts, t.node.remote.receipts, edit, Rejected, s.node.revision, t.node.revision);
  }

  lemma ResolvedByCommit(s: Sys, edit: Edit)
    requires Sound(s) && s.job.Ready? && Sound(Next(s, Commit))
    requires s.node.remote.pending == Some(edit) && edit.operation == None
    requires Next(s, Commit).node.remote.pending != Some(edit)
    ensures Next(s, Commit).node.remote.pending == None && AppliedWhole(s, Next(s, Commit), edit)
  {
    hide NetSound, PastSound, LogSound, PendingSound, Acts, ReceiptsSound, Committed, Effective;
    CommitFacts(s.node, edit);
  }

  lemma ResolvedByFailure(s: Sys, edit: Edit)
    requires Sound(s) && s.job.Broken? && Sound(Next(s, GiveUp))
    requires s.node.remote.pending == Some(edit) && edit.operation == None
    ensures Next(s, GiveUp).node.remote.pending == None && RejectedWhole(s, Next(s, GiveUp), GiveUp, edit)
  {
    hide NetSound, PastSound, LogSound, PendingSound, Acts, ReceiptsSound, Failed, HasReceipt;
    FailFacts(s.node, edit);
    ActsStatus(s.node.remote.receipts, Failed(s.node, edit).remote.receipts, edit, Rejected, s.node.revision,
      s.node.revision);
  }

  lemma ResolvedByRecovery(s: Sys, edit: Edit)
    requires Sound(s) && Enabled(s, Recover) && Sound(Next(s, Recover))
    requires s.node.remote.pending == Some(edit) && edit.operation == None
    requires Next(s, Recover).node.remote.pending != Some(edit)
    ensures Next(s, Recover).node.remote.pending == None && RejectedWhole(s, Next(s, Recover), Recover, edit)
  {
    hide NetSound, PastSound, LogSound, PendingSound, Acts, ReceiptsSound, Recovered;
    RecoverFacts(s.node);
    ActsStatus(s.node.remote.receipts, Recovered(s.node).remote.receipts, edit, Rejected, s.node.revision,
      s.node.revision);
  }

  /** Nothing else takes a pending policy edit away. */
  lemma NotResolved(s: Sys, e: Event, edit: Edit)
    requires Sound(s) && Enabled(s, e) && !e.Owner? && !e.Commit? && !e.GiveUp? && !e.Recover?
    requires s.node.remote.pending == Some(edit) && edit.operation == None
    ensures Next(s, e).node.remote.pending == Some(edit)
  {
    hide NetSound, PastSound, LogSound, PendingSound, ReceiptsSound, Claimed, Delivered, Exchange, Requested;
    hide HasReceipt;
    if e.Deliver? {
      RemoteChannel.NothingPending(s);
    } else if e.Claim? && Claimed(s.node, edit, e.allowed).Ok? {
      ClaimFacts(s.node, edit, e.allowed);
    }
  }
}
