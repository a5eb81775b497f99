/**
 Exactly when a replacement may be asked for. A node whose recorded allocation is unverified cannot
 tell what the VM has: whatever that is, some run leads to the same settings. So the mark it would
 clear is the only thing that keeps its report true.
 */
module RemoteGuard {
  import opened Outcomes
  import opened RemoteModel
  import opened RemoteController
  import opened RemoteSystem
  import opened RemoteWrites
  import opened RemoteInvariant
  import opened RemoteAgreement

  lemma ExtendCareful(s0: Sys, events: seq<Event>, m: Sys, e: Event)
    requires CarefulRun(s0, events, m) && Enabled(m, e) && Careful(m, e)
    ensures CarefulRun(s0, events + [e], Next(m, e))
  {
    hide Enabled, Next, Careful;
    assert (events + [e])[..|events|] == events;
  }

  // --------------------------------------------------------------- twin states

  /** The same but for the VM, and for a resize that has failed in one where it goes on in the other. */
  ghost predicate Twin(s: Sys, t: Sys) {
    && t == s.(vm := t.vm, job := t.job)
    && (t.job == s.job ||
        (t.job.Broken? && (s.job.Resizing? || s.job.Ready? || s.job.Broken?) && t.job.edit == s.job.edit))
  }

  /** Only a claim that touches the VM leaves a recorded allocation unverified. */
  lemma OnlyClaim(s: Sys, e: Event)
    requires Sound(s) && Enabled(s, e) && !Unsettled(s.node.machine) && Unsettled(Next(s, e).node.machine)
    ensures e.Claim? && Next(s, e).job.Resizing?
  {
    hide NetSound, PastSound, LogSound, PendingSound, ReceiptsSound, Acts, HasReceipt, Exchange, Requested, Effective;
    hide OwnerUpdated, Claimed, Committed, Failed, Recovered, Delivered, StorageWritten, FinishAfter, StoragePaused;
    if e.Deliver? {
      RemoteChannel.NothingPending(s);
    }
    match e
    case Owner(change) =>
      if OwnerUpdated(s.node, change).Ok? { OwnerAllocation(s.node, change); }
    case Claim(allowed) =>
    case Commit =>
      if Committed(s.node, s.job.edit).Ok? { CommitFacts(s.node, s.job.edit); }
    case GiveUp => FailFacts(s.node, s.job.edit);
    case Recover => RecoverFacts(s.node);
    case Deliver(allowed) => DeliverFacts(s.node, s.reply.value, allowed);
    case StorageStep(change) =>
      if StorageWritten(s.node, s.job.edit, change).Ok? { StorageFacts(s.node, s.job.edit, change); }
    case StoragePause => RemoteNodeRuns.PauseAllocation(s.node, s.job.edit);
    case StorageDone(result) =>
      if StorageFinished(s.node, s.job.edit, result).Ok? {
        FinishFacts(s.node, s.job.edit, if result.Some? then Reviewed else Applied, result);
      }
    case StorageGiveUp => FinishFacts(s.node, s.job.edit, Rejected, None);
    case _ =>
  }

  /** Neither a commit that is saved nor giving up leaves an allocation unverified. */
  lemma Settles(s: Sys, e: Event)
    requires Enabled(s, e) && (e.Commit? || e.GiveUp?) && Unsettled(Next(s, e).node.machine)
    ensures e.Commit? && Next(s, e) == s.(job := Broken(s.job.edit))
  {
    hide Record, Effective;
  }

  /** Any event that is not the resize's own happens to both twins alike. */
  lemma TwinMoves(s: Sys, t: Sys, e: Event)
    requires Twin(s, t) && Enabled(s, e) && !e.Resize? && !e.Interrupt? && !e.Commit? && !e.GiveUp?
    ensures Enabled(t, e) && Twin(Next(s, e), Next(t, e)) && Next(t, e).vm == t.vm && (Careful(t, e) <==> Careful(s, e))
  {
    hide OwnerUpdated, Claimed, Recovered, Delivered, StorageWritten, StorageFinished, StorageFailed, StoragePaused;
    hide Exchange, Requested, ReportOf;
  }

  /** One event of a run, while the allocation stays unverified, followed by its twin. */
  lemma TwinStep(r0: Sys, run: seq<Event>, t: Sys, s: Sys, e: Event) returns (more: seq<Event>, u: Sys)
    requires CarefulRun(r0, run, t) && Twin(s, t) && Enabled(s, e) && Careful(s, e)
    requires Unsettled(s.node.machine) && Unsettled(Next(s, e).node.machine)
    ensures CarefulRun(r0, more, u) && Twin(Next(s, e), u) && u.vm == t.vm
  {
    hide CarefulRun;
    more, u := run, t;
    if e.Resize? || e.Interrupt? {
      if t.job.Resizing? {
        ExtendCareful(r0, run, t, Interrupt(t.vm));
        more, u := run + [Interrupt(t.vm)], Next(t, Interrupt(t.vm));
      }
    } else if e.Commit? || e.GiveUp? {
      Settles(s, e);
      if t.job.Ready? {
        hide Committed;
        ExtendCareful(r0, run, t, Commit);
        more, u := run + [Commit], Next(t, Commit);
      }
    } else {
      TwinMoves(s, t, e);
      ExtendCareful(r0, run, t, e);
      more, u := run + [e], Next(t, e);
    }
  }

  /**
   While a recorded allocation is unverified the node cannot tell what the VM has: for whatever
   allocation, some run leads to the same node with that one.
   */
  lemma {:induction false} AnyVm(s0: Sys, events: seq<Event>, s: Sys, vm: Resources)
    returns (r0: Sys, run: seq<Event>, t: Sys)
    requires Initial(s0) && CarefulRun(s0, events, s) && Unsettled(s.node.machine)
    ensures Initial(r0) && CarefulRun(r0, run, t) && Twin(s, t) && t.vm == vm
    decreases |events|
  {
    hide Next, Enabled, Careful, Sound;
    if events == [] {
      r0, run, t := s0.(vm := vm), [], s0.(vm := vm);
    } else {
      var last := |events| - 1;
      var m :| CarefulRun(s0, events[..last], m) && Enabled(m, events[last]) && Careful(m, events[last]) &&
        s == Next(m, events[last]);
      if Unsettled(m.node.machine) {
        var run0, t0;
        r0, run0, t0 := AnyVm(s0, events[..last], m, vm);
        run, t := TwinStep(r0, run0, t0, m, events[last]);
      } else {
        CarefulReaches(s0, events[..last], m);
        SoundInitially(s0);
        SoundAlways(s0, events[..last], m);
        OnlyClaim(m, events[last]);
        r0, run := s0, events + [Interrupt(vm)];
        t := Interrupted(s0, events, s, vm);
      }
    }
  }

  lemma Interrupted(s0: Sys, events: seq<Event>, s: Sys, vm: Resources) returns (t: Sys)
    requires CarefulRun(s0, events, s) && s.job.Resizing?
    ensures CarefulRun(s0, events + [Interrupt(vm)], t) && Twin(s, t) && t.vm == vm
  {
    hide CarefulRun;
    t := Next(s, Interrupt(vm));
    ExtendCareful(s0, events, s, Interrupt(vm));
  }

  // ------------------------------------------------------------ the exact guard

  /** Of any settings, reachable or not: a true belief survives the request exactly under the guard. */
  lemma GuardOfConfig(c: Config, o: OwnerChange, s0: Sys)
    requires o.recreate && OwnerUpdated(c, o).Ok?
    ensures (forall s: Sys :: s.node == c && Verified(s) ==> Verified(Next(s, Owner(o)))) <==> !Unsettled(c.machine)
    ensures o.work == NoWork && !o.storageDown ==>
      ((forall s: Sys :: s.node == c && Verified(s) ==> Honest(Next(s, Owner(o)))) <==> !Unsettled(c.machine))
  {
    hide OwnerUpdated, Next, Effective;
    forall s: Sys | s.node == c && Verified(s)
      ensures !Unsettled(c.machine) ==> Verified(Next(s, Owner(o)))
      ensures !Unsettled(c.machine) && o.work == NoWork && !o.storageDown ==> Honest(Next(s, Owner(o)))
    {
      GrantedClears(s, o);
    }
    if Unsettled(c.machine) {
      var had := c.machine.allocation.value;
      var s := s0.(node := c, vm := had.(cpus := had.cpus + 1));
      GrantedClears(s, o);
      assert Verified(s);
    }
  }

  /** Every state the node could be in, as far as it can tell. */
  ghost predicate Possible(t: Sys, c: Config) {
    t.node == c && exists r0, run :: Initial(r0) && CarefulRun(r0, run, t)
  }

  lemma GrantedClears(s: Sys, o: OwnerChange)
    requires o.recreate && OwnerUpdated(s.node, o).Ok?
    ensures
      var d := Next(s, Owner(o));
      && d.vm == s.vm && d.node.machine.created == s.node.machine.created && !d.node.machine.repairRequired
      && d.node.machine.allocation == s.node.machine.allocation
      && (o.work == NoWork && !o.storageDown ==> Effective(d.node.machine) == d.node.machine.allocation)
  {
    hide Update;
    OwnerAllocation(s.node, o);
    OwnerMachineFacts(s.node, o);
  }

  /**
   The guard is exact: granting a replacement leaves a true belief in every state the node could be
   in, if and only if no recorded allocation of its worker is unverified. With no storage work in
   the way, the same holds of what the node reports.
   */
  lemma GuardExact(s0: Sys, events: seq<Event>, s: Sys, o: OwnerChange)
    requires Initial(s0) && CarefulRun(s0, events, s) && o.recreate && OwnerUpdated(s.node, o).Ok?
    ensures (forall t: Sys :: Possible(t, s.node) ==> Verified(Next(t, Owner(o)))) <==> !Unsettled(s.node.machine)
    ensures o.work == NoWork && !o.storageDown ==>
      ((forall t: Sys :: Possible(t, s.node) ==> Honest(Next(t, Owner(o)))) <==> !Unsettled(s.node.machine))
  {
    hide Initial, CarefulRun, OwnerUpdated, Next, Effective;
    forall t: Sys | Possible(t, s.node)
      ensures !Unsettled(s.node.machine) ==> Verified(Next(t, Owner(o)))
      ensures !Unsettled(s.node.machine) && o.work == NoWork && !o.storageDown ==> Honest(Next(t, Owner(o)))
    {
      var r0, run :| Initial(r0) && CarefulRun(r0, run, t);
      VmAlways(r0, run, t);
      GrantedClears(t, o);
    }
    if Unsettled(s.node.machine) {
      var had := s.node.machine.allocation.value;
      var r0, run, t := AnyVm(s0, events, s, had.(cpus := had.cpus + 1));
      assert Possible(t, s.node);
      GrantedClears(t, o);
    }
  }
}
