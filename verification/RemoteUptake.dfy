/**
 Which edits a node takes up, and what carrying one out may change: every condition said on its
 own, over every state a run can lead to.
 */
module RemoteUptake {
  import opened Outcomes
  import opened RemoteModel
  import opened RemoteController
  import opened RemoteSystem
  import opened RemoteWrites
  import opened RemoteInvariant
  import opened RemoteOutcome
  import RemoteChannel
  import RemoteNodeRuns
  import RemoteAgreement

  // ------------------------------------------------------------------ receipts

  /** The list with one receipt more: its own place taken, or the oldest given up when sixty-four are kept. */
  ghost predicate Recorded(a: seq<Receipt>, r: Receipt, b: seq<Receipt>) {
    if exists x <- a :: x.requestId == r.requestId then
      exists k :: 0 <= k < |a| && a[k].requestId == r.requestId && b == a[..k] + a[k + 1..] + [r]
    else if |a| < 64 then b == a + [r]
    else b == a[1..] + [r]
  }

  /** What is left when the receipts of an id are taken out. */
  function Others(a: seq<Receipt>, id: string): seq<Receipt> {
    if a == [] then []
    else
      var init, last := a[..|a| - 1], a[|a| - 1];
      Others(init, id) + if last.requestId == id then [] else [last]
  }

  lemma {:induction false} OthersFirst(r: Receipt, rest: seq<Receipt>, id: string)
    ensures Others([r] + rest, id) == (if r.requestId == id then [] else [r]) + Others(rest, id)
  {
    var all := [r] + rest;
    if rest == [] {
      assert all[..0] == [] && all[|all| - 1] == r;
    } else {
      assert all[..|all| - 1] == [r] + rest[..|rest| - 1] && all[|all| - 1] == rest[|rest| - 1];
      OthersFirst(r, rest[..|rest| - 1], id);
    }
  }

  lemma {:induction false} WithoutOthers(a: seq<Receipt>, id: string)
    ensures Without(a, id) == Others(a, id)
  {
    hide Others;
    if a == [] {
      assert Others(a, id) == [] by { NoOthers(id); }
    } else {
      WithoutOthers(a[1..], id);
      OthersFirst(a[0], a[1..], id);
      assert [a[0]] + a[1..] == a;
    }
  }

  lemma NoOthers(id: string)
    ensures Others([], id) == []
  {
  }

  /** Every receipt from k on is of another request. */
  ghost predicate NoneFrom(a: seq<Receipt>, k: nat, id: string) {
    forall i :: k <= i < |a| ==> a[i].requestId != id
  }

  lemma {:induction false} OthersAll(a: seq<Receipt>, id: string)
    requires NoneFrom(a, 0, id)
    ensures Others(a, id) == a
  {
    if a != [] {
      OthersAll(a[..|a| - 1], id);
      assert a == a[..|a| - 1] + [a[|a| - 1]];
    }
  }

  lemma {:induction false} OthersOne(a: seq<Receipt>, k: nat, id: string)
    requires k < |a| && NoneFrom(a[..k], 0, id) && a[k].requestId == id && NoneFrom(a, k + 1, id)
    ensures Others(a, id) == a[..k] + a[k + 1..]
  {
    var last := |a| - 1;
    if k == last {
      OthersAll(a[..last], id);
      assert a[..k] + a[k + 1..] == a[..last];
    } else {
      assert a[..last][..k] == a[..k];
      OthersOne(a[..last], k, id);
      assert a[..last][k + 1..] + [a[last]] == a[k + 1..];
      assert a[..k] + (a[..last][k + 1..] + [a[last]]) == a[..k] + a[..last][k + 1..] + [a[last]];
    }
  }

  lemma RecordedNew(a: seq<Receipt>, r: Receipt)
    requires !HasReceipt(a, r.requestId) && |a| <= 64
    ensures Record(a, r) == if |a| < 64 then a + [r] else a[1..] + [r]
  {
    hide Without;
    forall i | 0 <= i < |a|
      ensures a[i].requestId != r.requestId
    {
      assert a[i] in a;
    }
    OthersAll(a, r.requestId);
    WithoutOthers(a, r.requestId);
    if a != [] { assert (a + [r])[1..] == a[1..] + [r]; }
  }

  lemma RecordedAgain(a: seq<Receipt>, k: nat, r: Receipt)
    requires UniqueReceipts(a) && |a| <= 64 && k < |a| && a[k].requestId == r.requestId
    ensures Record(a, r) == a[..k] + a[k + 1..] + [r]
  {
    OthersOne(a, k, r.requestId);
    WithoutOthers(a, r.requestId);
  }

  /** One receipt a request, newest last; only a new one beyond sixty-four makes the oldest go. */
  lemma RecordIs(a: seq<Receipt>, r: Receipt)
    requires Listed(a)
    ensures Recorded(a, r, Record(a, r))
  {
    hide Record;
    if HasReceipt(a, r.requestId) {
      var k :| 0 <= k < |a| && a[k].requestId == r.requestId;
      RecordedAgain(a, k, r);
    } else {
      RecordedNew(a, r);
    }
  }

  // ---------------------------------------------------------------- acceptance

  /** The plan was reviewed on this node under the very settings now saved. */
  ghost predicate ReviewedHere(c: Config, plan: nat) {
    exists k :: 0 <= k < |c.remote.receipts| &&
      var r := c.remote.receipts[k]; r.status == Reviewed && r.revision == c.revision && r.result == Some(plan)
  }

  /** New sharing rules the worker can have: no storage work under way, and no disk to shrink or move. */
  ghost predicate FitsWorker(c: Config, rules: Policy) {
    var disk := rules.resources.diskGib;
    && c.machine.work.NoWork?
    && (c.machine.pooled ==> disk == c.saved.policy.resources.diskGib)
    && (!c.machine.lima ==> disk == c.saved.policy.resources.diskGib)
    && (c.machine.allocation.Some? ==> c.machine.allocation.value.diskGib <= disk)
    && (!c.machine.configured ==> !rules.enabled)
  }

  ghost predicate MayTakeUp(c: Config, edit: Edit, allowed: bool) {
    && c.saved.consent && GoodEdit(edit, c.saved.policy, c.revision, allowed)
    && !c.machine.repairRequired && !c.machine.busy && !c.saved.recreation && !c.saved.updating
    && (forall plan :: edit.operation == Some(StorageApply(plan)) ==> ReviewedHere(c, plan))
    && (edit.operation.None? ==> FitsWorker(c, edit.policy))
  }

  lemma ReviewedIs(c: Config, plan: nat)
    ensures ReviewedHere(c, plan) <==>
      exists r <- c.remote.receipts :: r.status == Reviewed && r.revision == c.revision && r.result == Some(plan)
  {
    if r :| r in c.remote.receipts && r.status == Reviewed && r.revision == c.revision && r.result == Some(plan) {
      var k :| 0 <= k < |c.remote.receipts| && c.remote.receipts[k] == r;
    }
  }

  lemma UptakeIs(c: Config, edit: Edit, allowed: bool)
    ensures ValidEdit(edit, c.saved.policy, c.saved.consent, c.revision, allowed) && ValidRuntime(c, edit) <==>
      MayTakeUp(c, edit, allowed)
  {
    EditIs(edit, c.saved.policy, c.saved.consent, c.revision, allowed);
    hide ValidEdit, GoodEdit, ReviewedHere;
    match edit.operation
    case Some(StorageApply(plan)) => ReviewedIs(c, plan);
    case _ =>
  }

  /** A new edit is taken up exactly when nothing stands against it, and otherwise answered with a rejection. */
  lemma DeliverIs(c: Config, edit: Edit, allowed: bool)
    requires NodeReceipts(c) && c.remote.pending == None && !HasReceipt(c.remote.receipts, edit.requestId)
    ensures
      var d := Delivered(c, edit, allowed);
      var r := d.remote.receipts[|d.remote.receipts| - 1];
      && d == c.(remote := d.remote)
      && d.remote.receipts != [] && Recorded(c.remote.receipts, r, d.remote.receipts)
      && r.requestId == edit.requestId && r.revision == c.revision && r.effectivePolicy == c.saved.policy
      && r.result == None && r.effectiveResources == Effective(c.machine)
      && if MayTakeUp(c, edit, allowed) then
           r.status == Pending && d.remote.pending == Some(edit) && d.remote.execution == None &&
             !d.remote.storageStarted
         else r.status == Rejected && d.remote.(receipts := c.remote.receipts) == c.remote
  {
    hide ValidEdit, ValidRuntime, MayTakeUp, Effective, Recorded;
    UptakeIs(c, edit, allowed);
    var receipt := NewReceipt(c, edit.requestId, if MayTakeUp(c, edit, allowed) then Pending else Rejected);
    RecordIs(c.remote.receipts, receipt);
    RecordFacts(c.remote.receipts, receipt);
  }

  // ------------------------------------------------------------- along every run

  /** Over every run: an edit that arrives becomes pending exactly when nothing stands against it. */
  lemma TakenUp(s0: Sys, events: seq<Event>, s: Sys, allowed: bool)
    requires Initial(s0) && Reachable(s0, events, s) && Enabled(s, Deliver(allowed))
    ensures
      var pending := Next(s, Deliver(allowed)).node.remote.pending;
      if MayTakeUp(s.node, s.reply.value, allowed) then pending == Some(s.reply.value) else pending == None
  {
    hide Initial, Reachable, NetSound, MayTakeUp, Recorded, Delivered, HasReceipt;
    RemoteAgreement.SoundInitially(s0);
    RemoteAgreement.SoundAlways(s0, events, s);
    RemoteChannel.NothingPending(s);
    DeliverIs(s.node, s.reply.value, allowed);
  }

  /** It is carried out only if it could still be taken up then. */
  lemma ClaimedIs(c: Config, edit: Edit, allowed: bool)
    ensures Claimed(c, edit, allowed).Ok? <==> MayTakeUp(c, edit, allowed)
  {
    hide ValidEdit, ValidRuntime, MayTakeUp;
    UptakeIs(c, edit, allowed);
  }

  /** What the job's edit was found to respect when the job was begun, while nobody has overtaken it. */
  ghost predicate JobFits(s: Sys) {
    s.job.Resizing? || s.job.Ready? ==>
      var m, rules := s.node.machine, s.job.edit.policy;
      && (m.allocation.Some? ==> m.allocation.value.diskGib <= rules.resources.diskGib)
      && (!m.configured ==> !rules.enabled)
      && s.job.edit.acknowledgeInterruption
      && (s.node.remote.pending == Some(s.job.edit) ==>
           && rules.startAtLogin == s.node.saved.policy.startAtLogin
           && (m.pooled || !m.lima ==> rules.resources.diskGib == s.node.saved.policy.resources.diskGib))
  }

  lemma FitsClaimed(s: Sys, allowed: bool)
    requires Enabled(s, Claim(allowed))
    ensures JobFits(Next(s, Claim(allowed)))
  {
    hide MayTakeUp;
    var edit := s.node.remote.pending.value;
    ClaimedIs(s.node, edit, allowed);
    if Claimed(s.node, edit, allowed).Ok? {
      ClaimFacts(s.node, edit, allowed);
      FitsTakenUp(s.node, edit, allowed);
    }
  }

  lemma FitsTakenUp(c: Config, edit: Edit, allowed: bool)
    requires MayTakeUp(c, edit, allowed) && edit.operation.None?
    ensures edit.acknowledgeInterruption && edit.policy.startAtLogin == c.saved.policy.startAtLogin
    ensures FitsWorker(c, edit.policy)
  {
  }

  lemma FitsOwner(s: Sys, e: Event)
    requires Sound(s) && JobFits(s) && e.Owner?
    ensures JobFits(Next(s, e))
  {
    hide NetSound, Acts, ReceiptsSound, OwnerUpdated, PastSound, LogSound;
    if OwnerUpdated(s.node, e.change).Ok? {
      OwnerFacts(s.node, e.change);
      OwnerAllocation(s.node, e.change);
      OwnerWorker(s.node, e.change);
    }
  }

  lemma OwnerWorker(c: Config, o: OwnerChange)
    requires OwnerUpdated(c, o).Ok?
    ensures
      var m := OwnerUpdated(c, o).value.machine;
      m.configured == c.machine.configured && m.pooled == c.machine.pooled && m.lima == c.machine.lima
  {
    hide Update;
    OwnerMachineFacts(c, o);
  }

  lemma FitsKept(s: Sys, e: Event)
    requires Sound(s) && JobFits(s) && Enabled(s, e)
    ensures JobFits(Next(s, e))
  {
    hide Sound, JobFits, Exchange, Requested, Delivered, Recovered, Committed, Failed;
    match e
    case Owner(_) => FitsOwner(s, e);
    case Claim(allowed) => FitsClaimed(s, allowed);
    case _ => FitsQuiet(s, e);
  }

  lemma FitsQuiet(s: Sys, e: Event)
    requires JobFits(s) && Enabled(s, e) && !e.Owner? && !e.Claim?
    ensures JobFits(Next(s, e))
  {
    hide Exchange, Requested, Delivered, Recovered, Committed, Failed, StorageWritten, StoragePaused, StorageFinished;
    hide StorageFailed;
  }

  lemma {:induction false} FitsAlways(s0: Sys, events: seq<Event>, s: Sys)
    requires Initial(s0) && Reachable(s0, events, s)
    ensures JobFits(s)
    decreases |events|
  {
    hide Sound, Next, Enabled;
    if events != [] {
      var last := |events| - 1;
      var m :| Reachable(s0, events[..last], m) && Enabled(m, events[last]) && s == Next(m, events[last]);
      FitsAlways(s0, events[..last], m);
      RemoteAgreement.SoundInitially(s0);
      RemoteAgreement.SoundAlways(s0, events[..last], m);
      hide JobFits;
      FitsKept(m, events[last]);
    }
  }

  /** What a commit may change: no disk shrinks, nothing only the owner may change is changed. */
  lemma CommitChanges(s0: Sys, events: seq<Event>, s: Sys)
    requires Initial(s0) && Reachable(s0, events, s) && Enabled(s, Commit)
    ensures
      var t := Next(s, Commit);
      && t.node.saved.consent == s.node.saved.consent && t.node.saved.(policy := s.node.saved.policy) == s.node.saved
      && t.node.saved.policy.startAtLogin == s.node.saved.policy.startAtLogin
      && (s.node.machine.pooled || !s.node.machine.lima ==>
           t.node.saved.policy.resources.diskGib == s.node.saved.policy.resources.diskGib)
      && (t.log != s.log ==> t.node.saved.policy == s.job.edit.policy && s.job.edit.acknowledgeInterruption)
      && (t.log != s.log && t.node.saved.policy.enabled ==> s.node.machine.configured)
      && (t.log == s.log ==> t.node == s.node)
  {
    hide Initial, Reachable, NetSound, Acts, ReceiptsSound, PastSound, LogSound, Committed, Effective, HasReceipt;
    RemoteAgreement.SoundInitially(s0);
    RemoteAgreement.SoundAlways(s0, events, s);
    FitsAlways(s0, events, s);
    if Committed(s.node, s.job.edit).Ok? {
      CommitFacts(s.node, s.job.edit);
    }
  }

  /** The allocation recorded for the worker never shrinks while it stays recorded, whatever happens. */
  lemma DiskNeverShrinks(s0: Sys, events: seq<Event>, s: Sys, e: Event)
    requires Initial(s0) && Reachable(s0, events, s) && Enabled(s, e)
    requires s.node.machine.allocation.Some? && Next(s, e).node.machine.allocation.Some?
    ensures Next(s, e).node.machine.allocation.value.diskGib >= s.node.machine.allocation.value.diskGib
    ensures !e.Commit? ==> Next(s, e).node.machine.allocation == s.node.machine.allocation
  {
    hide Initial, Reachable, NetSound, Acts, ReceiptsSound, PastSound, LogSound, HasReceipt, Effective, Requested;
    hide OwnerUpdated, Claimed, Committed, Failed, Recovered, Delivered, StorageWritten, FinishAfter, StoragePaused;
    hide Exchange;
    RemoteAgreement.SoundInitially(s0);
    RemoteAgreement.SoundAlways(s0, events, s);
    FitsAlways(s0, events, s);
    if e.Commit? {
      if Committed(s.node, s.job.edit).Ok? { CommitFacts(s.node, s.job.edit); }
    } else {
      AllocationStays(s, e);
    }
  }

  /** Only a commit writes an allocation; a failure or a recovery may forget it. */
  lemma AllocationStays(s: Sys, e: Event)
    requires Sound(s) && Enabled(s, e) && !e.Commit?
    ensures
      Next(s, e).node.machine.allocation == s.node.machine.allocation || Next(s, e).node.machine.allocation.None?
  {
    hide NetSound, Acts, ReceiptsSound, PastSound, LogSound, HasReceipt, Effective, Requested, Exchange, Authorized;
    hide OwnerUpdated, Claimed, Failed, Recovered, Delivered, StorageWritten, FinishAfter, StoragePaused;
    if e.Deliver? {
      RemoteChannel.NothingPending(s);
    }
    match e
    case Owner(change) =>
      if OwnerUpdated(s.node, change).Ok? { OwnerAllocation(s.node, change); }
    case Claim(allowed) =>
      var edit := s.node.remote.pending.value;
      if Claimed(s.node, edit, allowed).Ok? { ClaimFacts(s.node, edit, allowed); }
    case GiveUp => FailFacts(s.node, s.job.edit);
    case Recover => RecoverFacts(s.node);
    case Deliver(allowed) => DeliverFacts(s.node, s.reply.value, allowed);
    case StorageStep(change) =>
      if StorageWritten(s.node, s.job.edit, change).Ok? { StorageFacts(s.node, s.job.edit, change); }
    case StoragePause => RemoteNodeRuns.PauseAllocation(s.node, s.job.edit);
    case StorageDone(result) => FinishFacts(s.node, s.job.edit, if result.Some? then Reviewed else Applied, result);
    case StorageGiveUp => FinishFacts(s.node, s.job.edit, Rejected, None);
    case _ =>
  }

  // -------------------------------------------------------------- phases paused

  /** An owner's change that cancels a begun storage request pauses its phase and drops a mere draft. */
  lemma OwnerPauses(c: Config, o: OwnerChange)
    requires c.remote.pending.Some? && OwnerUpdated(c, o).Ok? && OwnerUpdated(c, o).value.remote.pending.None?
    ensures
      var work := OwnerUpdated(c, o).value.machine.work;
      if !c.remote.storageStarted then work == o.work
      else
        && !work.Draft?
        && (work.Running? <==> o.work.Running?)
        && (work.Running? ==> work.paused)
  {
    hide Record, CancelReceipt;
  }

  /** And so does its failure. */
  lemma FailurePauses(c: Config, edit: Edit)
    ensures
      var work := StoragePaused(c, edit).machine.work;
      && StoragePaused(c, edit) == c.(machine := c.machine.(work := work))
      && if !c.remote.storageStarted || c.remote.pending != Some(edit) then work == c.machine.work
         else
           && !work.Draft?
           && (work.Running? <==> c.machine.work.Running?)
           && (work.Running? ==> work.paused)
  {
  }

  // ------------------------------------------------------- what a receipt tells

  /** What may not be reported as the worker's allocation; an owner's change looks at fewer marks. */
  predicate Hidden(m: Machine, owner: bool) {
    if owner then m.applying || !m.work.NoWork? else m.repairRequired || !m.work.NoWork? || m.storageDown
  }

  predicate StatusAfter(e: Event, status: ReceiptStatus) {
    match status
    case Pending => e.Deliver? || e.StorageStep?
    case Reviewed => e.StorageDone? && e.result.Some?
    case Applied => e.Commit? || (e.StorageDone? && e.result.None?)
    case Rejected => !e.Commit? && !e.StorageDone?
    case UnknownStatus => false
  }

  /** A receipt describes the very settings it is saved with. */
  ghost predicate Describes(r: Receipt, c: Config, e: Event) {
    && r.revision == c.revision && r.effectivePolicy == c.saved.policy
    && r.effectiveResources == (if Hidden(c.machine, e.Owner?) then None else c.machine.allocation)
    && r.result == (if e.StorageDone? then e.result else None)
    && StatusAfter(e, r.status)
  }

  lemma RecordedOnly(a: seq<Receipt>, receipt: Receipt, r: Receipt)
    requires Listed(a) && r in Record(a, receipt) && r !in a
    ensures r == receipt
  {
    RecordFacts(a, receipt);
  }

  lemma OwnerDescribes(c: Config, o: OwnerChange, r: Receipt)
    requires NodeReceipts(c) && OwnerUpdated(c, o).Ok?
    requires r in OwnerUpdated(c, o).value.remote.receipts && r !in c.remote.receipts
    ensures Describes(r, OwnerUpdated(c, o).value, Owner(o)) && r.status == Rejected
  {
    hide Record, ReceiptsSound;
    PendingHas(c.remote.receipts, c.remote.pending, c.revision);
    if c.remote.pending.Some? {
      var stamped := OwnerAfter(c, o).(revision := c.revision + 1);
      var m := Interrupted(stamped.machine, c.remote.storageStarted);
      RecordedOnly(c.remote.receipts, CancelReceipt(stamped, PendingId(c), m), r);
    }
  }

  lemma CommitDescribes(c: Config, edit: Edit, r: Receipt)
    requires NodeReceipts(c) && Committed(c, edit).Ok?
    requires r in Committed(c, edit).value.remote.receipts && r !in c.remote.receipts
    ensures Describes(r, Committed(c, edit).value, Commit)
  {
    hide Record, ReceiptsSound;
    PendingHas(c.remote.receipts, c.remote.pending, c.revision);
    var revision := c.revision + (if c.saved.policy != edit.policy then 1 else 0);
    var receipt := Receipt(edit.requestId, Applied, revision, None, edit.policy,
      Effective(CommitMachine(c.machine, edit)));
    RecordedOnly(c.remote.receipts, receipt, r);
  }

  lemma EndDescribes(c: Config, edit: Edit, e: Event, r: Receipt)
    requires NodeReceipts(c) && (e.GiveUp? || e.Recover? || e.StorageDone? || e.StorageGiveUp?)
    requires
      var d := match e
        case GiveUp => Failed(c, edit)
        case Recover => Recovered(c)
        case StorageDone(result) => FinishAfter(c, edit, if result.Some? then Reviewed else Applied, result)
        case _ => FinishAfter(c, edit, Rejected, None);
      r in d.remote.receipts && r !in c.remote.receipts
    ensures e.GiveUp? ==> Describes(r, Failed(c, edit), e)
    ensures e.Recover? ==> Describes(r, Recovered(c), e)
    ensures e.StorageDone? ==>
      Describes(r, FinishAfter(c, edit, if e.result.Some? then Reviewed else Applied, e.result), e)
    ensures e.StorageGiveUp? ==> Describes(r, FinishAfter(c, edit, Rejected, None), e)
  {
    hide Record, ReceiptsSound;
    PendingHas(c.remote.receipts, c.remote.pending, c.revision);
    match e
    case GiveUp =>
      RecordedOnly(c.remote.receipts, NewReceipt(c.(machine := FailMachine(c.machine)), edit.requestId, Rejected), r);
    case Recover =>
      RecordedOnly(c.remote.receipts, Receipt(PendingId(c), Rejected, c.revision, None, c.saved.policy, None), r);
    case StorageDone(result) =>
      RecordedOnly(c.remote.receipts, NewReceipt(c, edit.requestId, if result.Some? then Reviewed else
        Applied).(result := result), r);
    case StorageGiveUp =>
      RecordedOnly(c.remote.receipts, NewReceipt(c, edit.requestId, Rejected).(result := None), r);
  }

  /**
   In every run a receipt that is new and settled tells the policy and the revision it is saved with,
   the allocation if nothing makes it doubtful, and how its request ended.
   */
  lemma ReceiptsTell(s0: Sys, events: seq<Event>, s: Sys, e: Event, r: Receipt)
    requires Initial(s0) && Reachable(s0, events, s) && Enabled(s, e)
    requires r in Next(s, e).node.remote.receipts && r !in s.node.remote.receipts
    ensures (r.status == Pending && e.StorageStep?) || Describes(r, Next(s, e).node, e)
  {
    hide Initial, Reachable, NetSound, ReceiptsSound, PastSound, LogSound, HasReceipt, Requested, Exchange, Describes;
    hide OwnerUpdated, Claimed, Committed, Failed, Recovered, Delivered, FinishAfter, StoragePaused, Acts;
    hide StorageWritten, StorageFinished, Authorized, EntrySound;
    RemoteAgreement.SoundInitially(s0);
    RemoteAgreement.SoundAlways(s0, events, s);
    match e
    case Owner(change) => OwnerDescribes(s.node, change, r);
    case Claim(allowed) => ClaimFacts(s.node, s.node.remote.pending.value, allowed);
    case Commit => CommitDescribes(s.node, s.job.edit, r);
    case GiveUp => EndDescribes(s.node, s.job.edit, e, r);
    case Recover => EndDescribes(s.node, Edit(None, "", 0, s.node.saved.policy, false), e, r);
    case StorageDone(result) =>
      DoneIs(s.node, s.job.edit, result);
      EndDescribes(s.node, s.job.edit, e, r);
    case StorageGiveUp => EndDescribes(s.node, s.job.edit, e, r);
    case Deliver(allowed) =>
      RemoteChannel.NothingPending(s);
      DeliverDescribes(s.node, s.reply.value, allowed, r);
    case StorageStep(change) => StepStamps(s.node, s.job.edit, change, r);
    case StoragePause => PauseReceipts(s.node, s.job.edit);
    case _ =>
  }

  lemma DoneIs(c: Config, edit: Edit, result: Option<nat>)
    requires StorageFinished(c, edit, result).Ok?
    ensures StorageFinished(c, edit, result).value ==
      FinishAfter(c, edit, if result.Some? then Reviewed else Applied, result)
  {
  }

  lemma DeliverDescribes(c: Config, edit: Edit, allowed: bool, r: Receipt)
    requires NodeReceipts(c) && c.remote.pending == None && !HasReceipt(c.remote.receipts, edit.requestId)
    requires r in Delivered(c, edit, allowed).remote.receipts && r !in c.remote.receipts
    ensures Describes(r, Delivered(c, edit, allowed), Deliver(allowed))
  {
    hide ValidEdit, ValidRuntime, MayTakeUp, ReceiptsSound, Record;
    PendingHas(c.remote.receipts, c.remote.pending, c.revision);
    UptakeIs(c, edit, allowed);
    RecordedOnly(c.remote.receipts, NewReceipt(c, edit.requestId, if MayTakeUp(c, edit, allowed) then Pending
      else Rejected), r);
  }

  lemma StepStamps(c: Config, edit: Edit, change: StorageChange, r: Receipt)
    requires NodeReceipts(c) && StorageWritten(c, edit, change).Ok?
    requires r in StorageWritten(c, edit, change).value.remote.receipts && r !in c.remote.receipts
    ensures r.status == Pending
  {
    hide Acts, ReceiptsSound;
    StampKept(c.remote.receipts, StampPending(c.remote.receipts, c.revision + 1), c.revision + 1);
  }

  lemma PauseReceipts(c: Config, edit: Edit)
    ensures StoragePaused(c, edit).remote == c.remote
  {
  }
}
