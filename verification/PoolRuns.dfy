/**
 Whole histories of a guest: requests, boots, retirement and power losses in any order,
 with the invariants that every one of them keeps.
 */
module PoolRuns {
  import opened Outcomes
  import opened PoolModel
  import opened PoolSteps
  import opened PoolConvergence
  import opened PoolBuild
  import opened PoolResume
  import opened PoolConverges
  import opened PoolTheorem

  /** Each event finds whatever volatile state the boot before it left. */
  datatype Event =
    | Call(request: Request, stopped: bool, draw: Draw, fuel: nat, before: Volatile)
    | BootUp(stopped: bool, fuel: nat, before: Volatile)
    | Retire(poolId: string, stopped: bool, fuel: nat)
    | MarkMigrated

  /** retire_pool: disable the service, unmount, then unlink the state and the journal. */
  function Retired(d: Durable, poolId: string, stopped: bool, fuel: nat): Durable {
    if !stopped || d.state.None? || !ValidState(d.state.value, d.owner) || poolId != d.state.value.poolId then d
    else if fuel == 0 then d
    else if fuel <= 2 then d.(serviceInstalled := false)
    else if fuel == 3 then d.(serviceInstalled := false, state := None)
    else d.(serviceInstalled := false, state := None, pending := None)
  }

  function Happen(d: Durable, e: Event): Durable
    requires e.Call? ==> |e.draw.members| == |e.request.disks|
  {
    match e
    case Call(request, stopped, draw, fuel, before) => Apply(World(d, before), request, stopped, draw, fuel).0.durable
    case BootUp(stopped, fuel, before) => Boot(World(d, before), stopped, fuel).0.durable
    case Retire(poolId, stopped, fuel) => Retired(d, poolId, stopped, fuel)
    case MarkMigrated =>
      if d.state.Some? && ValidState(d.state.value, d.owner)
      then d.(state := Some(d.state.value.(migrationComplete := true))) else d
  }

  /** No partition and no physical volume on the disks carries these identifiers. */
  ghost predicate Unused(d: Durable, partitionUuid: string, pvUuid: string) {
    forall p <- d.partitions :: p.uuid != partitionUuid && (p.content.Pv? ==> p.content.uuid != pvUuid)
  }

  /** uuid4 never repeats an identifier already on a disk or drawn alongside it. */
  ghost predicate FreshDraw(d: Durable, draw: Draw) {
    && (forall i, k :: 0 <= i < k < |draw.members| ==>
         draw.members[i].partitionUuid != draw.members[k].partitionUuid &&
         draw.members[i].pvUuid != draw.members[k].pvUuid)
    && (forall i :: 0 <= i < |draw.members| ==> Unused(d, draw.members[i].partitionUuid, draw.members[i].pvUuid))
  }

  ghost predicate Admissible(d: Durable, e: Event) {
    e.Call? ==> |e.draw.members| == |e.request.disks| && FreshDraw(d, e.draw)
  }

  /** A history is a sequence of durable states, each reached from the one before by some event. */
  ghost predicate Follows(d: Durable, events: seq<Event>, e: Durable)
    decreases |events|
  {
    if events == [] then e == d
    else
      var last := |events| - 1;
      exists m :: Follows(d, events[..last], m) && Admissible(m, events[last]) && e == Happen(m, events[last])
  }

  // ------------------------------------------------------- the journal written

  lemma NewMemberKeeps(d: Durable, request: Request, plans: seq<Plan>, draw: Draw, i: nat)
    requires |plans| == |request.disks| == |draw.members| && i < |plans|
    ensures
      var m := NewJournal(d, request, plans, draw).members[i];
      var known := FindMember(OldMembers(d.state), request.disks[i].id);
      && m.id == request.disks[i].id
      && m.allocationBytes == request.disks[i].allocationBytes
      && (known.Some? ==> m.partitionUuid == known.value.partitionUuid && m.pvUuid == known.value.pvUuid)
      && (known.None? ==> m.partitionUuid == draw.members[i].partitionUuid && m.pvUuid == draw.members[i].pvUuid)
  {
  }

  /** The loop of plan_devices finds every known member's partition, each on a disk of its own. */
  lemma {:induction false} PlansApart(d: Durable, disks: seq<DiskRequest>, members: seq<Member>, used: set<string>)
    requires PlanDisks(d, disks, members, used).Ok?
    ensures forall i :: 0 <= i < |disks| && FindMember(members, disks[i].id).Some? ==>
      PlacedAt(d, FindMember(members, disks[i].id).value.partitionUuid,
        PlanDisks(d, disks, members, used).value[i].device)
    ensures forall i :: 0 <= i < |disks| ==> PlanDisks(d, disks, members, used).value[i].device !in used
    ensures forall i, k :: 0 <= i < k < |disks| ==>
      PlanDisks(d, disks, members, used).value[i].device != PlanDisks(d, disks, members, used).value[k].device
  {
    if disks != [] {
      var first := PlanDisk(d, disks[0], FindMember(members, disks[0].id), used);
      PlansApart(d, disks[1..], members, used + {first.value.device});
      var rest := PlanDisks(d, disks[1..], members, used + {first.value.device}).value;
      var all := PlanDisks(d, disks, members, used).value;
      assert all == [first.value] + rest;
      forall i | 0 <= i < |disks| && FindMember(members, disks[i].id).Some?
        ensures PlacedAt(d, FindMember(members, disks[i].id).value.partitionUuid, all[i].device)
      {
        if i > 0 {
          assert disks[1..][i - 1] == disks[i] && all[i] == rest[i - 1];
        }
      }
      forall i, k | 0 <= i < k < |disks|
        ensures all[i].device != all[k].device
      {
        assert all[k] == rest[k - 1];
        if i > 0 { assert all[i] == rest[i - 1]; }
      }
    }
  }

  ghost predicate PlacedAt(d: Durable, uuid: string, disk: string) {
    |Matches(d.partitions, uuid)| == 1 && d.partitions[Matches(d.partitions, uuid)[0]].disk == disk
  }

  lemma PlacedOnly(d: Durable, uuid: string, disk: string, k: nat)
    requires PlacedAt(d, uuid, disk) && k < |d.partitions| && d.partitions[k].uuid == uuid
    ensures d.partitions[k].disk == disk
  {
    OneMatch(d.partitions, uuid);
  }

  /** The partition a known member was found at holds its physical volume. */
  ghost predicate HoldsPv(d: Durable, uuid: string, pvUuid: string) {
    |Matches(d.partitions, uuid)| == 1 &&
    var content := d.partitions[Matches(d.partitions, uuid)[0]].content;
    content.Pv? && content.uuid == pvUuid
  }

  lemma {:induction false} PlansHold(d: Durable, disks: seq<DiskRequest>, members: seq<Member>, used: set<string>,
      i: nat)
    requires PlanDisks(d, disks, members, used).Ok? && i < |disks| && FindMember(members, disks[i].id).Some?
    ensures
      var known := FindMember(members, disks[i].id).value;
      HoldsPv(d, known.partitionUuid, known.pvUuid)
  {
    var first := PlanDisk(d, disks[0], FindMember(members, disks[0].id), used);
    if i > 0 {
      PlansHold(d, disks[1..], members, used + {first.value.device}, i - 1);
    }
  }

  ghost predicate Planned(d: Durable, request: Request, plans: seq<Plan>, draw: Draw) {
    && |plans| == |request.disks| == |draw.members|
    && PlanDevices(d, request, d.state) == Ok(plans)
    && FreshDraw(d, draw)
  }

  /** A member of the new journal either sits where its plan says, or nowhere yet. */
  lemma NewMemberPlace(d: Durable, request: Request, plans: seq<Plan>, draw: Draw, i: nat)
    requires Planned(d, request, plans, draw) && i < |plans|
    ensures
      var m := NewJournal(d, request, plans, draw).members[i];
      if FindMember(OldMembers(d.state), request.disks[i].id).Some? then PlacedAt(d, m.partitionUuid, plans[i].device)
      else m.partitionUuid == draw.members[i].partitionUuid && forall p <- d.partitions :: p.uuid != m.partitionUuid
  {
    NewMemberKeeps(d, request, plans, draw, i);
    PlansApart(d, request.disks, OldMembers(d.state), {});
  }

  /** What the disks say of a member of the new journal: where it is kept, or that it is new. */
  lemma NewMemberPv(d: Durable, request: Request, plans: seq<Plan>, draw: Draw, i: nat)
    requires Planned(d, request, plans, draw) && i < |plans|
    ensures
      var m := NewJournal(d, request, plans, draw).members[i];
      if FindMember(OldMembers(d.state), request.disks[i].id).Some? then HoldsPv(d, m.partitionUuid, m.pvUuid)
      else m.pvUuid == draw.members[i].pvUuid && Unused(d, m.partitionUuid, m.pvUuid)
  {
    NewMemberKeeps(d, request, plans, draw, i);
    if FindMember(OldMembers(d.state), request.disks[i].id).Some? {
      PlansHold(d, request.disks, OldMembers(d.state), {}, i);
    }
  }

  /** No two members of the new journal share a partition or a physical volume. */
  lemma NewMembersDistinct(d: Durable, request: Request, plans: seq<Plan>, draw: Draw, i: nat, k: nat)
    requires Planned(d, request, plans, draw) && i < k < |plans| && PvUnique(d.partitions)
    ensures
      var j := NewJournal(d, request, plans, draw);
      j.members[i].partitionUuid != j.members[k].partitionUuid && j.members[i].pvUuid != j.members[k].pvUuid
  {
    hide PlanDevices;
    var j := NewJournal(d, request, plans, draw);
    NewMemberPlace(d, request, plans, draw, i);
    NewMemberPlace(d, request, plans, draw, k);
    NewMemberPv(d, request, plans, draw, i);
    NewMemberPv(d, request, plans, draw, k);
    PlannedApart(d, request, plans, draw, i, k);
    var u, v := j.members[i].partitionUuid, j.members[k].partitionUuid;
    if FindMember(OldMembers(d.state), request.disks[i].id).Some? {
      assert d.partitions[Matches(d.partitions, u)[0]] in d.partitions;
    }
    if FindMember(OldMembers(d.state), request.disks[k].id).Some? {
      assert d.partitions[Matches(d.partitions, v)[0]] in d.partitions;
    }
  }

  lemma PlannedApart(d: Durable, request: Request, plans: seq<Plan>, draw: Draw, i: nat, k: nat)
    requires Planned(d, request, plans, draw) && i < k < |plans|
    ensures plans[i].device != plans[k].device
  {
    PlansApart(d, request.disks, OldMembers(d.state), {});
  }

  lemma NewSeparate(d: Durable, request: Request, plans: seq<Plan>, draw: Draw)
    requires Planned(d, request, plans, draw)
    ensures Separate(d.partitions, NewJournal(d, request, plans, draw).members)
  {
    hide PlanDevices, FreshDraw, IsMember, NewMembers;
    var members := NewJournal(d, request, plans, draw).members;
    forall k, l | 0 <= k < |d.partitions| && 0 <= l < |d.partitions| && d.partitions[k].uuid != d.partitions[l].uuid &&
                  IsMember(members, d.partitions[k].uuid) && IsMember(members, d.partitions[l].uuid)
      ensures d.partitions[k].disk != d.partitions[l].disk
    {
      var a := NewMemberFound(d, request, plans, draw, k);
      var b := NewMemberFound(d, request, plans, draw, l);
      if a < b {
        PlannedApart(d, request, plans, draw, a, b);
      } else {
        PlannedApart(d, request, plans, draw, b, a);
      }
    }
  }

  /** A partition that carries a member's uuid is on the disk planned for that member. */
  lemma NewMemberFound(d: Durable, request: Request, plans: seq<Plan>, draw: Draw, k: nat) returns (i: nat)
    requires Planned(d, request, plans, draw) && k < |d.partitions|
    requires IsMember(NewJournal(d, request, plans, draw).members, d.partitions[k].uuid)
    ensures i < |plans| && NewJournal(d, request, plans, draw).members[i].partitionUuid == d.partitions[k].uuid
    ensures d.partitions[k].disk == plans[i].device
  {
    hide PlanDevices, FreshDraw, Matches;
    var members := NewJournal(d, request, plans, draw).members;
    i := MemberIndex(members, d.partitions[k].uuid);
    NewMemberPlace(d, request, plans, draw, i);
    assert d.partitions[k] in d.partitions;
    PlacedOnly(d, members[i].partitionUuid, plans[i].device, k);
  }

  lemma MemberIndex(members: seq<Member>, uuid: string) returns (i: nat)
    requires IsMember(members, uuid)
    ensures i < |members| && members[i].partitionUuid == uuid
  {
    var m :| m in members && m.partitionUuid == uuid;
    i :| 0 <= i < |members| && members[i] == m;
  }

  /** The journal's physical volumes differ, and a new member's identifiers are on no disk yet. */
  ghost predicate NewIdentities(d: Durable, j: Journal) {
    && (forall i, k :: 0 <= i < k < |j.members| ==> j.members[i].pvUuid != j.members[k].pvUuid)
    && (forall i :: 0 <= i < |j.members| && OldMember(j, j.members[i]).None? ==>
         Unused(d, j.members[i].partitionUuid, j.members[i].pvUuid))
  }

  /** The journal apply_request writes is one that every later run can resume. */
  lemma NewJournalSound(d: Durable, request: Request, plans: seq<Plan>, draw: Draw)
    requires Planned(d, request, plans, draw) && PvUnique(d.partitions)
    ensures Sound(d, NewJournal(d, request, plans, draw)) && NewIdentities(d, NewJournal(d, request, plans, draw))
  {
    var j := NewJournal(d, request, plans, draw);
    forall i | 0 <= i < |j.members| && OldMember(j, j.members[i]).None?
      ensures Unused(d, j.members[i].partitionUuid, j.members[i].pvUuid)
    {
      NewMemberKeeps(d, request, plans, draw, i);
      NewMemberPv(d, request, plans, draw, i);
    }
    forall m <- j.members | OldMember(j, m).Some?
      ensures OldMember(j, m).value.partitionUuid == m.partitionUuid && OldMember(j, m).value.pvUuid == m.pvUuid
    {
      var i :| 0 <= i < |j.members| && j.members[i] == m;
      NewMemberKeeps(d, request, plans, draw, i);
    }
    forall i, k | 0 <= i < k < |j.members|
      ensures j.members[i].partitionUuid != j.members[k].partitionUuid && j.members[i].pvUuid != j.members[k].pvUuid
    {
      NewMembersDistinct(d, request, plans, draw, i, k);
    }
    NewSeparate(d, request, plans, draw);
  }

  // ------------------------------------------- what one invocation can leave

  /** The journal was carried some way, or all the way and dropped. */
  ghost predicate Leaves(d: Durable, j: Journal, e: Durable) {
    || (exists n :: 0 <= n <= |Prepare(j)| && Walk(Prepare(j)[..n], d) == (e, true))
    || (Walk(Prepare(j), d).1 && e == Walk(Prepare(j), d).0.(pending := None))
  }

  ghost predicate Idle(d: Durable, e: Durable) {
    e == d.(serviceInstalled := e.serviceInstalled)
  }

  /** A new journal was written for a plan of this request, and carried some way. */
  ghost predicate Begins(d: Durable, request: Request, draw: Draw, e: Durable) {
    exists plans ::
      && Planned(d, request, plans, draw) && d.pending == None
      && ValidRequest(request, d.owner) && (d.state.Some? ==> ValidState(d.state.value, d.owner))
      && !Applied(d, request)
      && Leaves(d.(pending := Some(NewJournal(d, request, plans, draw))), NewJournal(d, request, plans, draw), e)
  }

  /** An applied journal is only activated and dropped; any other is carried on. */
  ghost predicate Continues(d: Durable, request: Request, e: Durable) {
    && d.pending.Some? && d.pending.value.requestDigest == request
    && if Applied(d, request) then Idle(d.(pending := None), e) else Leaves(d, d.pending.value, e)
  }

  lemma RunTail(w: World, last: seq<Step>, fuel: nat)
    requires last == [] || last == [Finish]
    ensures
      var e := Run(ACTIVATION + last, w, fuel).0.durable;
      e == w.durable || (last == [Finish] && e == w.durable.(pending := None))
  {
    hide Perform;
    assert ACTIVATION + last == [Activate] + ([AttachMount] + last);
    RunFirst(Activate, [AttachMount] + last, w, fuel);
    ActivationKeeps(w);
    if fuel > 0 && Perform(Activate, w).Ok? {
      var x := Perform(Activate, w).value;
      RunFirst(AttachMount, last, x, fuel - 1);
      ActivationKeeps(x);
      if fuel > 1 && Perform(AttachMount, x).Ok? {
        RunFinish(Perform(AttachMount, x).value, last, fuel - 2);
      }
    }
  }

  lemma ActivationKeeps(w: World)
    ensures Perform(Activate, w).Ok? ==> Perform(Activate, w).value.durable == w.durable
    ensures Perform(AttachMount, w).Ok? ==> Perform(AttachMount, w).value.durable == w.durable
  {
    hide Activatable, Mountable;
  }

  lemma RunInstalled(w: World, last: seq<Step>, fuel: nat)
    requires last == [] || last == [Finish]
    ensures
      var e := Run([Install] + (ACTIVATION + last), w, fuel).0.durable;
      Idle(w.durable, e) || (last == [Finish] && Idle(w.durable.(pending := None), e))
  {
    hide Run;
    RunFirst(Install, ACTIVATION + last, w, fuel);
    if fuel > 0 {
      var x := w.(durable := w.durable.(serviceInstalled := true));
      assert Perform(Install, w) == Ok(x);
      RunTail(x, last, fuel - 1);
    }
  }

  lemma ProgramLeaves(j: Journal, w: World, fuel: nat)
    ensures Leaves(w.durable, j, Run(Program(j), w, fuel).0.durable)
  {
    hide Perform, Settle, Run, Prepare;
    OrderedPrepare(j, w.volatile.active);
    var k := RunWalk(Prepare(j), w, fuel);
    var (x, s) := Run(Prepare(j), w, fuel);
    ProgramParts(j);
    RunSplit(Prepare(j), ACTIVATION + [Finish], w, fuel);
    if s == Done {
      PrepareWhole(j, k, w.durable);
      RunTail(x, [Finish], fuel - |Prepare(j)|);
      assert Walk(Prepare(j)[..k], w.durable) == (x.durable, true);
    }
  }

  lemma SaveThenRun(j: Journal, w: World, fuel: nat)
    requires fuel > 0
    ensures Run([SaveJournal(j)] + Program(j), w, fuel) ==
      Run(Program(j), w.(durable := w.durable.(pending := Some(j))), fuel - 1)
  {
    hide Run, Program;
    RunFirst(SaveJournal(j), Program(j), w, fuel);
  }

  /** A direct call does nothing, resumes the journal there is, or begins a new one. */
  lemma CallLeaves(w: World, request: Request, stopped: bool, draw: Draw, fuel: nat)
    requires |draw.members| == |request.disks| && FreshDraw(w.durable, draw)
    ensures
      var d, e := w.durable, Apply(w, request, stopped, draw, fuel).0.durable;
      Idle(d, e) || Continues(d, request, e) || Begins(d, request, draw, e)
  {
    hide Run, Program, PlanDevices, ValidRequest, ValidState, Leaves, FreshDraw;
    var d := w.durable;
    var steps := Steps(d, request, stopped, draw);
    if steps.Ok? {
      if d.pending.Some? {
        ResumeLeaves(w, request, stopped, draw, fuel);
      } else if Applied(d, request) {
        assert [Install] + ACTIVATION == [Install] + (ACTIVATION + []);
        RunInstalled(w, [], fuel);
      } else {
        var plans := PlanDevices(d, request, d.state).value;
        var j := NewJournal(d, request, plans, draw);
        RunFirst(SaveJournal(j), Program(j), w, fuel);
        if fuel > 0 {
          SaveThenRun(j, w, fuel);
          ProgramLeaves(j, w.(durable := d.(pending := Some(j))), fuel - 1);
          assert Planned(d, request, plans, draw);
        }
      }
    }
  }

  lemma BootLeaves(w: World, stopped: bool, fuel: nat)
    ensures
      var d, e := w.durable, Boot(w, stopped, fuel).0.durable;
      Idle(d, e) || (d.pending.Some? && Continues(d, d.pending.value.requestDigest, e))
  {
    hide Run, Program, PlanDevices, ValidRequest, ValidState, Leaves;
    var d := w.durable;
    if d.pending.None? {
      assert ACTIVATION + [] == ACTIVATION;
      RunTail(w, [], fuel);
    } else {
      var request := Rebuilt(d.pending.value);
      if request == d.pending.value.requestDigest && stopped {
        ResumeLeaves(w, request, stopped, IdleDraw(request), fuel);
      }
    }
  }

  lemma ResumeLeaves(w: World, request: Request, stopped: bool, draw: Draw, fuel: nat)
    requires |draw.members| == |request.disks| && w.durable.pending.Some?
    ensures
      var d, e := w.durable, Apply(w, request, stopped, draw, fuel).0.durable;
      Idle(d, e) || Continues(d, request, e)
  {
    hide Run, Program, PlanDevices, ValidRequest, ValidState, Leaves;
    var d := w.durable;
    var steps := Steps(d, request, stopped, draw);
    if steps.Ok? {
      if Applied(d, request) {
        assert [Install] + ACTIVATION + [Finish] == [Install] + (ACTIVATION + [Finish]);
        RunInstalled(w, [Finish], fuel);
      } else {
        ProgramLeaves(d.pending.value, w, fuel);
      }
    }
  }

  // ------------------------------------------------------- between any two events

  /** What holds of the disks and the journal between any two events. */
  ghost predicate Invariant(d: Durable) {
    && PvUnique(d.partitions)
    && (d.pending.Some? ==> d.pending.value.requestDigest == d.pending.value.request && Sound(d, d.pending.value))
  }

  lemma SameSound(d: Durable, e: Durable, j: Journal)
    requires Sound(d, j) && e.partitions == d.partitions
    ensures Sound(e, j)
  {
  }

  /** The journal a call begins is resumable from the moment it is written. */
  lemma BeginsSound(d: Durable, request: Request, plans: seq<Plan>, draw: Draw)
    requires Planned(d, request, plans, draw) && Invariant(d)
    ensures Invariant(d.(pending := Some(NewJournal(d, request, plans, draw))))
  {
    var j := NewJournal(d, request, plans, draw);
    NewJournalSound(d, request, plans, draw);
    SameSound(d, d.(pending := Some(j)), j);
  }

  /** Where a journal that was carried some way stands. */
  lemma LeavesAt(d: Durable, j: Journal, e: Durable) returns (n: nat, x: Durable)
    requires Leaves(d, j, e)
    ensures n <= |Prepare(j)| && Walk(Prepare(j)[..n], d) == (x, true)
    ensures x == e || (n == |Prepare(j)| && e == x.(pending := None))
  {
    hide Walk, Prepare;
    if n' :| 0 <= n' <= |Prepare(j)| && Walk(Prepare(j)[..n'], d) == (e, true) {
      n, x := n', e;
    } else {
      PrepareWhole(j, |Prepare(j)|, d);
      n, x := |Prepare(j)|, Walk(Prepare(j), d).0;
    }
  }

  lemma LeavesInvariant(d: Durable, j: Journal, e: Durable)
    requires d.pending == Some(j) && Invariant(d) && Leaves(d, j, e)
    ensures Invariant(e)
  {
    hide Settle, Leaves, Prepare, Ready;
    var n, x := LeavesAt(d, j, e);
    WalkReady(j, n, d);
    WalkFiles(j, n, d);
  }

  lemma ContinuesInvariant(d: Durable, request: Request, e: Durable)
    requires Invariant(d) && (Idle(d, e) || Continues(d, request, e))
    ensures Invariant(e)
  {
    hide Leaves, Applied;
    if d.pending.Some? && Leaves(d, d.pending.value, e) {
      LeavesInvariant(d, d.pending.value, e);
    }
  }

  lemma BeginsInvariant(d: Durable, request: Request, draw: Draw, e: Durable)
    requires Begins(d, request, draw, e) && Invariant(d)
    ensures Invariant(e)
  {
    hide Leaves, PlanDevices, Invariant;
    var plans :| Planned(d, request, plans, draw) &&
      Leaves(d.(pending := Some(NewJournal(d, request, plans, draw))), NewJournal(d, request, plans, draw), e);
    BeginsSound(d, request, plans, draw);
    LeavesInvariant(d.(pending := Some(NewJournal(d, request, plans, draw))), NewJournal(d, request, plans, draw), e);
  }

  lemma HappenInvariant(d: Durable, e: Event)
    requires Admissible(d, e) && Invariant(d)
    ensures Invariant(Happen(d, e))
  {
    hide Apply, Boot, Begins, Leaves, Sound, ValidState;
    var x := Happen(d, e);
    match e
    case Call(request, stopped, draw, fuel, before) =>
      CallLeaves(World(d, before), request, stopped, draw, fuel);
      if Begins(d, request, draw, x) {
        BeginsInvariant(d, request, draw, x);
      } else {
        ContinuesInvariant(d, request, x);
      }
    case BootUp(stopped, fuel, before) =>
      BootLeaves(World(d, before), stopped, fuel);
      if d.pending.Some? {
        ContinuesInvariant(d, d.pending.value.requestDigest, x);
      }
    case _ =>
      if d.pending.Some? {
        SameSound(d, x, d.pending.value);
      }
  }

  /** A history's end keeps the invariant its start had. */
  lemma {:induction false} HistoryInvariant(d0: Durable, events: seq<Event>, d: Durable)
    requires Invariant(d0) && Follows(d0, events, d)
    ensures Invariant(d)
    decreases |events|
  {
    hide Happen, FreshDraw, Invariant;
    if events != [] {
      var last := |events| - 1;
      var m :| Follows(d0, events[..last], m) && Admissible(m, events[last]) && d == Happen(m, events[last]);
      HistoryInvariant(d0, events[..last], m);
      HappenInvariant(m, events[last]);
    }
  }
}
