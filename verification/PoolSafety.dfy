/**
 What no history of the guest can do: write to a disk that was not blank and not its own,
 or lose, shrink or re-create a member of the pool.
 */
module PoolSafety {
  import opened Outcomes
  import opened PoolModel
  import opened PoolSteps
  import opened PoolConvergence
  import opened PoolBuild
  import opened PoolResume
  import opened PoolConverges
  import opened PoolTheorem
  import opened PoolRuns

  // ------------------------------------------------- every command is guarded

  /** The destructive commands and what must be true of their targets. */
  ghost predicate Guarded(j: Journal, c: Command, d: Durable) {
    match c
    case PartitionDisk(disk, uuid) =>
      IsBlankDisk(d, disk) && !d.disks[disk].root &&
      exists m <- j.members :: m.partitionUuid == uuid && m.device == disk && OldMember(j, m).None?
    case CreatePv(k, uuid) =>
      k < |d.partitions| && d.partitions[k].content == Blank && !d.partitions[k].mounted &&
      OnlyPartition(d.partitions, k) && d.partitions[k].disk in d.disks && !d.disks[d.partitions[k].disk].root &&
      exists m <- j.members :: m.pvUuid == uuid && m.partitionUuid == d.partitions[k].uuid && OldMember(j, m).None?
    case MakeFilesystem(group, uuid) =>
      j.oldState.None? && uuid == j.filesystemUuid && OneVolume(d, group) &&
      JournalTags(j) <= d.groups[group].tags && JournalTags(j) <= d.groups[group].volumes[0].tags &&
      d.groups[group].volumes[0].fs.None? && GroupMembers(d.partitions, group) == MemberPvs(j.members)
    case _ => true
  }

  /** Wherever a run of the journal stands, the next command it issues is guarded. */
  lemma EveryCommandGuarded(j: Journal, n: nat, d0: Durable)
    requires Sound(d0, j) && n < |Prepare(j)| && Walk(Prepare(j)[..n], d0).1
    ensures
      var d := Walk(Prepare(j)[..n], d0).0;
      Decide(Prepare(j)[n], d).Ok? ==> Guarded(j, Decide(Prepare(j)[n], d).value, d)
  {
    hide Decide, Settle, Guarded, Walk;
    var d := Walk(Prepare(j)[..n], d0).0;
    WalkReady(j, n, d0);
    var count := 3 * |j.members|;
    if n < count {
      MemberStepAt(j, j.members, n);
      assert Prepare(j)[n] == MemberSteps(j, j.members)[n];
      MemberGuarded(j, j.members[n / 3], Prepare(j)[n], d);
    } else {
      assert Prepare(j)[n] == BuildSteps(j)[n - count];
      BuildGuarded(j, n - count, d);
    }
  }

  lemma BuildGuarded(j: Journal, n: nat, d: Durable)
    requires n < |BuildSteps(j)| && Built(j, n, d)
    ensures Decide(BuildSteps(j)[n], d).Ok? ==> Guarded(j, Decide(BuildSteps(j)[n], d).value, d)
  {
    hide Settle;
    if n == 4 {
      FilesystemGuarded(j, d);
    } else {
      hide Built, GroupSettled, JournalLvm, AllLocated, Located, Additional, SomeoneElses;
      assert BuildSteps(j)[n] != BuildFilesystem(j);
    }
  }

  lemma MemberGuarded(j: Journal, m: Member, s: Step, d: Durable)
    requires m in j.members && IsMemberStep(s, j, m) && KeepsIdentities(j)
    ensures Decide(s, d).Ok? ==> Guarded(j, Decide(s, d).value, d)
  {
    if s.PreparePartition? && DecidePartition(j, m, d).Ok? {
      if OldMember(j, m).None? && Matches(d.partitions, m.partitionUuid) == [] {
        FreshPlan(j, m, d);
      }
    }
  }

  lemma FilesystemGuarded(j: Journal, d: Durable)
    requires Built(j, 4, d)
    ensures DecideFilesystem(j, d).Ok? ==> Guarded(j, DecideFilesystem(j, d).value, d)
  {
  }

  // -------------------------------------------------- disks that are not ours

  ghost predicate Owned(d: Durable, uuid: string) {
    || (d.state.Some? && IsMember(d.state.value.disks, uuid))
    || (d.pending.Some? && IsMember(d.pending.value.members, uuid))
  }

  /** A disk that is not blank and holds no partition of the pool or of the journal. */
  ghost predicate ForeignDisk(d: Durable, disk: string) {
    && disk in d.disks && !IsBlankDisk(d, disk)
    && forall p <- d.partitions :: p.disk == disk ==> !Owned(d, p.uuid)
  }

  /** The group is as it was, with its volumes and their filesystems. */
  ghost predicate SameGroup(d: Durable, e: Durable, group: string) {
    group in d.groups ==> group in e.groups && e.groups[group] == d.groups[group]
  }

  /** Every group that has a physical volume on the disk is as it was. */
  ghost predicate GroupsKept(d: Durable, e: Durable, disk: string) {
    forall p <- d.partitions :: p.disk == disk && p.content.Pv? ==> SameGroup(d, e, p.content.group)
  }

  /** The disk, its partition table, every partition's content and the volumes on them are as they were. */
  ghost predicate Kept(d: Durable, e: Durable, disk: string) {
    && disk in d.disks && disk in e.disks && e.disks[disk] == d.disks[disk]
    && |d.partitions| <= |e.partitions|
    && (forall k :: 0 <= k < |d.partitions| ==>
         e.partitions[k].disk == d.partitions[k].disk && e.partitions[k].uuid == d.partitions[k].uuid &&
         (d.partitions[k].disk == disk ==> e.partitions[k] == d.partitions[k]))
    && (forall k :: |d.partitions| <= k < |e.partitions| ==> e.partitions[k].disk != disk)
    && GroupsKept(d, e, disk)
  }

  lemma GroupsTransitive(a: Durable, b: Durable, c: Durable, disk: string)
    requires Kept(a, b, disk) && Kept(b, c, disk)
    ensures GroupsKept(a, c, disk)
  {
    forall p <- a.partitions | p.disk == disk && p.content.Pv?
      ensures SameGroup(a, c, p.content.group)
    {
      var k :| 0 <= k < |a.partitions| && a.partitions[k] == p;
      assert b.partitions[k] in b.partitions;
      assert SameGroup(a, b, p.content.group) && SameGroup(b, c, p.content.group);
    }
  }

  lemma KeptTransitive(a: Durable, b: Durable, c: Durable, disk: string)
    requires Kept(a, b, disk) && Kept(b, c, disk)
    ensures Kept(a, c, disk)
  {
    hide GroupsKept;
    GroupsTransitive(a, b, c, disk);
    forall k | 0 <= k < |a.partitions|
      ensures c.partitions[k].disk == a.partitions[k].disk && c.partitions[k].uuid == a.partitions[k].uuid
      ensures a.partitions[k].disk == disk ==> c.partitions[k] == a.partitions[k]
    {
      assert b.partitions[k].disk == a.partitions[k].disk;
    }
    forall k | |a.partitions| <= k < |c.partitions|
      ensures c.partitions[k].disk != disk
    {
      if k < |b.partitions| {
        assert c.partitions[k].disk == b.partitions[k].disk;
      }
    }
  }

  /** Not blank, and without a partition of these members. */
  ghost predicate Apart(d: Durable, members: seq<Member>, disk: string) {
    && disk in d.disks && !IsBlankDisk(d, disk)
    && forall p <- d.partitions :: p.disk == disk ==> !IsMember(members, p.uuid)
  }

  lemma KeptApart(d: Durable, e: Durable, members: seq<Member>, disk: string)
    requires Kept(d, e, disk) && Apart(d, members, disk)
    ensures Apart(e, members, disk)
  {
    forall p <- e.partitions | p.disk == disk
      ensures !IsMember(members, p.uuid)
    {
      var k :| 0 <= k < |e.partitions| && e.partitions[k] == p;
      assert d.partitions[k] in d.partitions;
    }
    KeptNotBlank(d, e, disk);
  }

  lemma KeptNotBlank(d: Durable, e: Durable, disk: string)
    requires Kept(d, e, disk) && !IsBlankDisk(d, disk)
    ensures !IsBlankDisk(e, disk)
  {
    if HasPartition(d.partitions, disk) {
      var k :| 0 <= k < |d.partitions| && d.partitions[k].disk == disk;
      assert e.partitions[k] in e.partitions;
    }
  }

  lemma FrameKept(d: Durable, e: Durable, members: seq<Member>, m: Member, disk: string)
    requires MemberFrame(d, e, m.partitionUuid) && m in members && Apart(d, members, disk)
    ensures Kept(d, e, disk)
  {
    forall k | 0 <= k < |d.partitions| && d.partitions[k].disk == disk
      ensures e.partitions[k] == d.partitions[k]
    {
      forall p <- d.partitions | p.uuid == m.partitionUuid && p.disk == disk
        ensures false
      {
        assert IsMember(members, p.uuid);
      }
      assert !OnDiskOf(d.partitions, disk, m.partitionUuid);
    }
    forall k | 0 <= k < |d.partitions|
      ensures e.partitions[k].disk == d.partitions[k].disk && e.partitions[k].uuid == d.partitions[k].uuid
    {
      assert SameIdentity(d.partitions[k], e.partitions[k]);
    }
  }

  lemma GroupKept(j: Journal, d: Durable, e: Durable, disk: string)
    requires Sound(d, j) && MembersReady(j, j.members, d) && Apart(d, j.members, disk)
    requires Settle(BuildGroup(j), d) == Ok(e)
    ensures Kept(d, e, disk)
  {
    hide Settle, DecideGroup, Sound, GroupsKept, MembersReady;
    GroupEffect(j, d, e);
    GroupCreates(j, d, e, disk);
    SoundPvUnique(d, j);
    var c := DecideGroup(j, d).value;
    if c != Nothing {
      forall k | 0 <= k < |d.partitions| && k in c.ks
        ensures d.partitions[k].disk != disk
      {
        if c.ExtendGroup? {
          ReadyOnly(j, d, k);
        }
        var m :| m in j.members && Locate(d, m).Ok? && Locate(d, m).value == k;
        assert IsMember(j.members, d.partitions[k].uuid);
        assert d.partitions[k] in d.partitions;
      }
    }
  }

  /** The group step may create the pool's group, and changes none that exists. */
  lemma GroupCreates(j: Journal, d: Durable, e: Durable, disk: string)
    requires DecideGroup(j, d).Ok? && Effect(DecideGroup(j, d).value, d) == Ok(e)
    ensures GroupsKept(d, e, disk)
  {
    hide SomeoneElses, Additional, AllLocated, Located;
    forall p <- d.partitions | p.disk == disk && p.content.Pv?
      ensures SameGroup(d, e, p.content.group)
    {
      Untouched(DecideGroup(j, d).value, d, e, p.content.group);
    }
  }

  lemma SoundPvUnique(d: Durable, j: Journal)
    requires Sound(d, j)
    ensures PvUnique(d.partitions)
  {
  }

  lemma StepKept(j: Journal, n: nat, d: Durable, e: Durable, disk: string)
    requires n < |Prepare(j)| && Ready(j, n, d) && Sound(d, j) && Apart(d, j.members, disk)
    requires Settle(Prepare(j)[n], d) == Ok(e)
    ensures Kept(d, e, disk)
  {
    hide Settle, Sound;
    var count := 3 * |j.members|;
    if n < count {
      MemberStepAt(j, j.members, n);
      assert Prepare(j)[n] == MemberSteps(j, j.members)[n];
      MemberStepFrame(Prepare(j)[n], j, j.members[n / 3], d, e);
      FrameKept(d, e, j.members, j.members[n / 3], disk);
    } else {
      assert Prepare(j)[n] == BuildSteps(j)[n - count];
      if n == count {
        GroupKept(j, d, e, disk);
      } else {
        BuildSteady(j, n - count, d, e);
        BuildGroups(j, n - count, d, e, disk);
      }
    }
  }

  /** The pool's group holds physical volumes of members only. */
  lemma GroupOfMembers(j: Journal, d: Durable, k: nat)
    requires GroupSettled(j, d) && MembersReady(j, j.members, d) && PvUnique(d.partitions) && k < |d.partitions|
    requires d.partitions[k].content.Pv? && d.partitions[k].content.group == JournalGroup(j)
    ensures IsMember(j.members, d.partitions[k].uuid)
  {
    hide Settle, MembersReady;
    ReadyOnly(j, d, k);
    var m :| m in j.members && Locate(d, m).Ok? && Locate(d, m).value == k;
  }

  lemma GroupElsewhere(j: Journal, d: Durable, disk: string, p: Partition)
    requires GroupSettled(j, d) && MembersReady(j, j.members, d) && PvUnique(d.partitions) && Apart(d, j.members, disk)
    requires p in d.partitions && p.disk == disk && p.content.Pv?
    ensures p.content.group != JournalGroup(j)
  {
    hide Settle, MembersReady, GroupSettled, IsMember;
    var k :| 0 <= k < |d.partitions| && d.partitions[k] == p;
    if p.content.group == JournalGroup(j) {
      GroupOfMembers(j, d, k);
    }
  }

  /** What a command may change of a group that exists. */
  ghost predicate Touches(c: Command, group: string) {
    match c
    case CreateVolume(g, _) => g == group
    case ExtendVolume(g) => g == group
    case MakeFilesystem(g, _) => g == group
    case ResizeFilesystem(g) => g == group
    case _ => false
  }

  lemma Untouched(c: Command, d: Durable, e: Durable, group: string)
    requires Effect(c, d) == Ok(e) && !Touches(c, group)
    ensures SameGroup(d, e, group)
  {
    hide FreeBytes;
  }

  /** After the group step only the pool's own group is touched. */
  lemma BuildTouches(j: Journal, n: nat, d: Durable, group: string)
    requires 0 < n < |BuildSteps(j)| && group != JournalGroup(j) && Decide(BuildSteps(j)[n], d).Ok?
    ensures !Touches(Decide(BuildSteps(j)[n], d).value, group)
  {
    hide JournalLvm, FreeBytes, NextState;
  }

  lemma BuildOther(j: Journal, n: nat, d: Durable, e: Durable, group: string)
    requires 0 < n < |BuildSteps(j)| && Settle(BuildSteps(j)[n], d) == Ok(e) && group != JournalGroup(j)
    ensures SameGroup(d, e, group)
  {
    hide Decide, Effect, Touches, SameGroup;
    BuildTouches(j, n, d, group);
    Untouched(Decide(BuildSteps(j)[n], d).value, d, e, group);
  }

  lemma BuildGroups(j: Journal, n: nat, d: Durable, e: Durable, disk: string)
    requires 0 < n < |BuildSteps(j)| && Built(j, n, d) && Settle(BuildSteps(j)[n], d) == Ok(e)
    requires MembersReady(j, j.members, d) && Sound(d, j) && Apart(d, j.members, disk)
    ensures GroupsKept(d, e, disk)
  {
    hide Settle, MembersReady, Apart, SameGroup, GroupSettled, DecideVolume, DecideFilesystem, JournalLvm;
    SoundPvUnique(d, j);
    forall p <- d.partitions | p.disk == disk && p.content.Pv?
      ensures SameGroup(d, e, p.content.group)
    {
      GroupElsewhere(j, d, disk, p);
      BuildOther(j, n, d, e, p.content.group);
    }
  }

  lemma BuildSteady(j: Journal, n: nat, d: Durable, e: Durable)
    requires 0 < n < |BuildSteps(j)| && Settle(BuildSteps(j)[n], d) == Ok(e)
    ensures e.partitions == d.partitions && e.disks == d.disks
  {
    BuildSteadyCommand(j, n, d);
    SteadyEffect(Decide(BuildSteps(j)[n], d).value, d, e);
  }

  ghost predicate Steady(c: Command) {
    !c.PartitionDisk? && !c.GrowPartition? && !c.CreatePv? && !c.ResizePv? && !c.CreateGroup? && !c.ExtendGroup?
  }

  lemma BuildSteadyCommand(j: Journal, n: nat, d: Durable)
    requires 0 < n < |BuildSteps(j)|
    ensures Decide(BuildSteps(j)[n], d).Ok? ==> Steady(Decide(BuildSteps(j)[n], d).value)
  {
    hide JournalLvm, FreeBytes;
  }

  lemma SteadyEffect(c: Command, d: Durable, e: Durable)
    requires Steady(c) && Effect(c, d) == Ok(e)
    ensures e.partitions == d.partitions && e.disks == d.disks
  {
  }

  lemma {:induction false} WalkKept(j: Journal, n: nat, d: Durable, disk: string)
    requires n <= |Prepare(j)| && Sound(d, j) && Apart(d, j.members, disk) && Walk(Prepare(j)[..n], d).1
    ensures Kept(d, Walk(Prepare(j)[..n], d).0, disk)
  {
    hide Settle, Sound, Ready, Prepare;
    if n > 0 {
      var before := Prepare(j)[..n - 1];
      assert Prepare(j)[..n] == before + [Prepare(j)[n - 1]];
      WalkSplit(before, [Prepare(j)[n - 1]], d);
      WalkKept(j, n - 1, d, disk);
      WalkReady(j, n - 1, d);
      var x := Walk(before, d).0;
      assert [Prepare(j)[n - 1]][1..] == [];
      KeptApart(d, x, j.members, disk);
      var e := Settle(Prepare(j)[n - 1], x).value;
      StepKept(j, n - 1, x, e, disk);
      KeptTransitive(d, x, e, disk);
    }
  }

  // --------------------------------------------------------- over all histories

  lemma ForeignApart(d: Durable, members: seq<Member>, disk: string)
    requires ForeignDisk(d, disk)
    requires forall p <- d.partitions :: IsMember(members, p.uuid) ==> Owned(d, p.uuid)
    ensures Apart(d, members, disk)
  {
  }

  lemma NextOwned(j: Journal, d: Durable, uuid: string)
    requires OneVolume(d, JournalGroup(j))
    ensures IsMember(NextState(j, d).disks, uuid) ==> IsMember(j.members, uuid)
  {
    if IsMember(NextState(j, d).disks, uuid) {
      var m :| m in NextState(j, d).disks && m.partitionUuid == uuid;
      var i :| 0 <= i < |j.members| && NextState(j, d).disks[i] == m;
      assert j.members[i].partitionUuid == uuid;
    }
  }

  /** Carrying the journal any distance leaves a foreign disk alone, and it stays foreign. */
  lemma LeavesKept(d: Durable, j: Journal, e: Durable, disk: string)
    requires d.pending == Some(j) && Invariant(d) && ForeignDisk(d, disk) && Leaves(d, j, e)
    ensures Kept(d, e, disk) && ForeignDisk(e, disk)
  {
    hide Settle, Sound, Prepare;
    ForeignApart(d, j.members, disk);
    var n, x := LeavesAt(d, j, e);
    WalkKept(j, n, d, disk);
    WalkFiles(j, n, d);
    WalkOwned(j, n, d);
    KeptApart(d, x, j.members, disk);
    forall p <- e.partitions | p.disk == disk
      ensures !Owned(e, p.uuid)
    {
      var k :| 0 <= k < |e.partitions| && e.partitions[k] == p;
      assert d.partitions[k] in d.partitions;
      assert !Owned(d, p.uuid);
    }
  }

  /** The committed state names no partition the journal did not. */
  lemma WalkOwned(j: Journal, n: nat, d: Durable)
    requires n <= |Prepare(j)| && Sound(d, j) && Walk(Prepare(j)[..n], d).1
    ensures
      var e := Walk(Prepare(j)[..n], d).0;
      e.state == d.state ||
        (e.state.Some? && forall uuid :: IsMember(e.state.value.disks, uuid) ==> IsMember(j.members, uuid))
  {
    hide Settle, Sound, Prepare, MembersReady;
    WalkFiles(j, n, d);
    if n == |Prepare(j)| {
      WalkReady(j, n, d);
      var e := Walk(Prepare(j)[..n], d).0;
      CommittedState(j, e);
      forall uuid | IsMember(e.state.value.disks, uuid)
        ensures IsMember(j.members, uuid)
      {
        NextOwned(j, e, uuid);
      }
    }
  }

  lemma CommittedState(j: Journal, e: Durable)
    requires Ready(j, |Prepare(j)|, e)
    ensures OneVolume(e, JournalGroup(j)) && e.state == Some(NextState(j, e))
    ensures j.oldState.Some? ==>
      e.state.value.vgUuid == j.oldState.value.vgUuid && e.state.value.lvUuid == j.oldState.value.lvUuid
  {
    assert Built(j, 8, e);
  }

  lemma IdleKept(d: Durable, e: Durable, disk: string)
    requires Idle(d, e) || Idle(d.(pending := None), e)
    requires Invariant(d) && ForeignDisk(d, disk)
    ensures Kept(d, e, disk) && ForeignDisk(e, disk)
  {
  }

  lemma BeginsKept(d: Durable, request: Request, draw: Draw, e: Durable, disk: string)
    requires Begins(d, request, draw, e) && Invariant(d) && ForeignDisk(d, disk)
    ensures Kept(d, e, disk) && ForeignDisk(e, disk)
  {
    hide Leaves, Sound, PlanDevices;
    var plans :| Planned(d, request, plans, draw) &&
      Leaves(d.(pending := Some(NewJournal(d, request, plans, draw))), NewJournal(d, request, plans, draw), e);
    var j := NewJournal(d, request, plans, draw);
    var x := d.(pending := Some(j));
    BeginsSound(d, request, plans, draw);
    forall p <- d.partitions | IsMember(j.members, p.uuid)
      ensures Owned(d, p.uuid)
    {
      NewMembersOwned(d, request, plans, draw, p);
    }
    LeavesKept(x, j, e, disk);
  }

  lemma NewMembersOwned(d: Durable, request: Request, plans: seq<Plan>, draw: Draw, p: Partition)
    requires Planned(d, request, plans, draw) && p in d.partitions
    requires IsMember(NewJournal(d, request, plans, draw).members, p.uuid)
    ensures Owned(d, p.uuid)
  {
    var members := NewJournal(d, request, plans, draw).members;
    var i := MemberIndex(members, p.uuid);
    NewMemberPlace(d, request, plans, draw, i);
    NewMemberKeeps(d, request, plans, draw, i);
    var known := FindMember(OldMembers(d.state), request.disks[i].id);
    assert known.Some?;
    assert known.value in d.state.value.disks;
  }

  lemma HappenKept(d: Durable, e: Event, disk: string)
    requires Admissible(d, e) && Invariant(d) && ForeignDisk(d, disk)
    ensures Kept(d, Happen(d, e), disk) && ForeignDisk(Happen(d, e), disk)
  {
    hide Apply, Boot, Begins, Leaves, Kept, Invariant, ForeignDisk;
    var x := Happen(d, e);
    match e
    case Call(request, stopped, draw, fuel, before) =>
      CallLeaves(World(d, before), request, stopped, draw, fuel);
      CallKept(d, request, draw, x, disk);
    case BootUp(stopped, fuel, before) =>
      BootLeaves(World(d, before), stopped, fuel);
      if d.pending.Some? {
        ContinuesKept(d, d.pending.value.requestDigest, x, disk);
      } else {
        IdleKept(d, x, disk);
      }
    case Retire(poolId, stopped, fuel) => RetiredKept(d, poolId, stopped, fuel, disk);
    case MarkMigrated => MigratedKept(d, x, disk);
  }

  lemma ContinuesKept(d: Durable, request: Request, e: Durable, disk: string)
    requires Idle(d, e) || Continues(d, request, e)
    requires Invariant(d) && ForeignDisk(d, disk)
    ensures Kept(d, e, disk) && ForeignDisk(e, disk)
  {
    hide Leaves, Kept, Invariant, ForeignDisk;
    if d.pending.Some? && Leaves(d, d.pending.value, e) {
      LeavesKept(d, d.pending.value, e, disk);
    } else {
      IdleKept(d, e, disk);
    }
  }

  lemma CallKept(d: Durable, request: Request, draw: Draw, e: Durable, disk: string)
    requires Idle(d, e) || Continues(d, request, e) || Begins(d, request, draw, e)
    requires Invariant(d) && ForeignDisk(d, disk)
    ensures Kept(d, e, disk) && ForeignDisk(e, disk)
  {
    hide Continues, Begins, Kept, Invariant, ForeignDisk;
    if Begins(d, request, draw, e) {
      BeginsKept(d, request, draw, e, disk);
    } else {
      ContinuesKept(d, request, e, disk);
    }
  }

  lemma RetiredKept(d: Durable, poolId: string, stopped: bool, fuel: nat, disk: string)
    requires Invariant(d) && ForeignDisk(d, disk)
    ensures
      var e := Retired(d, poolId, stopped, fuel);
      Kept(d, e, disk) && ForeignDisk(e, disk)
  {
    hide ValidState;
  }

  lemma MigratedKept(d: Durable, e: Durable, disk: string)
    requires e == Happen(d, MarkMigrated) && Invariant(d) && ForeignDisk(d, disk)
    ensures Kept(d, e, disk) && ForeignDisk(e, disk)
  {
    hide ValidState;
  }

  /**
   No foreign data is written: over every history of requests, boots, retirements and power
   losses, a disk that was not blank and not the pool's keeps its table and all its contents.
   */
  lemma {:induction false} ForeignDisksKept(d0: Durable, events: seq<Event>, d: Durable, disk: string)
    requires Invariant(d0) && ForeignDisk(d0, disk) && Follows(d0, events, d)
    ensures Kept(d0, d, disk) && ForeignDisk(d, disk)
    decreases |events|
  {
    hide Happen, FreshDraw, Invariant, ForeignDisk;
    if events != [] {
      var last := |events| - 1;
      var m :| Follows(d0, events[..last], m) && Admissible(m, events[last]) && d == Happen(m, events[last]);
      ForeignDisksKept(d0, events[..last], m, disk);
      HistoryInvariant(d0, events[..last], m);
      HappenKept(m, events[last], disk);
      KeptTransitive(d0, m, d, disk);
    } else {
      KeptSame(d0, disk);
    }
  }

  lemma KeptSame(d: Durable, disk: string)
    requires ForeignDisk(d, disk)
    ensures Kept(d, d, disk)
  {
  }
}
