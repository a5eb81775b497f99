/** Along every history without retirement the recorded pool only grows. */
module PoolMonotone {
  import opened Outcomes
  import opened PoolModel
  import opened PoolSteps
  import opened PoolConvergence
  import opened PoolBuild
  import opened PoolResume
  import opened PoolConverges
  import opened PoolTheorem
  import opened PoolRuns
  import opened PoolSafety

  ghost predicate HasMember(members: seq<Member>, m: Member) {
    exists n <- members :: n.id == m.id && n.partitionUuid == m.partitionUuid && n.pvUuid == m.pvUuid &&
      n.allocationBytes >= m.allocationBytes
  }

  ghost predicate Covers(members: seq<Member>, known: seq<Member>) {
    forall m <- known :: HasMember(members, m)
  }

  /** The later state is the same pool, no older, with every member kept under its identity. */
  ghost predicate Extends(s: State, t: State) {
    && t.deviceId == s.deviceId && t.poolId == s.poolId && t.filesystemUuid == s.filesystemUuid
    && t.vgUuid == s.vgUuid && t.lvUuid == s.lvUuid
    && s.generation <= t.generation
    && Covers(t.disks, s.disks)
  }

  ghost predicate StateExtends(a: Option<State>, b: Option<State>) {
    a.Some? ==> b.Some? && Extends(a.value, b.value)
  }

  lemma CoversTransitive(a: seq<Member>, b: seq<Member>, c: seq<Member>)
    requires Covers(b, a) && Covers(c, b)
    ensures Covers(c, a)
  {
    forall m <- a
      ensures HasMember(c, m)
    {
      assert HasMember(b, m);
      var n :| n in b && n.id == m.id && n.partitionUuid == m.partitionUuid && n.pvUuid == m.pvUuid &&
        n.allocationBytes >= m.allocationBytes;
      assert HasMember(c, n);
    }
  }

  lemma CoversSelf(a: seq<Member>)
    ensures Covers(a, a)
  {
    forall m <- a
      ensures HasMember(a, m)
    {
      assert m in a;
    }
  }

  lemma StateExtendsTransitive(a: Option<State>, b: Option<State>, c: Option<State>)
    requires StateExtends(a, b) && StateExtends(b, c)
    ensures StateExtends(a, c)
  {
    if a.Some? {
      CoversTransitive(a.value.disks, b.value.disks, c.value.disks);
    }
  }

  lemma StateExtendsSelf(a: Option<State>)
    ensures StateExtends(a, a)
  {
    if a.Some? {
      CoversSelf(a.value.disks);
    }
  }

  /** What the journal promises to commit extends the state it was written over. */
  ghost predicate Promises(j: Journal) {
    j.oldState.Some? ==>
      var s := j.oldState.value;
      && j.request.deviceId == s.deviceId && j.request.poolId == s.poolId && j.filesystemUuid == s.filesystemUuid
      && s.generation <= j.request.generation
      && Covers(j.members, s.disks)
  }

  function Unmigrated(s: Option<State>): Option<State> {
    if s.Some? then Some(s.value.(migrationComplete := false)) else None
  }

  /** The journal's record of the old state is current, or its own state is already committed. */
  ghost predicate Current(d: Durable) {
    d.pending.Some? ==>
      var j := d.pending.value;
      Promises(j) && (Unmigrated(d.state) == Unmigrated(j.oldState) || Applied(d, j.requestDigest))
  }

  ghost predicate Orderly(d: Durable) {
    Invariant(d) && Current(d)
  }

  lemma NewJournalPromises(d: Durable, request: Request, plans: seq<Plan>, draw: Draw)
    requires Planned(d, request, plans, draw) && (d.state.Some? ==> ValidState(d.state.value, d.owner))
    ensures Promises(NewJournal(d, request, plans, draw))
  {
    var j := NewJournal(d, request, plans, draw);
    if d.state.Some? {
      var s := d.state.value;
      forall m <- s.disks
        ensures HasMember(j.members, m)
      {
        var disk :| disk in request.disks && disk.id == m.id && !disk.initialize &&
          disk.allocationBytes >= m.allocationBytes;
        var i :| 0 <= i < |request.disks| && request.disks[i] == disk;
        NewMemberKeeps(d, request, plans, draw, i);
        UniqueIds(s, d.owner, m);
        assert FindMember(s.disks, disk.id) == Some(m);
        assert j.members[i] in j.members;
      }
    }
  }

  lemma UniqueIds(s: State, owner: string, m: Member)
    requires ValidState(s, owner) && m in s.disks
    ensures FindMember(s.disks, m.id) == Some(m)
  {
    var i :| 0 <= i < |s.disks| && s.disks[i] == m;
    var found := FindMember(s.disks, m.id);
    assert found.Some?;
    var k :| 0 <= k < |s.disks| && s.disks[k] == found.value;
    var disks := AsRequest(s).disks;
    assert disks[i].id == disks[k].id;
    assert !(i < k) && !(k < i);
  }

  lemma SettledCovers(j: Journal, e: Durable)
    requires OneVolume(e, JournalGroup(j))
    ensures Covers(NextState(j, e).disks, j.members)
  {
    var t := NextState(j, e);
    forall m <- j.members
      ensures HasMember(t.disks, m)
    {
      var i :| 0 <= i < |j.members| && j.members[i] == m;
      assert t.disks[i] in t.disks;
    }
  }

  lemma CommitExtends(j: Journal, e: Durable)
    requires Promises(j) && Ready(j, |Prepare(j)|, e)
    ensures StateExtends(j.oldState, e.state)
  {
    hide Ready;
    CommittedState(j, e);
    SettledCovers(j, e);
    if j.oldState.Some? {
      CoversTransitive(j.oldState.value.disks, j.members, e.state.value.disks);
    }
  }

  lemma UnmigratedExtends(a: Option<State>, b: Option<State>)
    requires Unmigrated(a) == Unmigrated(b)
    ensures StateExtends(a, b)
  {
    StateExtendsSelf(a);
  }

  lemma LeavesExtends(d: Durable, j: Journal, e: Durable)
    requires d.pending == Some(j) && Orderly(d) && Leaves(d, j, e) && !Applied(d, j.requestDigest)
    ensures StateExtends(d.state, e.state) && Current(e)
  {
    hide Settle, Sound, Prepare, MembersReady, Ready, Extends;
    var n, x := LeavesAt(d, j, e);
    WalkFiles(j, n, d);
    if n == |Prepare(j)| {
      WalkReady(j, n, d);
      CommitExtends(j, x);
      UnmigratedExtends(d.state, j.oldState);
      StateExtendsTransitive(d.state, j.oldState, x.state);
    } else {
      StateExtendsSelf(d.state);
    }
  }

  lemma ContinuesExtends(d: Durable, request: Request, e: Durable)
    requires Orderly(d) && (Idle(d, e) || Continues(d, request, e))
    ensures StateExtends(d.state, e.state) && Current(e)
  {
    hide Leaves, Extends, Invariant;
    StateExtendsSelf(d.state);
    if !Idle(d, e) && !Applied(d, request) {
      LeavesExtends(d, d.pending.value, e);
    }
  }

  lemma BeginsExtends(d: Durable, request: Request, draw: Draw, e: Durable)
    requires Orderly(d) && Begins(d, request, draw, e)
    ensures StateExtends(d.state, e.state) && Current(e)
  {
    hide Leaves, Extends, PlanDevices, Invariant, ValidState;
    var plans :| Planned(d, request, plans, draw) &&
      Leaves(d.(pending := Some(NewJournal(d, request, plans, draw))), NewJournal(d, request, plans, draw), e);
    var j := NewJournal(d, request, plans, draw);
    BeginsSound(d, request, plans, draw);
    NewJournalPromises(d, request, plans, draw);
    LeavesExtends(d.(pending := Some(j)), j, e);
  }

  lemma MigratedExtends(d: Durable)
    requires Current(d)
    ensures StateExtends(d.state, Happen(d, MarkMigrated).state) && Current(Happen(d, MarkMigrated))
  {
    hide ValidState;
    StateExtendsSelf(d.state);
  }

  lemma HappenExtends(d: Durable, e: Event)
    requires Admissible(d, e) && Orderly(d) && !e.Retire?
    ensures StateExtends(d.state, Happen(d, e).state) && Orderly(Happen(d, e))
  {
    hide Apply, Boot, Begins, Leaves, StateExtends, Invariant, Current;
    HappenInvariant(d, e);
    var x := Happen(d, e);
    match e
    case Call(request, stopped, draw, fuel, before) =>
      CallLeaves(World(d, before), request, stopped, draw, fuel);
      if Begins(d, request, draw, x) {
        BeginsExtends(d, request, draw, x);
      } else {
        ContinuesExtends(d, request, x);
      }
    case BootUp(stopped, fuel, before) =>
      BootLeaves(World(d, before), stopped, fuel);
      if d.pending.Some? {
        ContinuesExtends(d, d.pending.value.requestDigest, x);
      } else {
        ContinuesExtends(d, Request(0, "", "", 0, [], map[]), x);
      }
    case MarkMigrated => MigratedExtends(d);
  }

  /**
   The pool only grows: along every history without retirement the generation never falls, no
   member is removed, re-created or shrunk, and partition, physical-volume, group, volume and
   filesystem identities never change.
   */
  lemma {:induction false} PoolOnlyGrows(d0: Durable, events: seq<Event>, d: Durable)
    requires Orderly(d0) && Follows(d0, events, d)
    requires forall e <- events :: !e.Retire?
    ensures StateExtends(d0.state, d.state) && Orderly(d)
    decreases |events|
  {
    hide Happen, FreshDraw, Orderly, StateExtends;
    if events == [] {
      StateExtendsSelf(d0.state);
    } else {
      var last := |events| - 1;
      var m :| Follows(d0, events[..last], m) && Admissible(m, events[last]) && d == Happen(m, events[last]);
      PoolOnlyGrows(d0, events[..last], m);
      assert events[last] in events;
      HappenExtends(m, events[last]);
      StateExtendsTransitive(d0.state, m.state, d.state);
    }
  }

  /** While a journal is pending, a direct call with any other request changes nothing. */
  lemma OtherRequestRefused(w: World, request: Request, stopped: bool, draw: Draw, fuel: nat)
    requires |draw.members| == |request.disks|
    requires w.durable.pending.Some? && w.durable.pending.value.requestDigest != request
    ensures Apply(w, request, stopped, draw, fuel) == (w, Rejected)
  {
    hide ValidRequest, ValidState, PlanDevices;
  }

  /** The journal an accepted request writes is one the convergence theorem starts from. */
  lemma BeginsStarted(d: Durable, request: Request, plans: seq<Plan>, draw: Draw)
    requires Planned(d, request, plans, draw) && Invariant(d)
    requires ValidRequest(request, d.owner) && (d.state.Some? ==> ValidState(d.state.value, d.owner))
    requires !Applied(d, request) && d.poolDirectoryEmpty
    ensures Started(d.(pending := Some(NewJournal(d, request, plans, draw))), NewJournal(d, request, plans, draw))
  {
    hide PlanDevices, ValidRequest, ValidState;
    BeginsSound(d, request, plans, draw);
  }

  /** The saved state, field by field: the journal's request, each member where it stands, and the group as it is. */
  ghost predicate SavedFrom(j: Journal, d: Durable) {
    var name := JournalGroup(j);
    && d.state.Some? && OneVolume(d, name)
    && var s := d.state.value;
    && s.deviceId == j.request.deviceId && s.poolId == j.request.poolId
    && s.generation == j.request.generation && s.filesystemUuid == j.filesystemUuid
    && s.applied == Some(j.requestDigest)
    && s.migrationComplete == (j.oldState.Some? && j.oldState.value.migrationComplete)
    && s.vgUuid == d.groups[name].uuid && s.lvUuid == d.groups[name].volumes[0].uuid
    && |s.disks| == |j.members|
    && forall i :: 0 <= i < |j.members| ==>
         Locate(d, j.members[i]).Ok? &&
         s.disks[i] == j.members[i].(device := d.partitions[Locate(d, j.members[i]).value].disk)
  }

  /** What a finished journal leaves: every member under its journaled identities, one filled volume, one state. */
  ghost predicate BuiltPool(j: Journal, d: Durable) {
    var name := JournalGroup(j);
    && (forall m <- j.members ::
         Locate(d, m).Ok? &&
         var p := d.partitions[Locate(d, m).value];
         p.content == Pv(m.pvUuid, name, p.sizeBytes))
    && OneVolume(d, name) && JournalTags(j) <= d.groups[name].tags
    && FreeBytes(d, name) <= 0
    && GroupMembers(d.partitions, name) == MemberPvs(j.members)
    && (var v := d.groups[name].volumes[0];
        v.name == VOLUME_NAME && v.linear && v.fs == Some(Filesystem("ext4", j.filesystemUuid, v.sizeBytes)))
    && SavedFrom(j, d) && d.serviceInstalled
  }

  lemma CommitSaves(j: Journal, c: Durable)
    requires OneVolume(c, JournalGroup(j)) && c.state == Some(NextState(j, c))
    requires forall m <- j.members :: Locate(c, m).Ok?
    ensures SavedFrom(j, c)
  {
    hide Matches;
    forall i | 0 <= i < |j.members|
      ensures Locate(c, j.members[i]).Ok?
    {
      assert j.members[i] in j.members;
    }
  }

  lemma PreparedPool(j: Journal, c: Durable)
    requires Ready(j, |Prepare(j)|, c)
    ensures BuiltPool(j, c)
  {
    hide PlanDevices, SavedFrom, NextState;
    assert Built(j, 8, c);
    FittedSize(j, c);
    forall m <- j.members
      ensures Locate(c, m).Ok?
      ensures c.partitions[Locate(c, m).value].content ==
        Pv(m.pvUuid, JournalGroup(j), c.partitions[Locate(c, m).value].sizeBytes)
    {
      FitSettled(m, j, c);
      assert m.pvUuid in MemberPvs(j.members);
    }
    CommitSaves(j, c);
  }

  lemma FinishedPool(j: Journal, d0: Durable)
    requires Started(d0, j) && Target(d0, j).1 == Done
    ensures BuiltPool(j, Target(d0, j).0) && Target(d0, j).0.pending == None
  {
    hide Settle, Activatable, Ready;
    PrepareWhole(j, |Prepare(j)|, d0);
    WalkReady(j, |Prepare(j)|, d0);
    PreparedPool(j, Walk(Prepare(j), d0).0);
    SamePool(j, Walk(Prepare(j), d0).0);
  }

  lemma SamePool(j: Journal, c: Durable)
    requires BuiltPool(j, c)
    ensures BuiltPool(j, c.(pending := None))
  {
    hide Matches;
    var d := c.(pending := None);
    forall m: Member
      ensures Locate(d, m) == Locate(c, m)
    {
    }
  }

  /**
   The committed flag is the one the journal recorded when it was written: a migration marked
   complete while the journal was pending is forgotten.
   */
  lemma PendingForgetsMigration(j: Journal, d0: Durable)
    requires Started(d0, j) && Target(d0, j).1 == Done
    ensures Target(d0, j).0.state.Some?
    ensures Target(d0, j).0.state.value.migrationComplete <==> j.oldState.Some? && j.oldState.value.migrationComplete
  {
    hide Settle, Activatable, Ready, BuiltPool;
    PrepareWhole(j, |Prepare(j)|, d0);
    WalkReady(j, |Prepare(j)|, d0);
    CommittedState(j, Walk(Prepare(j), d0).0);
  }
}
