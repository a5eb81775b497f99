/** What boot and retirement make of any disks at all: when the saved pool is mounted, and what is removed. */
module PoolBoot {
  import opened Outcomes
  import opened PoolModel
  import opened PoolSteps
  import opened PoolConverges
  import opened PoolRuns
  import opened PoolOutcome
  import PoolFirst

  /** The group of the saved pool, with its one volume, under its recorded identities, of its members only. */
  ghost predicate OwnGroup(d: Durable, s: State) {
    var name := GroupName(s.poolId);
    && OneVolume(d, name) && d.groups[name].uuid == s.vgUuid
    && "nh-owner-" + Hex(s.deviceId) in d.groups[name].tags && "nh-pool-" + Hex(s.poolId) in d.groups[name].tags
    && (var v := d.groups[name].volumes[0]; v.name == "worker" && v.linear && v.uuid == s.lvUuid)
    && OnlyMembers(d.partitions, name, s.disks) && EveryMember(d.partitions, name, s.disks)
  }

  predicate InGroup(p: Partition, group: string) { p.content.Pv? && p.content.group == group }

  /** The saved state is sound, each member is where its partition is, and the group is the pool's own. */
  ghost predicate Intact(d: Durable) {
    && d.state.Some?
    && var s := d.state.value;
    && GoodState(s, d.owner) && OwnGroup(d, s)
    && exists places :: Places(d, AsDisks(s.disks), s.disks, {}, places)
  }

  ghost predicate OnlyMembers(partitions: seq<Partition>, name: string, members: seq<Member>) {
    forall p <- partitions :: InGroup(p, name) ==> exists m <- members :: m.pvUuid == p.content.uuid
  }

  ghost predicate EveryMember(partitions: seq<Partition>, name: string, members: seq<Member>) {
    forall m <- members :: exists p <- partitions :: InGroup(p, name) && p.content.uuid == m.pvUuid
  }

  lemma OnlyIs(partitions: seq<Partition>, name: string, members: seq<Member>)
    ensures GroupMembers(partitions, name) <= MemberPvs(members) <==> OnlyMembers(partitions, name, members)
  {
    if GroupMembers(partitions, name) <= MemberPvs(members) {
      forall p <- partitions | InGroup(p, name)
        ensures exists m <- members :: m.pvUuid == p.content.uuid
      {
        assert p.content.uuid in GroupMembers(partitions, name);
      }
    }
  }

  lemma EveryIs(partitions: seq<Partition>, name: string, members: seq<Member>)
    ensures MemberPvs(members) <= GroupMembers(partitions, name) <==> EveryMember(partitions, name, members)
  {
    if MemberPvs(members) <= GroupMembers(partitions, name) {
      forall m <- members
        ensures exists p <- partitions :: InGroup(p, name) && p.content.uuid == m.pvUuid
      {
        assert m.pvUuid in MemberPvs(members);
      }
    }
  }

  lemma TagsIn(deviceId: string, poolId: string, tags: set<string>)
    ensures OwnerTags(deviceId, poolId) <= tags <==>
      "nh-owner-" + Hex(deviceId) in tags && "nh-pool-" + Hex(poolId) in tags
  {
    hide Hex;
    if OwnerTags(deviceId, poolId) <= tags {
      assert "nh-owner-" + Hex(deviceId) in OwnerTags(deviceId, poolId);
      assert "nh-pool-" + Hex(poolId) in OwnerTags(deviceId, poolId);
    }
  }

  lemma GroupIs(d: Durable, s: State)
    ensures ValidLvm(d, s.deviceId, s.poolId, s.disks, Some((s.vgUuid, s.lvUuid))) <==> OwnGroup(d, s)
  {
    hide Hex, GroupMembers, MemberPvs, OwnerTags, OnlyMembers, EveryMember, GroupName;
    var name := GroupName(s.poolId);
    OnlyIs(d.partitions, name, s.disks);
    EveryIs(d.partitions, name, s.disks);
    if name in d.groups {
      TagsIn(s.deviceId, s.poolId, d.groups[name].tags);
    }
  }

  /** activate_pool's inspection passes exactly when the saved pool is intact. */
  lemma IntactIs(d: Durable)
    ensures Activatable(d) <==> Intact(d)
  {
    hide ValidState, GoodState, ValidLvm, OwnGroup, Places, PlanDisks, ValidRequest, ValidTransition;
    if d.state.Some? {
      var s := d.state.value;
      StateIs(s, d.owner);
      GroupIs(d, s);
      PoolFirst.SavedTransition(s);
      assert ValidState(s, d.owner) ==> ValidRequest(AsRequest(s), s.deviceId) by { SameOwner(s, d.owner); }
      if PlanDisks(d, AsDisks(s.disks), s.disks, {}).Ok? {
        PlannedPlaces(d, AsDisks(s.disks), s.disks, {});
      }
      if places :| Places(d, AsDisks(s.disks), s.disks, {}, places) {
        PlacesPlanned(d, AsDisks(s.disks), s.disks, {}, places);
      }
    }
  }

  lemma SameOwner(s: State, owner: string)
    ensures ValidState(s, owner) ==> ValidRequest(AsRequest(s), s.deviceId)
  {
    hide IsUuid, ValidDisk;
  }

  /** The filesystem the state records is on the pool's volume, and nothing lies under its mount point. */
  ghost predicate ReadyToMount(d: Durable, s: State) {
    && d.poolDirectoryEmpty && OneVolume(d, GroupName(s.poolId))
    && match d.groups[GroupName(s.poolId)].volumes[0].fs
       case None => false
       case Some(fs) => fs.kind == "ext4" && fs.uuid == s.filesystemUuid
  }

  /** Mounted already as the state records it, or ready to be. */
  ghost predicate MountsSaved(w: World)
    requires w.durable.state.Some?
  {
    match w.volatile.mount
    case Some(mount) => mount == Mount("ext4", w.durable.state.value.filesystemUuid, true)
    case None => ReadyToMount(w.durable, w.durable.state.value)
  }

  /**
   Boot without a journal changes no disk. Given power for its two steps it ends with the recorded
   filesystem mounted exactly when the saved pool is intact and that filesystem is there or mounted.
   */
  lemma BootIs(w: World, stopped: bool, fuel: nat)
    requires w.durable.pending.None?
    ensures
      var (x, status) := Boot(w, stopped, fuel);
      && x.durable == w.durable
      && (fuel >= 2 ==> status != Crashed && (status == Done <==> Intact(w.durable) && MountsSaved(w)))
      && (status == Done ==>
        x.volatile == Volatile(true, Some(Mount("ext4", w.durable.state.value.filesystemUuid, true))))
  {
    hide Intact, Activatable, Perform;
    IntactIs(w.durable);
    RunFirst(Activate, [AttachMount], w, fuel);
    assert [Activate] + [AttachMount] == ACTIVATION;
    PerformActivate(w);
    if fuel > 0 && Activatable(w.durable) {
      var warm := Warm(w);
      assert [AttachMount] + [] == [AttachMount];
      RunFirst(AttachMount, [], warm, fuel - 1);
      assert w.durable.state.Some? by { HasState(w.durable); }
      AttachIs(warm);
    }
  }

  lemma HasState(d: Durable)
    requires Activatable(d)
    ensures d.state.Some?
  {
    hide ValidState, PlanDevices, ValidLvm;
  }

  lemma AttachIs(w: World)
    requires w.durable.state.Some? && w.volatile.active
    ensures Perform(AttachMount, w).Ok? <==> MountsSaved(w)
    ensures Perform(AttachMount, w).Ok? ==>
      Perform(AttachMount, w).value ==
        World(w.durable, Volatile(true, Some(Mount("ext4", w.durable.state.value.filesystemUuid, true))))
  {
  }

  /** With a journal pending boot is the direct call it can rebuild, and otherwise nothing. */
  lemma BootResumes(w: World, stopped: bool, fuel: nat)
    requires w.durable.pending.Some?
    ensures
      var j := w.durable.pending.value;
      var request := Request(j.request.format, j.request.deviceId, j.request.poolId, j.request.generation,
        j.request.disks, map[]);
      Boot(w, stopped, fuel) ==
        if stopped && GoodRequest(request, w.durable.owner) && j.requestDigest == request
        then Apply(w, request, true, IdleDraw(request), fuel) else (w, Rejected)
  {
    hide ValidRequest, GoodRequest, Apply;
    var j := w.durable.pending.value;
    RequestIs(Rebuilt(j), w.durable.owner);
  }

  /** The pool of this id is the saved one, and the worker is stopped. */
  ghost predicate MayRetire(d: Durable, poolId: string, stopped: bool) {
    stopped && d.state.Some? && GoodState(d.state.value, d.owner) && d.state.value.poolId == poolId
  }

  /**
   Retirement touches the service, the state file and the journal only, in this order, and only of the
   pool it was asked for; with power for its four steps all three are gone.
   */
  lemma RetiredIs(d: Durable, poolId: string, stopped: bool, fuel: nat)
    ensures
      var e := Retired(d, poolId, stopped, fuel);
      && e == d.(serviceInstalled := e.serviceInstalled, state := e.state, pending := e.pending)
      && (!MayRetire(d, poolId, stopped) ==> e == d)
      && (MayRetire(d, poolId, stopped) ==>
           && (e.serviceInstalled ==> e == d)
           && (e.state == d.state || e.state == None)
           && (e.pending == d.pending || (e.pending == None && e.state == None))
           && (fuel > 3 ==> !e.serviceInstalled && e.state == None && e.pending == None)
           && (fuel < 3 ==> e.state == d.state) && (fuel < 4 ==> e.pending == d.pending))
  {
    hide ValidState, GoodState;
    if d.state.Some? {
      StateIs(d.state.value, d.owner);
    }
  }

  /** Marking a migration complete sets that flag of a sound saved state, and changes nothing else. */
  lemma MarkedIs(d: Durable)
    ensures
      var e := Happen(d, MarkMigrated);
      if d.state.Some? && GoodState(d.state.value, d.owner) then
        && e == d.(state := e.state) && e.state.Some? && e.state.value.migrationComplete
        && e.state.value.(migrationComplete := d.state.value.migrationComplete) == d.state.value
      else e == d
  {
    hide ValidState, GoodState;
    if d.state.Some? {
      StateIs(d.state.value, d.owner);
    }
  }
}
