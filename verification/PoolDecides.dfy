/** What each step of the journal decides from the disks it finds: when it refuses, and which command it issues. */
module PoolDecides {
  import opened Outcomes
  import opened PoolModel
  import opened PoolSteps
  import opened PoolConvergence
  import opened PoolOutcome
  import opened PoolBoot

  /** The only partition with this uuid. */
  ghost predicate OnlyOne(partitions: seq<Partition>, k: nat, uuid: string) {
    && k < |partitions| && partitions[k].uuid == uuid
    && forall l :: 0 <= l < |partitions| && l != k ==> partitions[l].uuid != uuid
  }

  lemma LocateIs(d: Durable, m: Member)
    ensures forall k: nat :: OnlyOne(d.partitions, k, m.partitionUuid) ==> Locate(d, m) == Ok(k)
    ensures Locate(d, m).Ok? ==> OnlyOne(d.partitions, Locate(d, m).value, m.partitionUuid)
  {
    hide Matches;
    var matches := Matches(d.partitions, m.partitionUuid);
    forall k: nat | OnlyOne(d.partitions, k, m.partitionUuid)
      ensures matches == [k]
    {
      OneIs(d.partitions, k, m.partitionUuid);
    }
    if |matches| == 1 {
      OneMatch(d.partitions, m.partitionUuid);
    }
  }

  lemma OneIs(partitions: seq<Partition>, k: nat, uuid: string)
    requires OnlyOne(partitions, k, uuid)
    ensures Matches(partitions, uuid) == [k]
  {
    hide Matches;
    var all := Matches(partitions, uuid);
    assert k in all;
    forall i | 0 <= i < |all|
      ensures all[i] == k
    {
      assert partitions[all[i]].uuid == uuid;
    }
    assert all[0] == k && all[|all| - 1] == k;
  }

  /** A member is fitted exactly where its only partition holds its volume. */
  lemma FitIs(m: Member, d: Durable)
    ensures DecideFit(m, d).Ok? <==> exists k: nat :: OnlyOne(d.partitions, k, m.partitionUuid) && Holds(d, k, m)
    ensures forall k: nat :: OnlyOne(d.partitions, k, m.partitionUuid) && Holds(d, k, m) ==>
      DecideFit(m, d) == Ok(ResizePv(k))
  {
    hide Locate;
    LocateIs(d, m);
    if DecideFit(m, d).Ok? {
      assert Holds(d, Locate(d, m).value, m);
    }
  }

  ghost predicate Holds(d: Durable, k: nat, m: Member) {
    k < |d.partitions| && d.partitions[k].content.Pv? && d.partitions[k].content.uuid == m.pvUuid
  }

  // ------------------------------------------------------------- physical volumes

  /** The member was in the pool when the journal was written. */
  ghost predicate WasMember(j: Journal, m: Member) {
    j.oldState.Some? && exists n <- j.oldState.value.disks :: n.id == m.id
  }

  /** Alone on a disk that is not the root's, is large enough, and not mounted. */
  ghost predicate Suitable(d: Durable, k: nat, m: Member) {
    && k < |d.partitions|
    && var p := d.partitions[k];
    && p.disk in d.disks && !d.disks[p.disk].root && m.allocationBytes <= d.disks[p.disk].sizeBytes && !p.mounted
    && forall l :: 0 <= l < |d.partitions| && l != k ==> d.partitions[l].disk != p.disk
  }

  /** A physical volume is only made on a blank partition that is the new member's, and on one suitable for it. */
  lemma PvIs(j: Journal, m: Member, d: Durable)
    ensures WasMember(j, m) ==> DecidePv(j, m, d) == Ok(Nothing)
    ensures !WasMember(j, m) && DecidePv(j, m, d).Ok? ==>
      exists k: nat :: OnlyOne(d.partitions, k, m.partitionUuid) && Suitable(d, k, m)
    ensures forall k: nat :: !WasMember(j, m) && OnlyOne(d.partitions, k, m.partitionUuid) ==>
      DecidePv(j, m, d) ==
        if Suitable(d, k, m) && Holds(d, k, m) then Ok(Nothing)
        else if Suitable(d, k, m) && d.partitions[k].content == Blank then Ok(CreatePv(k, m.pvUuid))
        else Refused
  {
    hide Locate;
    LocateIs(d, m);
    if DecidePv(j, m, d).Ok? && !WasMember(j, m) {
      assert Suitable(d, Locate(d, m).value, m);
    }
  }

  // ------------------------------------------------------------------- partitions

  /** The journal's request with this one disk, as it is planned for again. */
  function Again(j: Journal, m: Member, initialize: bool): Request {
    Request(j.request.format, j.request.deviceId, j.request.poolId, j.request.generation,
      [DiskRequest(m.id, m.device, m.allocationBytes, initialize)], j.request.extra)
  }

  lemma OnePlan(d: Durable, request: Request, state: Option<State>, known: Option<Member>)
    requires |request.disks| == 1 && state.Some? == known.Some?
    requires state.Some? ==> state.value.disks == [known.value] && known.value.id == request.disks[0].id
    ensures PlanDevices(d, request, state).Ok? <==>
      && GoodRequest(request, request.deviceId) && (state.Some? ==> MayFollow(request, state.value))
      && exists place :: Spot(d, request.disks[0], known, place)
    ensures forall place :: PlanDevices(d, request, state).Ok? && Spot(d, request.disks[0], known, place) ==>
      PlanDevices(d, request, state).value == [Plan(place, known.None?)]
  {
    hide GoodRequest, ValidRequest, ValidTransition, MayFollow, Spot, PlanDisk;
    RequestIs(request, request.deviceId);
    if state.Some? {
      TransitionIs(request, state.value);
    } else {
      NoTransition(request);
    }
    var disk := request.disks[0];
    assert FindMember(OldMembers(state), disk.id) == known;
    assert request.disks[1..] == [];
    if PlanDisk(d, disk, known, {}).Ok? {
      PlannedSpot(d, disk, known, {});
    }
    forall place | Spot(d, disk, known, place)
      ensures PlanDisk(d, disk, known, {}) == Ok(Plan(place, known.None?))
    {
      SpotPlanned(d, disk, known, {}, place);
    }
    assert PlanDisks(d, request.disks, OldMembers(state), {}).Ok? <==> PlanDisk(d, disk, known, {}).Ok?;
  }

  /** What the journal's record of this member says it was. */
  ghost predicate Was(j: Journal, m: Member, known: Member) {
    j.oldState.Some? && OldMember(j, m) == Some(known)
  }

  /** A known member may be prepared again: the disk still holds it, and the request still follows its record. */
  ghost predicate KnownPlaced(j: Journal, m: Member, known: Member, d: Durable, place: string)
    requires j.oldState.Some?
  {
    && GoodRequest(Again(j, m, false), j.request.deviceId)
    && MayFollow(Again(j, m, false), j.oldState.value.(disks := [known]))
    && Spot(d, Again(j, m, false).disks[0], Some(known), place)
  }

  /** The first partition numbered one of a disk. */
  ghost predicate Numbered(partitions: seq<Partition>, disk: string, k: nat) {
    && k < |partitions| && partitions[k].disk == disk && partitions[k].number == 1
    && forall l :: 0 <= l < k ==> partitions[l].disk != disk || partitions[l].number != 1
  }

  lemma {:induction false} FirstIs(partitions: seq<Partition>, disk: string)
    ensures FirstPartition(partitions, disk).Some? ==>
      Numbered(partitions, disk, FirstPartition(partitions, disk).value)
    ensures FirstPartition(partitions, disk).None? ==> forall k: nat :: !Numbered(partitions, disk, k)
  {
    if partitions != [] {
      var last := |partitions| - 1;
      var init := partitions[..last];
      FirstIs(init, disk);
      assert forall l :: 0 <= l < last ==> init[l] == partitions[l];
      if FirstPartition(init, disk).None? {
        NoneAt(init, disk);
        forall k: nat | Numbered(partitions, disk, k)
          ensures k == last
        {
        }
      }
    }
  }

  lemma {:induction false} NoneAt(partitions: seq<Partition>, disk: string)
    requires forall k: nat :: !Numbered(partitions, disk, k)
    ensures forall l :: 0 <= l < |partitions| ==> partitions[l].disk != disk || partitions[l].number != 1
  {
    if partitions != [] {
      var last := |partitions| - 1;
      var init := partitions[..last];
      forall k: nat
        ensures !Numbered(init, disk, k)
      {
        if Numbered(init, disk, k) { assert Numbered(partitions, disk, k); }
      }
      NoneAt(init, disk);
      assert forall l :: 0 <= l < last ==> init[l] == partitions[l];
      assert !Numbered(partitions, disk, last);
    }
  }

  /** A known member's partition is grown exactly when it is to be larger, and never made again. */
  lemma KnownPartitionIs(j: Journal, m: Member, known: Member, d: Durable)
    requires Was(j, m, known)
    ensures DecidePartition(j, m, d).Ok? ==> exists place :: KnownPlaced(j, m, known, d, place)
    ensures forall place :: KnownPlaced(j, m, known, d, place) ==>
      if m.allocationBytes <= known.allocationBytes then DecidePartition(j, m, d) == Ok(Nothing)
      else if exists k: nat :: Numbered(d.partitions, place, k) then
        exists k: nat :: Numbered(d.partitions, place, k) && DecidePartition(j, m, d) == Ok(GrowPartition(k))
      else DecidePartition(j, m, d).Refused?
  {
    hide GoodRequest, MayFollow, Spot, PlanDevices, FirstPartition;
    var state := j.oldState.value.(disks := [known]);
    OnePlan(d, Again(j, m, false), Some(state), Some(known));
    assert j.request.(disks := [AsDisk(m, false)]) == Again(j, m, false);
    var plans := PlanDevices(d, Again(j, m, false), Some(state));
    if plans.Ok? {
      FirstIs(d.partitions, plans.value[0].device);
      var first := FirstPartition(d.partitions, plans.value[0].device);
      assert first.Some? ==> Numbered(d.partitions, plans.value[0].device, first.value);
    }
    forall place | KnownPlaced(j, m, known, d, place)
      ensures plans.Ok? && plans.value[0].device == place
    {
    }
    assert PlanKnown(j, m, known, d) == plans;
    if DecidePartition(j, m, d).Ok? {
      var place :| Spot(d, Again(j, m, false).disks[0], Some(known), place);
      assert KnownPlaced(j, m, known, d, place);
    }
  }

  /** A new member's disk is partitioned exactly while no partition has its uuid, on a blank disk of its own. */
  lemma NewPartitionIs(j: Journal, m: Member, d: Durable)
    requires OldMember(j, m).None?
    ensures (exists p <- d.partitions :: p.uuid == m.partitionUuid) ==> DecidePartition(j, m, d) == Ok(Nothing)
    ensures (forall p <- d.partitions :: p.uuid != m.partitionUuid) ==>
      if GoodRequest(Again(j, m, true), j.request.deviceId) && Spot(d, Again(j, m, true).disks[0], None, m.device)
      then DecidePartition(j, m, d) == Ok(PartitionDisk(m.device, m.partitionUuid))
      else DecidePartition(j, m, d).Refused?
  {
    hide GoodRequest, PlanDevices, Matches;
    OnePlan(d, Again(j, m, true), None, None);
    assert j.request.(disks := [AsDisk(m, true)]) == Again(j, m, true);
    var matches := Matches(d.partitions, m.partitionUuid);
    if p :| p in d.partitions && p.uuid == m.partitionUuid {
      var k :| 0 <= k < |d.partitions| && d.partitions[k] == p;
      assert k in matches;
    }
    if matches != [] {
      assert d.partitions[matches[0]].uuid == m.partitionUuid && d.partitions[matches[0]] in d.partitions;
    }
  }

  // ------------------------------------------------------------ group and volume

  ghost predicate OneOf(members: seq<Member>, pvUuid: string) {
    exists m <- members :: m.pvUuid == pvUuid
  }

  /** No member's volume is in another group, and no other volume in this one. */
  ghost predicate Unmixed(d: Durable, members: seq<Member>, name: string) {
    forall p <- d.partitions :: p.content.Pv? ==>
      if OneOf(members, p.content.uuid) then p.content.group == "" || p.content.group == name
      else p.content.group != name
  }

  /** A member's volume that is in no group yet. */
  ghost predicate Waits(d: Durable, members: seq<Member>, k: nat) {
    && k < |d.partitions| && d.partitions[k].content.Pv? && d.partitions[k].content.group == ""
    && OneOf(members, d.partitions[k].content.uuid)
  }

  lemma UnmixedIs(d: Durable, members: seq<Member>, name: string)
    ensures Unmixed(d, members, name) <==> !SomeoneElses(d, members, name)
  {
    MembersAre(members);
  }

  lemma MembersAre(members: seq<Member>)
    ensures forall uuid :: uuid in MemberPvs(members) <==> OneOf(members, uuid)
  {
  }

  lemma WaitsIs(d: Durable, members: seq<Member>)
    ensures forall k: nat :: k in Additional(d, members) <==> Waits(d, members, k)
  {
    MembersAre(members);
  }

  ghost predicate OwnTags(j: Journal, tags: set<string>) {
    "nh-owner-" + Hex(j.request.deviceId) in tags && "nh-pool-" + Hex(j.request.poolId) in tags
  }

  /** A group is made only for a first pool, of all its members' partitions. */
  lemma NoGroupIs(j: Journal, d: Durable)
    requires GroupName(j.request.poolId) !in d.groups
    ensures DecideGroup(j, d).Ok? <==>
      j.oldState.None? && forall m <- j.members :: exists k: nat :: OnlyOne(d.partitions, k, m.partitionUuid)
    ensures DecideGroup(j, d).Ok? ==>
      var c := DecideGroup(j, d).value;
      && c.CreateGroup? && c.name == GroupName(j.request.poolId) && OwnTags(j, c.tags)
      && forall k: nat :: k in c.ks <==> exists m <- j.members :: OnlyOne(d.partitions, k, m.partitionUuid)
  {
    hide Locate, Hex, GroupName;
    forall m <- j.members
      ensures Locate(d, m).Ok? <==> exists k: nat :: OnlyOne(d.partitions, k, m.partitionUuid)
      ensures forall k: nat :: OnlyOne(d.partitions, k, m.partitionUuid) ==> Locate(d, m) == Ok(k)
    {
      LocateIs(d, m);
    }
    forall m <- j.members
      ensures Locate(d, m).Ok? ==> OnlyOne(d.partitions, Locate(d, m).value, m.partitionUuid)
    {
      LocateIs(d, m);
    }
  }

  /** A group that is there is extended only if it is the pool's own, with the volumes that wait, and by those. */
  lemma GroupThereIs(j: Journal, d: Durable)
    requires GroupName(j.request.poolId) in d.groups
    ensures
      var name := GroupName(j.request.poolId);
      && (DecideGroup(j, d).Ok? <==>
           && OwnTags(j, d.groups[name].tags) && Unmixed(d, j.members, name)
           && (j.oldState.Some? ==> d.groups[name].uuid == j.oldState.value.vgUuid))
      && (DecideGroup(j, d).Ok? && (exists k: nat :: Waits(d, j.members, k)) ==>
           var c := DecideGroup(j, d).value;
           c.ExtendGroup? && c.name == name && forall k: nat :: k in c.ks <==> Waits(d, j.members, k))
      && (DecideGroup(j, d).Ok? && !(exists k: nat :: Waits(d, j.members, k)) ==> DecideGroup(j, d).value == Nothing)
  {
    hide Hex, SomeoneElses, Unmixed, Additional, Waits, GroupName;
    var name := GroupName(j.request.poolId);
    UnmixedIs(d, j.members, name);
    WaitsIs(d, j.members);
    TagsIn(j.request.deviceId, j.request.poolId, d.groups[name].tags);
    if Additional(d, j.members) != {} {
      var k :| k in Additional(d, j.members);
    }
  }

  /** The one volume the pool uses. */
  ghost predicate OwnVolume(j: Journal, v: Volume) {
    v.name == "worker" && v.linear && OwnTags(j, v.tags)
  }

  /** A volume is made only in an empty group of a first pool; any other volume than the pool's own is refused. */
  lemma VolumeIs(j: Journal, d: Durable)
    ensures
      var name := GroupName(j.request.poolId);
      && (name !in d.groups ==> DecideVolume(j, d).Refused?)
      && (name in d.groups ==>
           var volumes := d.groups[name].volumes;
           && (DecideVolume(j, d).Ok? <==>
                if volumes == [] then j.oldState.None? else |volumes| == 1 && OwnVolume(j, volumes[0]))
           && (DecideVolume(j, d).Ok? && volumes != [] ==> DecideVolume(j, d).value == Nothing)
           && (DecideVolume(j, d).Ok? && volumes == [] ==>
                DecideVolume(j, d).value.CreateVolume? && DecideVolume(j, d).value.group == name &&
                  OwnTags(j, DecideVolume(j, d).value.tags)))
  {
    hide Hex, GroupName;
    var name := GroupName(j.request.poolId);
    if name in d.groups && d.groups[name].volumes != [] {
      TagsIn(j.request.deviceId, j.request.poolId, d.groups[name].volumes[0].tags);
    }
  }

  /** The group with its one volume and exactly the journal's members, as recorded if it was. */
  ghost predicate Complete(j: Journal, d: Durable) {
    var name := GroupName(j.request.poolId);
    && OneVolume(d, name) && OwnTags(j, d.groups[name].tags)
    && d.groups[name].volumes[0].name == "worker" && d.groups[name].volumes[0].linear
    && (j.oldState.Some? ==> d.groups[name].uuid == j.oldState.value.vgUuid)
    && (j.oldState.Some? ==> d.groups[name].volumes[0].uuid == j.oldState.value.lvUuid)
    && OnlyMembers(d.partitions, name, j.members) && EveryMember(d.partitions, name, j.members)
  }

  /** The volume is filled exactly in a complete group, while the group has space. */
  lemma FillIs(j: Journal, d: Durable)
    ensures DecideFill(j, d).Ok? <==> Complete(j, d)
    ensures DecideFill(j, d).Ok? ==>
      DecideFill(j, d).value == if FreeBytes(d, GroupName(j.request.poolId)) > 0 then
        ExtendVolume(GroupName(j.request.poolId)) else Nothing
  {
    hide Hex, GroupMembers, MemberPvs, OwnerTags, OnlyMembers, EveryMember, GroupName, FreeBytes;
    var name := GroupName(j.request.poolId);
    OnlyIs(d.partitions, name, j.members);
    EveryIs(d.partitions, name, j.members);
    if name in d.groups {
      TagsIn(j.request.deviceId, j.request.poolId, d.groups[name].tags);
    }
  }

  /** A filesystem is made only on the empty volume of a first pool; any other than the journaled one is refused. */
  lemma FilesystemIs(j: Journal, d: Durable)
    ensures
      var name := GroupName(j.request.poolId);
      && (!OneVolume(d, name) ==> DecideFilesystem(j, d).Refused?)
      && (OneVolume(d, name) ==>
           match d.groups[name].volumes[0].fs
           case None =>
             DecideFilesystem(j, d) == if j.oldState.None? then Ok(MakeFilesystem(name, j.filesystemUuid)) else Refused
           case Some(fs) =>
             if fs.kind == "ext4" && fs.uuid == j.filesystemUuid then DecideFilesystem(j, d) == Ok(Nothing)
             else DecideFilesystem(j, d).Refused?)
  {
    hide GroupName;
  }
}
