/**
 When a later request for a finished pool is carried out to the end: exactly when none of the disks
 it adds hides a signature. What it leaves is a finished pool again.
 */
module PoolGrow {
  import opened Outcomes
  import opened PoolModel
  import opened PoolSteps
  import opened PoolConvergence
  import opened PoolBuild
  import opened PoolResume
  import opened PoolConverges
  import opened PoolRuns
  import opened PoolFirst
  import PoolMonotone
  import PoolSafety

  // ------------------------------------------------------------ a finished pool

  /** The member stands on its recorded disk, as the disk's first partition, under its own identity. */
  ghost predicate Standing(d: Durable, m: Member) {
    && ValidDisk(AsDisk(m, false)) && IsUuid(m.partitionUuid) && m.pvUuid != ""
    && Locate(d, m).Ok? && FirstPartition(d.partitions, m.device).Some?
    && m.device in d.disks && !d.disks[m.device].root && d.disks[m.device].sizeBytes >= m.allocationBytes
    && var p := d.partitions[Locate(d, m).value];
    p.disk == m.device && p.content.Pv? && p.content.uuid == m.pvUuid
  }

  /** The group's one volume is the pool's own, and carries its filesystem. */
  ghost predicate Formatted(d: Durable, name: string, tags: set<string>, filesystemUuid: string) {
    && OneVolume(d, name)
    && var v := d.groups[name].volumes[0];
    && v.name == VOLUME_NAME && v.linear && tags <= v.tags
    && v.fs.Some? && v.fs.value.kind == "ext4" && v.fs.value.uuid == filesystemUuid
  }

  /** A pool whose state is saved and true of the disks. */
  ghost predicate Finished(d: Durable) {
    && d.state.Some? && PvUnique(d.partitions)
    && var s := d.state.value;
    && ValidState(s, d.owner) && (forall m <- s.disks :: Standing(d, m))
    && ValidLvm(d, s.deviceId, s.poolId, s.disks, Some((s.vgUuid, s.lvUuid)))
    && Formatted(d, GroupName(s.poolId), OwnerTags(s.deviceId, s.poolId), s.filesystemUuid)
  }

  // ------------------------------------------------------- the journal of a growth

  /** A member the pool had is kept where it stands; any other finds room. */
  ghost predicate Grown(d: Durable, j: Journal, m: Member)
    requires j.oldState.Some?
  {
    if OldMember(j, m).Some? then
      var known := OldMember(j, m).value;
      && Standing(d, m) && known.allocationBytes <= m.allocationBytes
      && (j.request.generation == j.oldState.value.generation ==> known.allocationBytes == m.allocationBytes)
      && known.partitionUuid == m.partitionUuid && known.pvUuid == m.pvUuid
    else RoomFor(d, m)
  }

  ghost predicate SamePool(j: Journal, s: State) {
    && j.request.deviceId == s.deviceId && j.request.poolId == s.poolId && s.generation <= j.request.generation
    && j.filesystemUuid == s.filesystemUuid
  }

  /** The journal of an accepted request for a finished pool, on the disks as they were when it was written. */
  ghost predicate Grows(d: Durable, j: Journal) {
    && d.state.Some? && Finished(d) && j.oldState == d.state && SamePool(j, d.state.value)
    && ValidRequest(j.request, d.owner) && |j.members| == |j.request.disks|
    && (forall i :: 0 <= i < |j.members| ==> Grown(d, j, j.members[i]))
    && (forall i, k :: 0 <= i < k < |j.members| ==> Apart(j.members[i], j.members[k]))
    && MemberPvs(d.state.value.disks) <= MemberPvs(j.members)
  }

  // --------------------------------------------------------- what a member's steps change

  /** Only sizes changed. */
  ghost predicate Resized(d: Durable, e: Durable) {
    && e == d.(partitions := e.partitions) && |e.partitions| == |d.partitions|
    && forall k :: 0 <= k < |d.partitions| ==>
         var p, q := d.partitions[k], e.partitions[k];
         && q == p.(sizeBytes := q.sizeBytes, content := q.content)
         && (q.content == p.content ||
             (p.content.Pv? && q.content.Pv? && q.content == p.content.(sizeBytes := q.content.sizeBytes)))
  }

  lemma ResizedTwice(a: Durable, b: Durable, c: Durable)
    requires Resized(a, b) && Resized(b, c)
    ensures Resized(a, c)
  {
    forall k | 0 <= k < |a.partitions|
      ensures c.partitions[k] ==
        a.partitions[k].(sizeBytes := c.partitions[k].sizeBytes, content := c.partitions[k].content)
    {
      assert b.partitions[k] ==
        a.partitions[k].(sizeBytes := b.partitions[k].sizeBytes, content := b.partitions[k].content);
    }
  }

  lemma ResizedStanding(d: Durable, e: Durable, m: Member)
    requires Resized(d, e) && Standing(d, m)
    ensures Standing(e, m)
  {
    hide ValidDisk, IsUuid, Matches, FirstPartition;
    MatchesExtend(d.partitions, e.partitions, m.partitionUuid);
    FirstPartitionExtend(d.partitions, e.partitions, m.device);
  }

  lemma ResizedRoom(d: Durable, e: Durable, m: Member)
    requires Resized(d, e) && RoomFor(d, m)
    ensures RoomFor(e, m)
  {
    hide ValidDisk, IsUuid;
    forall p <- e.partitions
      ensures p.disk != m.device && p.uuid != m.partitionUuid && (p.content.Pv? ==> p.content.uuid != m.pvUuid)
    {
      var k :| 0 <= k < |e.partitions| && e.partitions[k] == p;
      assert d.partitions[k] in d.partitions;
    }
  }

  /** Another member's new partition leaves a standing member standing. */
  lemma AddedStanding(d: Durable, n: Member, m: Member)
    requires RoomFor(d, n) && Standing(d, m) && Apart(n, m)
    ensures Standing(WithPv(d, n), m)
  {
    hide ValidDisk, IsUuid, Matches, FirstPartition, Unused;
    var e := WithPv(d, n);
    MatchesExtend(d.partitions, e.partitions, m.partitionUuid);
    FirstPartitionExtend(d.partitions, e.partitions, m.device);
  }

  lemma AddedRoom(d: Durable, n: Member, m: Member)
    requires RoomFor(d, n) && RoomFor(d, m) && Apart(n, m)
    ensures RoomFor(WithPv(d, n), m)
  {
    hide ValidDisk, IsUuid;
    var e := WithPv(d, n);
    forall p <- e.partitions
      ensures p.disk != m.device && p.uuid != m.partitionUuid && (p.content.Pv? ==> p.content.uuid != m.pvUuid)
    {
      var k :| 0 <= k < |e.partitions| && e.partitions[k] == p;
      if k < |d.partitions| {
        assert d.partitions[k] in d.partitions;
      }
    }
  }

  /** The new member itself stands from then on. */
  lemma NowStanding(d: Durable, m: Member)
    requires RoomFor(d, m)
    ensures Standing(WithPv(d, m), m)
  {
    hide IsDiskName, IsManagedDevice, IsUuid, Matches;
    LocatedNew(d, m);
    var f, e := Partitioned(d, m), WithPv(d, m);
    MatchesExtend(f.partitions, e.partitions, m.partitionUuid);
    assert e.partitions[..|d.partitions|] == d.partitions;
  }

  // ------------------------------------------------------------ one known member

  lemma KnownPlan(d: Durable, e: Durable, j: Journal, m: Member)
    requires Grows(d, j) && m in j.members && OldMember(j, m).Some? && Standing(e, m)
    ensures PlanKnown(j, m, OldMember(j, m).value, e) == Ok([Plan(m.device, false)])
  {
    hide Finished, IsUuid, IsDiskName, IsManagedDevice, FirstPartition, Matches, Locate, Apart;
    var i := MemberIndexed(j.members, m);
    assert Grown(d, j, j.members[i]);
    var known, s := OldMember(j, m).value, j.oldState.value;
    var request, solo := j.request.(disks := [AsDisk(m, false)]), s.(disks := [known]);
    assert known.id == m.id;
    assert ValidRequest(request, request.deviceId);
    assert AsDisk(m, false) in request.disks && known in solo.disks;
    assert ValidTransition(request, Some(solo));
    assert FindMember([known], m.id) == Some(known);
    assert Matches(e.partitions, known.partitionUuid) == Matches(e.partitions, m.partitionUuid);
    KnownDisk(e, m, known);
    assert request.disks[1..] == [];
    assert PlanDisks(e, [], [known], {} + {m.device}) == Ok([]);
    assert [Plan(m.device, false)] + [] == [Plan(m.device, false)];
    assert PlanDisks(e, request.disks, OldMembers(Some(solo)), {}) == Ok([Plan(m.device, false)]);
  }

  lemma KnownDisk(e: Durable, m: Member, known: Member)
    requires Standing(e, m) && known.partitionUuid == m.partitionUuid && known.pvUuid == m.pvUuid
    ensures PlanDisk(e, AsDisk(m, false), Some(known), {}) == Ok(Plan(m.device, false))
  {
    hide ValidDisk, IsUuid, FirstPartition, Matches;
  }

  lemma KnownPartition(d: Durable, e: Durable, j: Journal, m: Member) returns (f: Durable)
    requires Grows(d, j) && m in j.members && OldMember(j, m).Some? && Standing(e, m)
    ensures Settle(PreparePartition(j, m), e) == Ok(f) && Resized(e, f)
  {
    hide Grows, PlanKnown;
    KnownPlan(d, e, j, m);
    f := Settle(PreparePartition(j, m), e).value;
  }

  lemma KnownFit(e: Durable, j: Journal, m: Member) returns (f: Durable)
    requires Standing(e, m)
    ensures Settle(FitPv(j, m), e) == Ok(f) && Resized(e, f)
  {
    hide ValidDisk, IsUuid, FirstPartition, Matches;
    f := Settle(FitPv(j, m), e).value;
  }

  lemma KnownMember(d: Durable, e: Durable, j: Journal, m: Member) returns (f: Durable)
    requires Grows(d, j) && m in j.members && OldMember(j, m).Some? && Standing(e, m)
    ensures Walk([PreparePartition(j, m), PreparePv(j, m), FitPv(j, m)], e) == (f, true) && Resized(e, f)
  {
    hide Grows, Settle, Standing, Resized;
    var x := KnownPartition(d, e, j, m);
    ResizedStanding(e, x, m);
    f := KnownFit(x, j, m);
    NothingToDo(j, m, x);
    ThreeSteps(j, m, e, x, x, f);
    ResizedTwice(e, x, f);
  }

  lemma NothingToDo(j: Journal, m: Member, x: Durable)
    requires OldMember(j, m).Some?
    ensures Settle(PreparePv(j, m), x) == Ok(x)
  {
  }

  // -------------------------------------------------------- the member loop

  /** The pool's group holds exactly its old members, and no new member is in any group yet. */
  ghost predicate Grouped(e: Durable, j: Journal)
    requires j.oldState.Some?
  {
    forall k :: 0 <= k < |e.partitions| && e.partitions[k].content.Pv? ==>
      var c := e.partitions[k].content;
      && (c.group == JournalGroup(j) <==> c.uuid in MemberPvs(j.oldState.value.disks))
      && (c.uuid in MemberPvs(j.members) && c.uuid !in MemberPvs(j.oldState.value.disks) ==> c.group == "")
  }

  ghost predicate Ahead(d: Durable, e: Durable, m: Member) {
    RoomFor(e, m) && m.device in d.disks && e.disks[m.device] == d.disks[m.device]
  }

  /** After `k` members: they stand, the known ones to come stand, and the new ones to come find room. */
  ghost predicate Midway(d: Durable, j: Journal, k: nat, e: Durable)
    requires j.oldState.Some?
  {
    && e == d.(disks := e.disks, partitions := e.partitions) && Grouped(e, j)
    && (forall i :: 0 <= i < |j.members| ==>
         if i < k || OldMember(j, j.members[i]).Some? then Standing(e, j.members[i]) else Ahead(d, e, j.members[i]))
  }

  lemma OldPvs(d: Durable, j: Journal, k: nat)
    requires Grows(d, j) && k < |d.partitions| && d.partitions[k].content.Pv?
    ensures d.partitions[k].content.group == JournalGroup(j) <==>
      d.partitions[k].content.uuid in MemberPvs(j.oldState.value.disks)
  {
    hide ValidState, Standing, ValidRequest, Grown, Apart, Formatted;
    var name := JournalGroup(j);
    var c := d.partitions[k].content;
    assert GroupMembers(d.partitions, name) == MemberPvs(j.oldState.value.disks);
    if c.uuid in GroupMembers(d.partitions, name) {
      var p :| p in d.partitions && p.content.Pv? && p.content.group == name && p.content.uuid == c.uuid;
      var l :| 0 <= l < |d.partitions| && d.partitions[l] == p;
      assert l == k;
    }
    if c.group == name {
      assert d.partitions[k] in d.partitions;
    }
  }

  lemma NotUnused(d: Durable, m: Member, uuid: string)
    requires Standing(d, m)
    ensures !Unused(d, uuid, m.pvUuid)
  {
    hide ValidDisk, IsUuid, FirstPartition, Matches;
    assert d.partitions[Locate(d, m).value] in d.partitions;
  }

  /** A new member's identity is none the pool had. */
  lemma NewPv(d: Durable, j: Journal, m: Member)
    requires Grows(d, j) && RoomFor(d, m)
    ensures m.pvUuid !in MemberPvs(j.oldState.value.disks)
  {
    hide ValidState, ValidRequest, Grown, Apart, Formatted, ValidLvm, ValidDisk, IsUuid, Standing, Unused;
    forall n <- j.oldState.value.disks
      ensures n.pvUuid != m.pvUuid
    {
      NotUnused(d, n, m.partitionUuid);
    }
  }

  lemma StartMidway(d: Durable, j: Journal)
    requires Grows(d, j)
    ensures Midway(d, j, 0, d)
  {
    hide Finished, ValidRequest, Standing, RoomFor, Apart;
    forall k | 0 <= k < |d.partitions| && d.partitions[k].content.Pv?
      ensures
        var c := d.partitions[k].content;
        && (c.group == JournalGroup(j) <==> c.uuid in MemberPvs(j.oldState.value.disks))
        && (c.uuid in MemberPvs(j.members) && c.uuid !in MemberPvs(j.oldState.value.disks) ==> c.group == "")
    {
      OldPvs(d, j, k);
      if d.partitions[k].content.uuid in MemberPvs(j.members) {
        NotNewPv(d, j, k);
      }
    }
    forall i | 0 <= i < |j.members| && OldMember(j, j.members[i]).None?
      ensures Ahead(d, d, j.members[i])
    {
      assert Grown(d, j, j.members[i]);
      RoomThere(d, j.members[i]);
    }
    forall i | 0 <= i < |j.members| && OldMember(j, j.members[i]).Some?
      ensures Standing(d, j.members[i])
    {
      assert Grown(d, j, j.members[i]);
    }
  }

  lemma RoomThere(d: Durable, m: Member)
    requires RoomFor(d, m)
    ensures m.device in d.disks
  {
  }

  /** A physical volume of a member that is there already is one of an old member. */
  lemma NotNewPv(d: Durable, j: Journal, k: nat)
    requires Grows(d, j) && k < |d.partitions| && d.partitions[k].content.Pv?
    requires d.partitions[k].content.uuid in MemberPvs(j.members)
    ensures d.partitions[k].content.uuid in MemberPvs(j.oldState.value.disks)
  {
    hide Finished, ValidRequest, Standing, Apart, ValidDisk, IsUuid;
    var uuid := d.partitions[k].content.uuid;
    var m :| m in j.members && m.pvUuid == uuid;
    var i := MemberIndexed(j.members, m);
    assert Grown(d, j, j.members[i]);
    assert d.partitions[k] in d.partitions;
    assert OldMember(j, m).Some?;
    assert OldMember(j, m).value in j.oldState.value.disks;
  }

  lemma MidwayKnown(d: Durable, j: Journal, k: nat, e: Durable, f: Durable)
    requires Grows(d, j) && k < |j.members| && OldMember(j, j.members[k]).Some?
    requires Midway(d, j, k, e) && Resized(e, f)
    ensures Midway(d, j, k + 1, f)
  {
    hide Grows, Standing, RoomFor;
    forall i | 0 <= i < |j.members|
      ensures if i < k + 1 || OldMember(j, j.members[i]).Some? then Standing(f, j.members[i])
        else Ahead(d, f, j.members[i])
    {
      if i < k + 1 || OldMember(j, j.members[i]).Some? {
        ResizedStanding(e, f, j.members[i]);
      } else {
        ResizedRoom(e, f, j.members[i]);
        RoomThere(e, j.members[i]);
      }
    }
    ResizedGrouped(e, f, j);
  }

  lemma ResizedGrouped(e: Durable, f: Durable, j: Journal)
    requires j.oldState.Some? && Resized(e, f) && Grouped(e, j)
    ensures Grouped(f, j)
  {
    hide MemberPvs;
  }

  lemma ApartEither(d: Durable, j: Journal, i: nat, k: nat)
    requires Grows(d, j) && i < |j.members| && k < |j.members| && i != k
    ensures Apart(j.members[k], j.members[i])
  {
    hide Finished, ValidRequest, Grown;
    assert if i < k then Apart(j.members[i], j.members[k]) else Apart(j.members[k], j.members[i]);
  }

  lemma MidwayNew(d: Durable, j: Journal, k: nat, e: Durable)
    requires Grows(d, j) && k < |j.members| && OldMember(j, j.members[k]).None?
    requires Midway(d, j, k, e) && j.members[k].device in e.disks
    ensures Midway(d, j, k + 1, WithPv(e, j.members[k]))
  {
    hide Grows, Standing, RoomFor, Apart, Grouped;
    var m := j.members[k];
    assert Ahead(d, e, m);
    var f := WithPv(e, m);
    forall i | 0 <= i < |j.members|
      ensures if i < k + 1 || OldMember(j, j.members[i]).Some? then Standing(f, j.members[i])
        else Ahead(d, f, j.members[i])
    {
      if i == k {
        NowStanding(e, m);
      } else {
        ApartEither(d, j, i, k);
        if i < k || OldMember(j, j.members[i]).Some? {
          AddedStanding(e, m, j.members[i]);
        } else {
          AddedRoom(e, m, j.members[i]);
          OtherDisk(e, m, j.members[i]);
        }
      }
    }
    AddedGrouped(d, j, e, m);
  }

  lemma OtherDisk(e: Durable, n: Member, m: Member)
    requires Apart(n, m) && n.device in e.disks && RoomFor(e, m)
    ensures m.device in e.disks && WithPv(e, n).disks[m.device] == e.disks[m.device]
  {
  }

  lemma AddedGrouped(d: Durable, j: Journal, e: Durable, m: Member)
    requires Grows(d, j) && m in j.members && OldMember(j, m).None? && Grouped(e, j) && m.device in e.disks
    ensures Grouped(WithPv(e, m), j)
  {
    hide Finished, ValidRequest, RoomFor, Apart, MemberPvs;
    var i := MemberIndexed(j.members, m);
    assert Grown(d, j, j.members[i]);
    NewPv(d, j, m);
    NamedGroup(j);
    var f := WithPv(e, m);
    forall k | 0 <= k < |f.partitions|
      ensures k < |e.partitions| ==> f.partitions[k] == e.partitions[k]
      ensures k == |e.partitions| ==> f.partitions[k].content == Pv(m.pvUuid, "", f.partitions[k].sizeBytes)
    {
    }
  }

  /** The member loop over the first `k` members, as long as the new ones are clean. */
  lemma {:induction false} MembersGrown(d: Durable, j: Journal, k: nat) returns (e: Durable)
    requires Grows(d, j) && k <= |j.members|
    requires forall i :: 0 <= i < k && OldMember(j, j.members[i]).None? ==> Clean(d, j.members[i])
    ensures Walk(MemberSteps(j, j.members[..k]), d) == (e, true) && Midway(d, j, k, e)
    decreases k
  {
    hide Settle, Grows, Midway, Clean, Resized, MemberSteps, Walk, OldMember, WithPv;
    if k == 0 {
      e := d;
      StartMidway(d, j);
      NoMembers(j, d);
    } else {
      var m := j.members[k - 1];
      var before := MembersGrown(d, j, k - 1);
      if OldMember(j, m).Some? {
        StandingHere(d, j, k - 1, before);
        e := KnownMember(d, before, j, m);
        MidwayKnown(d, j, k - 1, before, e);
      } else {
        e := NewMemberSteps(d, j, k - 1, before);
        MidwayNew(d, j, k - 1, before);
      }
      WalkMember(j, k - 1, d, before, e);
    }
  }

  lemma StandingHere(d: Durable, j: Journal, k: nat, e: Durable)
    requires Grows(d, j) && k < |j.members| && Midway(d, j, k, e) && OldMember(j, j.members[k]).Some?
    ensures Standing(e, j.members[k])
  {
    hide Grows, Standing;
  }

  lemma AheadHere(d: Durable, j: Journal, k: nat, e: Durable)
    requires Grows(d, j) && k < |j.members| && Midway(d, j, k, e) && OldMember(j, j.members[k]).None?
    ensures RoomFor(e, j.members[k]) && j.members[k].device in e.disks && ValidRequest(j.request, e.owner)
    ensures Clean(e, j.members[k]) <==> Clean(d, j.members[k])
  {
    hide Finished, Grown, Standing, RoomFor, Apart, ValidRequest;
    assert Ahead(d, e, j.members[k]);
    RoomThere(e, j.members[k]);
  }

  lemma NewMemberSteps(d: Durable, j: Journal, k: nat, e: Durable) returns (f: Durable)
    requires Grows(d, j) && k < |j.members| && Midway(d, j, k, e) && OldMember(j, j.members[k]).None?
    requires Clean(d, j.members[k])
    ensures
      var m := j.members[k];
      Walk([PreparePartition(j, m), PreparePv(j, m), FitPv(j, m)], e) == (f, true)
    ensures j.members[k].device in e.disks && f == WithPv(e, j.members[k])
  {
    hide Grows, Midway, Settle, RoomFor, ValidRequest, Clean;
    var m := j.members[k];
    AheadHere(d, j, k, e);
    PartitionStep(e, j, m);
    PvStep(e, j, m);
    FitStep(e, j, m);
    f := WithPv(e, m);
    ThreeSteps(j, m, e, Partitioned(e, m), f, f);
  }

  /** A new member whose disk hides a signature stops the journal. */
  lemma HiddenInGrowth(d: Durable, j: Journal, k: nat)
    requires Grows(d, j) && k < |j.members| && OldMember(j, j.members[k]).None? && !Clean(d, j.members[k])
    requires forall i :: 0 <= i < k && OldMember(j, j.members[i]).None? ==> Clean(d, j.members[i])
    ensures !Walk(Prepare(j), d).1
  {
    hide Settle, Grows, Midway, Clean, RoomFor, ValidRequest, MemberSteps, Walk, Prepare;
    var m := j.members[k];
    var e := MembersGrown(d, j, k);
    AheadHere(d, j, k, e);
    PartitionStep(e, j, m);
    PvStep(e, j, m);
    StopsAt(j, k, d, e, Partitioned(e, m));
  }

  // ---------------------------------------------------------------- the build

  /** With every member standing, the group takes in the new ones. */
  lemma GroupGrows(d: Durable, j: Journal, e: Durable) returns (b: Durable)
    requires Grows(d, j) && Midway(d, j, |j.members|, e)
    ensures Settle(BuildGroup(j), e) == Ok(b) && b.groups == d.groups
  {
    hide ValidState, Standing, ValidRequest, Grown, Apart, RoomFor, Formatted, MemberPvs;
    assert e.groups == d.groups;
    NamedGroup(j);
    var name := JournalGroup(j);
    assert name in d.groups && JournalTags(j) <= d.groups[name].tags && d.groups[name].uuid == j.oldState.value.vgUuid;
    forall p <- e.partitions | p.content.Pv?
      ensures p.content.uuid in MemberPvs(j.members) ==> p.content.group == "" || p.content.group == name
      ensures p.content.uuid !in MemberPvs(j.members) ==> p.content.group != name
    {
      var k :| 0 <= k < |e.partitions| && e.partitions[k] == p;
    }
    assert !SomeoneElses(e, j.members, name);
    b := Settle(BuildGroup(j), e).value;
  }

  lemma FormattedAt(d: Durable, j: Journal)
    requires Grows(d, j)
    ensures Formatted(d, JournalGroup(j), JournalTags(j), j.filesystemUuid)
    ensures j.oldState.Some? && OldIdentity(j) == Some((j.oldState.value.vgUuid, j.oldState.value.lvUuid))
    ensures d.groups[JournalGroup(j)].volumes[0].uuid == j.oldState.value.lvUuid
  {
    hide ValidState, Standing, ValidRequest, Grown, Apart;
  }

  lemma FormattedVolume(j: Journal, b: Durable)
    requires Formatted(b, JournalGroup(j), JournalTags(j), j.filesystemUuid)
    ensures Settle(BuildVolume(j), b) == Ok(b)
  {
  }

  lemma FormattedFill(j: Journal, b: Durable) returns (f: Durable)
    requires Formatted(b, JournalGroup(j), JournalTags(j), j.filesystemUuid) && GroupSettled(j, b)
    requires MembersReady(j, j.members, b)
    requires j.oldState.Some? && b.groups[JournalGroup(j)].volumes[0].uuid == j.oldState.value.lvUuid
    ensures Settle(FillVolume(j), b) == Ok(f)
    ensures Formatted(f, JournalGroup(j), JournalTags(j), j.filesystemUuid)
  {
    hide MembersReady, FreeBytes;
    SettledGroupMembers(j, b);
    assert JournalLvm(j, b);
    f := Settle(FillVolume(j), b).value;
  }

  lemma FormattedRest(j: Journal, f: Durable) returns (h: Durable)
    requires Formatted(f, JournalGroup(j), JournalTags(j), j.filesystemUuid)
    ensures Settle(ActivateBuilt(j), f) == Ok(f) && Settle(BuildFilesystem(j), f) == Ok(f)
    ensures Settle(FitFilesystem(j), f) == Ok(h) && OneVolume(h, JournalGroup(j))
  {
    h := Settle(FitFilesystem(j), f).value;
  }

  lemma GrowthBuilt(j: Journal, e: Durable, b: Durable)
    requires Settle(BuildGroup(j), e) == Ok(b) && GroupSettled(j, b) && MembersReady(j, j.members, b)
    requires Formatted(b, JournalGroup(j), JournalTags(j), j.filesystemUuid)
    requires j.oldState.Some? && b.groups[JournalGroup(j)].volumes[0].uuid == j.oldState.value.lvUuid
    ensures Walk(BuildSteps(j), e).1
  {
    hide Settle, MembersReady, GroupSettled, FreeBytes, Formatted, OneVolume, Walk;
    NoSteps(j, e);
    WalkOne(j, 0, e, e, b);
    FormattedVolume(j, b);
    WalkOne(j, 1, e, b, b);
    var f := FormattedFill(j, b);
    WalkOne(j, 2, e, b, f);
    var h := FormattedRest(j, f);
    WalkOne(j, 3, e, f, f);
    WalkOne(j, 4, e, f, f);
    WalkOne(j, 5, e, f, h);
    FileSteps(j, h);
    WalkOne(j, 6, e, h, h.(serviceInstalled := true));
    WalkOne(j, 7, e, h.(serviceInstalled := true), Settle(Commit(j), h.(serviceInstalled := true)).value);
    assert BuildSteps(j)[..8] == BuildSteps(j);
  }

  // -------------------------------------------------------------- activation

  /** Labelling partitions moves no member. */
  lemma LabelsStanding(d: Durable, e: Durable, m: Member)
    requires LabelsOnly(d, e) && Standing(d, m)
    ensures Standing(e, m)
  {
    hide ValidDisk, IsUuid, Matches, FirstPartition;
    MatchesExtend(d.partitions, e.partitions, m.partitionUuid);
    FirstPartitionExtend(d.partitions, e.partitions, m.device);
  }

  lemma SameStanding(d: Durable, e: Durable, m: Member)
    requires e.disks == d.disks && e.partitions == d.partitions && Standing(d, m)
    ensures Standing(e, m)
  {
    hide ValidDisk, IsUuid, Matches, FirstPartition;
  }

  ghost predicate AllStanding(d: Durable, members: seq<Member>) {
    forall i :: 0 <= i < |members| ==> Standing(d, members[i])
  }

  ghost predicate AllApart(members: seq<Member>) {
    forall i, k :: 0 <= i < k < |members| ==> Apart(members[i], members[k])
  }

  lemma StandingSettled(c: Durable, m: Member)
    requires Standing(c, m)
    ensures Settled(c, m) == m
  {
    hide ValidDisk, IsUuid, Matches, FirstPartition;
  }

  lemma StandingSettledAll(c: Durable, members: seq<Member>)
    requires AllStanding(c, members)
    ensures SettledAll(c, members) == members
  {
    hide Standing, Settled;
    forall i | 0 <= i < |members|
      ensures Settled(c, members[i]) == members[i]
    {
      StandingSettled(c, members[i]);
    }
  }

  lemma StandingPlanned(c: Durable, m: Member, used: set<string>)
    requires Standing(c, m) && m.device !in used
    ensures PlanDisk(c, AsDisk(m, false), Some(m), used) == Ok(Plan(m.device, false))
  {
    hide ValidDisk, IsUuid, Matches, FirstPartition;
  }

  lemma OneId(members: seq<Member>, i: nat, k: nat)
    requires AllApart(members) && i < |members| && k < |members| && members[i].id == members[k].id
    ensures i == k
  {
  }

  lemma FoundAmong(members: seq<Member>, i: nat)
    requires AllApart(members) && i < |members|
    ensures FindMember(members, members[i].id) == Some(members[i])
  {
    hide AllApart;
    var found := FindMember(members, members[i].id);
    assert members[i] in members && found.Some?;
    var k := MemberIndexed(members, found.value);
    OneId(members, i, k);
  }

  lemma {:induction false} StandingAllPlanned(c: Durable, members: seq<Member>, i: nat, used: set<string>)
    requires AllStanding(c, members) && AllApart(members)
    requires i <= |members| && forall n :: i <= n < |members| ==> members[n].device !in used
    ensures PlanDisks(c, AsDisks(members)[i..], members, used).Ok?
    decreases |members| - i
  {
    hide Standing, PlanDisk;
    if i < |members| {
      var disks := AsDisks(members)[i..];
      assert disks[0] == AsDisk(members[i], false) && disks[1..] == AsDisks(members)[i + 1..];
      StandingPlanned(c, members[i], used);
      FoundAmong(members, i);
      forall n | i + 1 <= n < |members|
        ensures members[n].device !in used + {members[i].device}
      {
        assert Apart(members[i], members[n]);
      }
      StandingAllPlanned(c, members, i + 1, used + {members[i].device});
    }
  }

  lemma StandingValid(c: Durable, s: State, owner: string, request: Request)
    requires AllStanding(c, s.disks) && AllApart(s.disks) && ValidRequest(request, owner)
    requires |s.disks| == |request.disks| && s.deviceId == request.deviceId && s.poolId == request.poolId
    requires s.generation == request.generation && IsUuid(s.filesystemUuid)
    ensures ValidState(s, owner) && ValidRequest(AsRequest(s), s.deviceId)
  {
    hide IsUuid, IsDiskName, IsManagedDevice, FirstPartition, Matches;
    var disks := AsDisks(s.disks);
    forall i | 0 <= i < |disks|
      ensures ValidDisk(disks[i])
    {
      assert Standing(c, s.disks[i]);
    }
    forall i, k | 0 <= i < k < |disks|
      ensures disks[i].id != disks[k].id && disks[i].device != disks[k].device
    {
      assert Apart(s.disks[i], s.disks[k]);
    }
    forall m <- s.disks
      ensures IsUuid(m.partitionUuid) && m.pvUuid != ""
    {
      var i := MemberIndexed(s.disks, m);
      assert Standing(c, s.disks[i]);
    }
  }

  /** What the steps of a prepared journal have established of its group. */
  lemma PreparedGroup(j: Journal, c: Durable)
    requires Ready(j, |Prepare(j)|, c)
    ensures OneVolume(c, JournalGroup(j)) && c.state == Some(NextState(j, c))
    ensures
      var s := NextState(j, c);
      ValidLvm(c, s.deviceId, s.poolId, j.members, Some((s.vgUuid, s.lvUuid)))
    ensures Formatted(c, JournalGroup(j), JournalTags(j), j.filesystemUuid)
  {
    hide Settle, GroupSettled, FreeBytes, MembersReady, SettledAll;
    assert Built(j, 8, c);
  }

  lemma StandingActivates(c: Durable, s: State, members: seq<Member>)
    requires c.state == Some(s) && s.disks == members && ValidState(s, c.owner) &&
      ValidRequest(AsRequest(s), s.deviceId)
    requires AllStanding(c, members) && AllApart(members)
    requires ValidLvm(c, s.deviceId, s.poolId, members, Some((s.vgUuid, s.lvUuid)))
    ensures Activatable(c)
  {
    hide ValidState, ValidRequest, ValidTransition, ValidLvm, PlanDisks, AllStanding, AllApart;
    SavedTransition(s);
    StandingAllPlanned(c, members, 0, {});
    assert AsDisks(members)[0..] == AsDisks(members);
  }

  lemma StandingFinished(c: Durable, s: State)
    requires c.state == Some(s) && ValidState(s, c.owner) && AllStanding(c, s.disks) && PvUnique(c.partitions)
    requires ValidLvm(c, s.deviceId, s.poolId, s.disks, Some((s.vgUuid, s.lvUuid)))
    requires Formatted(c, GroupName(s.poolId), OwnerTags(s.deviceId, s.poolId), s.filesystemUuid)
    ensures Finished(c.(pending := None))
  {
    hide ValidState, Standing;
    var d := c.(pending := None);
    forall m <- s.disks
      ensures Standing(d, m)
    {
      var i := MemberIndexed(s.disks, m);
      SameStanding(c, d, m);
    }
  }

  /** A prepared pool whose members stand is finished once its journal is dropped. */
  lemma PreparedFinished(j: Journal, c: Durable)
    requires Ready(j, |Prepare(j)|, c) && PvUnique(c.partitions)
    requires AllStanding(c, j.members) && AllApart(j.members) && ValidRequest(j.request, c.owner)
    requires |j.members| == |j.request.disks| && IsUuid(j.filesystemUuid)
    ensures Activatable(c) && Finished(c.(pending := None))
  {
    hide Ready, AllStanding, AllApart, ValidRequest, ValidState, ValidLvm, Formatted, Activatable, Finished, PvUnique;
    PreparedGroup(j, c);
    StandingSettledAll(c, j.members);
    var s := NextState(j, c);
    StandingValid(c, s, c.owner, j.request);
    StandingActivates(c, s, j.members);
    StandingFinished(c, s);
  }

  // ------------------------------------------------------------ the whole journal

  /** Every disk the journal adds is clean. */
  predicate AddsClean(d: Durable, j: Journal) {
    forall m <- j.members :: OldMember(j, m).None? ==> Clean(d, m)
  }

  lemma JoinedLabels(j: Journal, e: Durable, b: Durable)
    requires Settle(BuildGroup(j), e) == Ok(b)
    ensures LabelsOnly(e, b)
  {
    hide Settle, DecideGroup, Located, Additional;
    GroupEffect(j, e, b);
  }

  /** From standing members on, whatever the build leaves has them standing. */
  lemma BuiltStanding(j: Journal, d: Durable, e: Durable)
    requires Walk(MemberSteps(j, j.members), d) == (e, true) && Walk(BuildSteps(j), e).1 && AllStanding(e, j.members)
    ensures Walk(Prepare(j), d).1 && AllStanding(Walk(Prepare(j), d).0, j.members)
  {
    hide Settle, Standing, LabelsOnly;
    WalkSplit(MemberSteps(j, j.members), BuildSteps(j), d);
    var c := Walk(BuildSteps(j), e).0;
    assert BuildSteps(j)[..8] == BuildSteps(j);
    FirstBuilds(j, e);
    var b := Settle(BuildGroup(j), e).value;
    BuildInPlace(j, 8, e);
    JoinedLabels(j, e, b);
    forall i | 0 <= i < |j.members|
      ensures Standing(c, j.members[i])
    {
      LabelsStanding(e, b, j.members[i]);
      SameStanding(b, c, j.members[i]);
    }
  }

  lemma FirstBuilds(j: Journal, e: Durable)
    requires Walk(BuildSteps(j), e).1
    ensures Settle(BuildGroup(j), e).Ok?
  {
    hide Settle;
  }

  lemma BuildsGrowth(d: Durable, j: Journal)
    requires Grows(d, j) && Sound(d, j) && AddsClean(d, j)
    ensures Walk(Prepare(j), d).1 && AllStanding(Walk(Prepare(j), d).0, j.members)
  {
    hide Settle, Grows, Sound, Clean, Ready, MembersReady, GroupSettled, Standing, FreeBytes, Formatted;
    var n := |j.members|;
    assert j.members[..n] == j.members;
    forall i | 0 <= i < n && OldMember(j, j.members[i]).None?
      ensures Clean(d, j.members[i])
    {
      assert j.members[i] in j.members;
    }
    var e := MembersGrown(d, j, n);
    MembersWalked(d, j, e);
    WalkReady(j, 3 * n, d);
    ReadyMembers(j, e);
    var b := GroupGrows(d, j, e);
    GroupDone(j, e, b);
    FormattedAt(d, j);
    SameFormatted(d, b, j);
    GrowthBuilt(j, e, b);
    BuiltStanding(j, d, e);
  }

  lemma SameFormatted(d: Durable, b: Durable, j: Journal)
    requires b.groups == d.groups && Formatted(d, JournalGroup(j), JournalTags(j), j.filesystemUuid)
    ensures Formatted(b, JournalGroup(j), JournalTags(j), j.filesystemUuid)
  {
  }

  /** The disks are prepared in full, and the members stand: then the journal is done. */
  lemma StandingDone(d: Durable, j: Journal)
    requires Sound(d, j) && Walk(Prepare(j), d).1 && AllStanding(Walk(Prepare(j), d).0, j.members)
    requires AllApart(j.members) && ValidRequest(j.request, d.owner) && |j.members| == |j.request.disks|
    requires IsUuid(j.filesystemUuid)
    ensures Target(d, j).1 == Done && Finished(Target(d, j).0)
  {
    hide Sound, Settle, Ready, Activatable, Finished, ValidRequest, Standing;
    var c := Walk(Prepare(j), d).0;
    assert Prepare(j)[..|Prepare(j)|] == Prepare(j);
    WalkReady(j, |Prepare(j)|, d);
    WalkFiles(j, |Prepare(j)|, d);
    PoolSafety.SoundPvUnique(c, j);
    PreparedFinished(j, c);
  }

  lemma GrowthFails(d: Durable, j: Journal)
    requires Grows(d, j) && !AddsClean(d, j)
    ensures Target(d, j).1 == Rejected
  {
    hide Grows, Clean, Activatable;
    var k := FirstHiddenNew(d, j, 0);
    HiddenInGrowth(d, j, k);
  }

  lemma {:induction false} FirstHiddenNew(d: Durable, j: Journal, from: nat) returns (k: nat)
    requires from <= |j.members|
    requires exists i :: from <= i < |j.members| && OldMember(j, j.members[i]).None? && !Clean(d, j.members[i])
    requires forall i :: 0 <= i < from && OldMember(j, j.members[i]).None? ==> Clean(d, j.members[i])
    ensures k < |j.members| && OldMember(j, j.members[k]).None? && !Clean(d, j.members[k])
    ensures forall i :: 0 <= i < k && OldMember(j, j.members[i]).None? ==> Clean(d, j.members[i])
    decreases |j.members| - from
  {
    hide Clean;
    k := from;
    if OldMember(j, j.members[from]).Some? || Clean(d, j.members[from]) {
      k := FirstHiddenNew(d, j, from + 1);
    }
  }

  /**
   The journal of a growth finishes exactly when every disk it adds is clean, and leaves a finished
   pool again.
   */
  lemma GrowthDone(d: Durable, j: Journal)
    requires Grows(d, j) && Sound(d, j)
    ensures Target(d, j).1 == Done <==> AddsClean(d, j)
    ensures Target(d, j).1 == Done ==> Finished(Target(d, j).0)
  {
    hide Sound, Finished, Standing, ValidRequest, Clean, Target, Walk, Prepare;
    if AddsClean(d, j) {
      BuildsGrowth(d, j);
      GrowthForm(d, j);
      StandingDone(d, j);
    } else {
      GrowthFails(d, j);
    }
  }

  lemma GrowthForm(d: Durable, j: Journal)
    requires Grows(d, j)
    ensures AllApart(j.members) && ValidRequest(j.request, d.owner) && |j.members| == |j.request.disks|
    ensures IsUuid(j.filesystemUuid)
  {
    hide IsUuid, ValidRequest, Grown, Apart, Standing, ValidLvm, Formatted;
  }

  // ------------------------------------------------- from a request to its end

  /** One turn of the loop of plan_devices, among the others. */
  lemma {:induction false} PlanAt(d: Durable, disks: seq<DiskRequest>, members: seq<Member>, used: set<string>, i: nat)
    returns (before: set<string>)
    requires PlanDisks(d, disks, members, used).Ok? && i < |disks|
    ensures PlanDisk(d, disks[i], FindMember(members, disks[i].id), before) ==
      Ok(PlanDisks(d, disks, members, used).value[i])
  {
    before := used;
    if i > 0 {
      var first := PlanDisk(d, disks[0], FindMember(members, disks[0].id), used);
      before := PlanAt(d, disks[1..], members, used + {first.value.device}, i - 1);
    }
  }

  lemma NewPlace(d: Durable, request: Request, plans: seq<Plan>, draw: Draw, i: nat)
    requires Planned(d, request, plans, draw) && GoodDraw(draw) && i < |plans| && ValidRequest(request, d.owner)
    requires FindMember(OldMembers(d.state), request.disks[i].id).None?
    ensures RoomFor(d, NewJournal(d, request, plans, draw).members[i])
    ensures NewJournal(d, request, plans, draw).members[i].device == request.disks[i].device
  {
    hide IsUuid, IsDiskName, IsManagedDevice, IsBlankDisk, Unused, ValidTransition;
    var before := PlanAt(d, request.disks, OldMembers(d.state), {}, i);
  }

  lemma OldPlace(d: Durable, request: Request, plans: seq<Plan>, draw: Draw, i: nat, known: Member)
    requires Planned(d, request, plans, draw) && i < |plans| && ValidRequest(request, d.owner)
    requires FindMember(OldMembers(d.state), request.disks[i].id) == Some(known) && Standing(d, known)
    ensures Standing(d, NewJournal(d, request, plans, draw).members[i])
    ensures NewJournal(d, request, plans, draw).members[i].id == request.disks[i].id
  {
    hide IsUuid, IsDiskName, IsManagedDevice, Unused, ValidTransition, FirstPartition, Matches, FreshDraw;
    var before := PlanAt(d, request.disks, OldMembers(d.state), {}, i);
    NewMemberKeeps(d, request, plans, draw, i);
  }

  ghost predicate OneRequest(request: Request) {
    forall a, b :: 0 <= a < b < |request.disks| ==> request.disks[a].id != request.disks[b].id
  }

  lemma SameRequest(request: Request, i: nat, disk: DiskRequest)
    requires OneRequest(request) && i < |request.disks| && disk in request.disks && disk.id == request.disks[i].id
    ensures disk == request.disks[i]
  {
    var k :| 0 <= k < |request.disks| && request.disks[k] == disk;
    assert !(k < i) && !(i < k);
  }

  /** No saved member loses capacity, and at one generation none changes it. */
  lemma KeptCapacity(s: State, owner: string, request: Request, i: nat, known: Member)
    requires ValidState(s, owner) && ValidTransition(request, Some(s)) && i < |request.disks| && OneRequest(request)
    requires FindMember(s.disks, request.disks[i].id) == Some(known)
    ensures known.allocationBytes <= request.disks[i].allocationBytes
    ensures request.generation == s.generation ==> known.allocationBytes == request.disks[i].allocationBytes
  {
    hide ValidState, OneRequest;
    var disk :| disk in request.disks && disk.id == known.id && !disk.initialize &&
                disk.allocationBytes >= known.allocationBytes;
    SameRequest(request, i, disk);
    if request.generation == s.generation {
      SameCapacity(s, owner, request, disk, known);
    }
  }

  lemma SameCapacity(s: State, owner: string, request: Request, disk: DiskRequest, known: Member)
    requires ValidState(s, owner) && ValidTransition(request, Some(s)) && request.generation == s.generation
    requires disk in request.disks && FindMember(s.disks, disk.id) == Some(known)
    ensures known.allocationBytes == disk.allocationBytes
  {
    hide ValidState;
    var m :| m in s.disks && m.id == disk.id && m.allocationBytes == disk.allocationBytes;
    PoolMonotone.UniqueIds(s, owner, m);
  }

  lemma AllKept(d: Durable, request: Request, plans: seq<Plan>, draw: Draw)
    requires d.state.Some? && ValidState(d.state.value, d.owner) && Planned(d, request, plans, draw)
    ensures MemberPvs(d.state.value.disks) <= MemberPvs(NewJournal(d, request, plans, draw).members)
  {
    hide ValidState, FreshDraw, PlanDisks, ValidRequest;
    var s, members := d.state.value, NewJournal(d, request, plans, draw).members;
    forall m <- s.disks
      ensures m.pvUuid in MemberPvs(members)
    {
      var disk :| disk in request.disks && disk.id == m.id;
      var i :| 0 <= i < |request.disks| && request.disks[i] == disk;
      PoolMonotone.UniqueIds(s, d.owner, m);
      NewMemberKeeps(d, request, plans, draw, i);
      assert members[i] in members;
    }
  }

  lemma GrownAt(d: Durable, request: Request, plans: seq<Plan>, draw: Draw, i: nat)
    requires Finished(d) && Planned(d, request, plans, draw) && GoodDraw(draw) && ValidRequest(request, d.owner)
    requires i < |plans|
    ensures
      var j := NewJournal(d, request, plans, draw);
      Grown(d, j, j.members[i]) && j.members[i].id == request.disks[i].id
    ensures FindMember(OldMembers(d.state), request.disks[i].id).None? ==>
      NewJournal(d, request, plans, draw).members[i].device == request.disks[i].device
  {
    hide IsUuid, ValidDisk, Standing, RoomFor, FreshDraw, ValidLvm, Formatted, ValidTransition, ValidState, PlanDisks;
    var s := d.state.value;
    NewMemberKeeps(d, request, plans, draw, i);
    var found := FindMember(s.disks, request.disks[i].id);
    if found.Some? {
      OldPlace(d, request, plans, draw, i, found.value);
      KeptCapacity(s, d.owner, request, i, found.value);
    } else {
      NewPlace(d, request, plans, draw, i);
    }
  }

  lemma GrownApart(d: Durable, request: Request, plans: seq<Plan>, draw: Draw, i: nat, k: nat)
    requires Finished(d) && Planned(d, request, plans, draw) && ValidRequest(request, d.owner) && i < k < |plans|
    ensures
      var members := NewJournal(d, request, plans, draw).members;
      Apart(members[i], members[k])
  {
    hide IsUuid, ValidDisk, Standing, FreshDraw, ValidLvm, Formatted, ValidState, PlanDevices;
    NewMembersDistinct(d, request, plans, draw, i, k);
    NewMemberKeeps(d, request, plans, draw, i);
    NewMemberKeeps(d, request, plans, draw, k);
    PlannedApart(d, request, plans, draw, i, k);
  }

  lemma GrowthGood(d: Durable, request: Request, plans: seq<Plan>, draw: Draw)
    requires Finished(d) && Planned(d, request, plans, draw) && ValidRequest(request, d.owner) && GoodDraw(draw)
    ensures Grows(d, NewJournal(d, request, plans, draw))
  {
    hide IsUuid, Standing, FreshDraw, ValidLvm, Formatted, Grown, Apart, ValidRequest, MemberPvs, PlanDisks;
    var j := NewJournal(d, request, plans, draw);
    forall i | 0 <= i < |j.members|
      ensures Grown(d, j, j.members[i])
    {
      GrownAt(d, request, plans, draw, i);
    }
    forall i, k | 0 <= i < k < |j.members|
      ensures Apart(j.members[i], j.members[k])
    {
      GrownApart(d, request, plans, draw, i, k);
    }
    AllKept(d, request, plans, draw);
  }

  lemma GrowsPending(d: Durable, j: Journal, e: Durable)
    requires Grows(d, j) && e == d.(pending := e.pending)
    ensures Grows(e, j)
  {
    hide ValidState, ValidRequest, ValidDisk, Apart, Standing, RoomFor;
    forall i | 0 <= i < |j.members|
      ensures Grown(e, j, j.members[i])
    {
      assert Grown(d, j, j.members[i]);
      if OldMember(j, j.members[i]).Some? {
        SameStanding(d, e, j.members[i]);
      } else {
        SameRoom(d, e, j.members[i]);
      }
    }
    forall m <- d.state.value.disks
      ensures Standing(e, m)
    {
      SameStanding(d, e, m);
    }
  }

  /** Every disk the request adds to the saved members hides no signature. */
  predicate AddsCleanDisks(d: Durable, request: Request) {
    forall disk <- request.disks :: FindMember(OldMembers(d.state), disk.id).None? ==> CleanDisk(d, disk.device)
  }

  /**
   An accepted request for a finished pool is carried out to the end exactly when none of the disks
   it adds hides a signature; then the pool is finished again, and the same holds of the next one.
   */
  lemma GrowthRequestDone(d: Durable, request: Request, plans: seq<Plan>, draw: Draw)
    requires Finished(d) && Planned(d, request, plans, draw) && ValidRequest(request, d.owner) && GoodDraw(draw)
    ensures
      var j := NewJournal(d, request, plans, draw);
      var (end, status) := Target(d.(pending := Some(j)), j);
      (status == Done <==> AddsCleanDisks(d, request)) && (status == Done ==> Finished(end))
  {
    hide Finished, GoodDraw, ValidRequest, Grows, Sound, Target, NewIdentities, CleanDisk, PlanDevices, PvUnique,
      FreshDraw;
    var j := NewJournal(d, request, plans, draw);
    var e := d.(pending := Some(j));
    FinishedUnique(d);
    NewJournalSound(d, request, plans, draw);
    SameSound(d, e, j);
    GrowthGood(d, request, plans, draw);
    GrowsPending(d, j, e);
    GrowthDone(e, j);
    SameAdds(d, request, plans, draw);
  }

  lemma FinishedUnique(d: Durable)
    requires Finished(d)
    ensures PvUnique(d.partitions) && d.state.Some?
  {
  }

  lemma SameAdds(d: Durable, request: Request, plans: seq<Plan>, draw: Draw)
    requires Finished(d) && Planned(d, request, plans, draw) && ValidRequest(request, d.owner) && GoodDraw(draw)
    ensures
      var j := NewJournal(d, request, plans, draw);
      AddsClean(d.(pending := Some(j)), j) <==> AddsCleanDisks(d, request)
  {
    hide Finished, GoodDraw, ValidRequest, Grown, PlanDevices, FreshDraw, FindMember;
    var j := NewJournal(d, request, plans, draw);
    var e := d.(pending := Some(j));
    forall i | 0 <= i < |j.members|
      ensures j.members[i].id == request.disks[i].id
      ensures OldMember(j, j.members[i]).None? ==> j.members[i].device == request.disks[i].device
    {
      GrownAt(d, request, plans, draw, i);
    }
    if AddsCleanDisks(d, request) {
      forall m <- j.members | OldMember(j, m).None?
        ensures Clean(e, m)
      {
        var i := MemberIndexed(j.members, m);
        assert request.disks[i] in request.disks;
      }
    }
    if AddsClean(e, j) {
      forall disk <- request.disks | FindMember(OldMembers(d.state), disk.id).None?
        ensures CleanDisk(d, disk.device)
      {
        var i :| 0 <= i < |request.disks| && request.disks[i] == disk;
        assert j.members[i] in j.members;
      }
    }
  }

  // ------------------------------------------------------------- the first pool

  lemma {:induction false} FirstThere(partitions: seq<Partition>, disk: string, k: nat)
    requires k < |partitions| && partitions[k].disk == disk && partitions[k].number == 1
    ensures FirstPartition(partitions, disk).Some?
    decreases |partitions|
  {
    if k < |partitions| - 1 {
      FirstThere(partitions[..|partitions| - 1], disk, k);
    }
  }

  lemma NewStanding(d: Durable, j: Journal, i: nat)
    requires First(d, j) && Placeable(d, j.members) && i < |j.members|
    ensures Standing(After(d, j.members), j.members[i])
  {
    hide LvmSound, ValidRequest, IsUuid, IsDiskName, IsManagedDevice, Matches, FirstPartition, After;
    var m, e := j.members[i], After(d, j.members);
    LocatedAt(d, j, e, i);
    AfterAt(d, j.members, |d.partitions| + i);
    FirstThere(e.partitions, m.device, |d.partitions| + i);
    assert RoomFor(d, m);
    AfterDisk(d, j.members, m.device);
  }

  lemma AfterDisk(d: Durable, members: seq<Member>, disk: string)
    requires Placeable(d, members) && disk in d.disks
    ensures
      var e := After(d, members);
      disk in e.disks && e.disks[disk].root == d.disks[disk].root && e.disks[disk].sizeBytes == d.disks[disk].sizeBytes
  {
  }

  /** A first pool that is built is a finished pool, from which growth goes on. */
  lemma FirstFinishes(d: Durable, j: Journal)
    requires First(d, j) && Sound(d, j) && Unhindered(d, j)
    ensures Target(d, j).1 == Done && Finished(Target(d, j).0)
  {
    hide Settle, Clean, Sound, After, Finished, Standing, Target, RoomFor, LvmSound, ValidRequest, Apart;
    BuildsWhole(d, j);
    var n := |j.members|;
    assert j.members[..n] == j.members;
    forall i | 0 <= i < n
      ensures Clean(d, j.members[i])
    {
      assert j.members[i] in j.members;
    }
    MembersBuilt(d, j, n);
    var e := After(d, j.members);
    forall i | 0 <= i < n
      ensures Standing(e, j.members[i])
    {
      NewStanding(d, j, i);
    }
    BuildWalks(j, d, e);
    BuiltStanding(j, d, e);
    StandingDone(d, j);
  }

  lemma BuildWalks(j: Journal, d: Durable, e: Durable)
    requires Walk(MemberSteps(j, j.members), d) == (e, true) && Walk(Prepare(j), d).1
    ensures Walk(BuildSteps(j), e).1
  {
    hide Settle;
    WalkSplit(MemberSteps(j, j.members), BuildSteps(j), d);
  }
}
