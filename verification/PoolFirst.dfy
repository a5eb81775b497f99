/**
 When a first pool is built to the end: the exact condition, on the disks a request names and the
 volume groups there are, under which its journal finishes.
 */
module PoolFirst {
  import opened Outcomes
  import opened PoolModel
  import opened PoolSteps
  import opened PoolConvergence
  import opened PoolBuild
  import opened PoolResume
  import opened PoolConverges
  import opened PoolRuns
  import PoolSafety

  /** LVM knows a group by its physical volumes, and has none without. */
  ghost predicate LvmSound(d: Durable) {
    forall name: string :: name in d.groups <==> name != "" && GroupMembers(d.partitions, name) != {}
  }

  /** A blank disk large enough for the member, whose identifiers are on no disk yet. */
  ghost predicate RoomFor(d: Durable, m: Member) {
    && IsBlankDisk(d, m.device) && !d.disks[m.device].root && d.disks[m.device].sizeBytes >= m.allocationBytes
    && Unused(d, m.partitionUuid, m.pvUuid)
    && ValidDisk(AsDisk(m, true)) && IsUuid(m.partitionUuid) && m.pvUuid != ""
  }

  ghost predicate Apart(a: Member, b: Member) {
    a.id != b.id && a.device != b.device && a.partitionUuid != b.partitionUuid && a.pvUuid != b.pvUuid
  }

  /** The journal of a first pool, on the disks as they were when it was written. */
  ghost predicate First(d: Durable, j: Journal) {
    && j.oldState == None && ValidRequest(j.request, d.owner) && IsUuid(j.filesystemUuid)
    && |j.members| == |j.request.disks|
    && (forall i :: 0 <= i < |j.members| ==> RoomFor(d, j.members[i]))
    && (forall i, k :: 0 <= i < k < |j.members| ==> Apart(j.members[i], j.members[k]))
    && LvmSound(d)
  }

  /** The disk is there, and no signature of an earlier use lies hidden where its first partition will begin. */
  predicate CleanDisk(d: Durable, device: string) {
    device in d.disks && d.disks[device].leftover.None?
  }

  predicate Clean(d: Durable, m: Member) { CleanDisk(d, m.device) }

  // ------------------------------------------------------------ after k members

  function NewPartition(d: Durable, m: Member): Partition
    requires m.device in d.disks
  {
    var size := d.disks[m.device].sizeBytes;
    Partition(m.device, 1, m.partitionUuid, size, false, Pv(m.pvUuid, "", size))
  }

  predicate Placeable(d: Durable, members: seq<Member>) {
    forall i :: 0 <= i < |members| ==> members[i].device in d.disks
  }

  function Labelled(d: Durable, members: seq<Member>): (r: map<string, Disk>)
    requires Placeable(d, members)
    ensures r.Keys == d.disks.Keys
    ensures forall x <- r :: r[x] == d.disks[x] || r[x] == d.disks[x].(signatures := ["gpt"])
    ensures forall x <- r :: (forall m <- members :: m.device != x) ==> r[x] == d.disks[x]
  {
    if members == [] then d.disks
    else
      var m := members[|members| - 1];
      Labelled(d, members[..|members| - 1])[m.device := d.disks[m.device].(signatures := ["gpt"])]
  }

  /** The members partitioned and made physical volumes, and nothing else changed. */
  function After(d: Durable, members: seq<Member>): (r: Durable)
    requires Placeable(d, members)
    ensures |r.partitions| == |d.partitions| + |members|
  {
    d.(disks := Labelled(d, members),
       partitions := d.partitions + seq(|members|, i requires 0 <= i < |members| => NewPartition(d, members[i])))
  }

  lemma AfterAt(d: Durable, members: seq<Member>, k: nat)
    requires Placeable(d, members) && k < |d.partitions| + |members|
    ensures After(d, members).partitions[k] ==
      if k < |d.partitions| then d.partitions[k] else NewPartition(d, members[k - |d.partitions|])
  {
  }

  lemma {:induction false} NoMatches(partitions: seq<Partition>, uuid: string)
    requires forall p <- partitions :: p.uuid != uuid
    ensures Matches(partitions, uuid) == []
  {
    if partitions != [] {
      NoMatches(partitions[..|partitions| - 1], uuid);
    }
  }

  /** A partition whose uuid no other has is the one found. */
  lemma {:induction false} OnlyMatch(partitions: seq<Partition>, k: nat)
    requires k < |partitions| && forall l :: 0 <= l < |partitions| && l != k ==>
      partitions[l].uuid != partitions[k].uuid
    ensures Matches(partitions, partitions[k].uuid) == [k]
    decreases |partitions|
  {
    var last := |partitions| - 1;
    if k < last {
      OnlyMatch(partitions[..last], k);
    } else {
      NoMatches(partitions[..last], partitions[k].uuid);
    }
  }

  // ------------------------------------------------------- one more new member

  /** What the next member finds: its disk still blank, its identifiers still unused. */
  lemma StillRoom(d: Durable, j: Journal, k: nat)
    requires First(d, j) && k < |j.members|
    ensures Placeable(d, j.members) && Placeable(d, j.members[..k])
    ensures RoomFor(After(d, j.members[..k]), j.members[k])
    ensures After(d, j.members[..k]).disks[j.members[k].device] == d.disks[j.members[k].device]
  {
    hide IsUuid, ValidDisk, LvmSound;
    var m := j.members[k];
    var e := After(d, j.members[..k]);
    forall i | 0 <= i < |j.members|
      ensures j.members[i].device in d.disks
    {
      assert RoomFor(d, j.members[i]);
    }
    assert RoomFor(d, m);
    forall n <- j.members[..k]
      ensures n.device != m.device
    {
      var i :| 0 <= i < k && j.members[i] == n;
      assert Apart(j.members[i], m);
    }
    forall p <- e.partitions
      ensures p.disk != m.device && p.uuid != m.partitionUuid && (p.content.Pv? ==> p.content.uuid != m.pvUuid)
    {
      var l :| 0 <= l < |e.partitions| && e.partitions[l] == p;
      AfterAt(d, j.members[..k], l);
      if l < |d.partitions| {
        assert p in d.partitions;
      } else {
        assert Apart(j.members[l - |d.partitions|], m);
      }
    }
  }

  /** The disk partitioned, with whatever lay hidden there. */
  function Partitioned(e: Durable, m: Member): Durable
    requires m.device in e.disks
  {
    var x := e.disks[m.device];
    var content := if x.leftover.Some? then Foreign(x.leftover.value) else Blank;
    e.(disks := e.disks[m.device := x.(signatures := ["gpt"])],
       partitions := e.partitions + [Partition(m.device, 1, m.partitionUuid, x.sizeBytes, false, content)])
  }

  lemma PartitionStep(e: Durable, j: Journal, m: Member)
    requires OldMember(j, m) == None && ValidRequest(j.request, e.owner) && RoomFor(e, m)
    ensures Settle(PreparePartition(j, m), e) == Ok(Partitioned(e, m))
  {
    hide IsUuid, IsDiskName, IsManagedDevice;
    NoMatches(e.partitions, m.partitionUuid);
    var request := j.request.(disks := [AsDisk(m, true)]);
    assert ValidRequest(request, request.deviceId);
    var plans := PlanDisks(e, request.disks, [], {});
    assert PlanDisk(e, request.disks[0], None, {}) == Ok(Plan(m.device, true));
    assert request.disks[1..] == [];
    assert PlanDisks(e, [], [], {} + {m.device}) == Ok([]);
    assert plans == Ok([Plan(m.device, true)] + []);
  }

  lemma LocatedNew(e: Durable, m: Member)
    requires RoomFor(e, m)
    ensures Locate(Partitioned(e, m), m) == Ok(|e.partitions|)
  {
    hide ValidDisk, IsUuid;
    var f := Partitioned(e, m);
    forall l | 0 <= l < |e.partitions|
      ensures f.partitions[l].uuid != m.partitionUuid
    {
      assert e.partitions[l] in e.partitions;
    }
    OnlyMatch(f.partitions, |e.partitions|);
  }

  function WithPv(e: Durable, m: Member): Durable
    requires m.device in e.disks
  {
    var f := Partitioned(e, m);
    var k := |e.partitions|;
    f.(partitions := f.partitions[k := f.partitions[k].(content := Pv(m.pvUuid, "", f.partitions[k].sizeBytes))])
  }

  /** A hidden signature stops the journal here; a clean disk becomes a physical volume. */
  lemma PvStep(e: Durable, j: Journal, m: Member)
    requires OldMember(j, m) == None && RoomFor(e, m)
    ensures Settle(PreparePv(j, m), Partitioned(e, m)) == if Clean(e, m) then Ok(WithPv(e, m)) else Refused
  {
    hide ValidDisk, IsUuid, Locate;
    LocatedNew(e, m);
    var f := Partitioned(e, m);
    var k := |e.partitions|;
    forall l | 0 <= l < |f.partitions| && l != k
      ensures f.partitions[l].disk != m.device
      ensures f.partitions[l].content.Pv? ==> f.partitions[l].content.uuid != m.pvUuid
    {
      assert f.partitions[l] == e.partitions[l] && e.partitions[l] in e.partitions;
    }
    assert OnlyPartition(f.partitions, k);
    forall p <- f.partitions
      ensures !(p.content.Pv? && p.content.uuid == m.pvUuid)
    {
      var l :| 0 <= l < |f.partitions| && f.partitions[l] == p;
    }
  }

  lemma FitStep(e: Durable, j: Journal, m: Member)
    requires RoomFor(e, m)
    ensures Settle(FitPv(j, m), WithPv(e, m)) == Ok(WithPv(e, m))
  {
    hide ValidDisk, IsUuid;
    LocatedNew(e, m);
    var f, g := Partitioned(e, m), WithPv(e, m);
    MatchesExtend(f.partitions, g.partitions, m.partitionUuid);
    var k := |e.partitions|;
    assert g.partitions[k := g.partitions[k]] == g.partitions;
  }

  lemma AfterNext(d: Durable, j: Journal, k: nat)
    requires First(d, j) && k < |j.members| && Placeable(d, j.members[..k]) && Placeable(d, j.members[..k + 1])
    requires After(d, j.members[..k]).disks[j.members[k].device] == d.disks[j.members[k].device]
    requires j.members[k].device in d.disks
    ensures WithPv(After(d, j.members[..k]), j.members[k]) == After(d, j.members[..k + 1])
  {
    hide First;
    var e, f := After(d, j.members[..k]), After(d, j.members[..k + 1]);
    var m := j.members[k];
    assert j.members[..k + 1][..k] == j.members[..k];
    var g := WithPv(e, m);
    forall l | 0 <= l < |f.partitions|
      ensures g.partitions[l] == f.partitions[l]
    {
      AfterAt(d, j.members[..k + 1], l);
      if l < |e.partitions| {
        AfterAt(d, j.members[..k], l);
      }
    }
    assert g.partitions == f.partitions;
  }

  /** One more turn of the member loop. */
  lemma WalkMember(j: Journal, k: nat, d: Durable, e: Durable, f: Durable)
    requires k < |j.members| && Walk(MemberSteps(j, j.members[..k]), d) == (e, true)
    requires
      var m := j.members[k];
      Walk([PreparePartition(j, m), PreparePv(j, m), FitPv(j, m)], e) == (f, true)
    ensures Walk(MemberSteps(j, j.members[..k + 1]), d) == (f, true)
  {
    hide Settle;
    var m := j.members[k];
    assert j.members[..k + 1][..k] == j.members[..k];
    WalkSplit(MemberSteps(j, j.members[..k]), [PreparePartition(j, m), PreparePv(j, m), FitPv(j, m)], d);
  }

  lemma NoMembers(j: Journal, d: Durable)
    ensures Walk(MemberSteps(j, j.members[..0]), d) == (d, true)
  {
    assert j.members[..0] == [];
  }

  lemma AfterSame(d: Durable, members: seq<Member>)
    requires Placeable(d, members)
    ensures After(d, members).owner == d.owner && After(d, members).disks.Keys == d.disks.Keys
  {
  }

  lemma AfterNone(d: Durable, j: Journal)
    ensures Placeable(d, j.members[..0]) && After(d, j.members[..0]) == d
  {
    assert j.members[..0] == [];
    assert After(d, []).partitions == d.partitions;
  }

  /** The member loop over the first `k` members, all of them clean. */
  lemma {:induction false} MembersBuilt(d: Durable, j: Journal, k: nat)
    requires First(d, j) && k <= |j.members| && forall i :: 0 <= i < k ==> Clean(d, j.members[i])
    ensures Placeable(d, j.members) && Placeable(d, j.members[..k])
    ensures Walk(MemberSteps(j, j.members[..k]), d) == (After(d, j.members[..k]), true)
    decreases k
  {
    hide Settle, RoomFor, LvmSound, ValidRequest, Clean, MemberSteps, Walk, Apart, After;
    AllPlaceable(d, j);
    if k == 0 {
      AfterNone(d, j);
      NoMembers(j, d);
    } else {
      var m := j.members[k - 1];
      MembersBuilt(d, j, k - 1);
      StillRoom(d, j, k - 1);
      AfterSame(d, j.members[..k - 1]);
      var e := After(d, j.members[..k - 1]);
      assert Clean(e, m) by { SameClean(d, e, m); }
      PartitionStep(e, j, m);
      PvStep(e, j, m);
      FitStep(e, j, m);
      AfterNext(d, j, k - 1);
      ThreeSteps(j, m, e, Partitioned(e, m), WithPv(e, m), WithPv(e, m));
      WalkMember(j, k - 1, d, e, WithPv(e, m));
    }
  }

  lemma AllPlaceable(d: Durable, j: Journal)
    requires First(d, j)
    ensures Placeable(d, j.members) && forall k :: 0 <= k <= |j.members| ==> Placeable(d, j.members[..k])
  {
    hide LvmSound, ValidRequest;
    forall i | 0 <= i < |j.members|
      ensures j.members[i].device in d.disks
    {
      assert RoomFor(d, j.members[i]);
    }
  }

  lemma SameClean(d: Durable, e: Durable, m: Member)
    requires m.device in d.disks && m.device in e.disks && e.disks[m.device] == d.disks[m.device]
    ensures Clean(e, m) <==> Clean(d, m)
  {
  }

  lemma ThreeSteps(j: Journal, m: Member, a: Durable, b: Durable, c: Durable, e: Durable)
    requires Settle(PreparePartition(j, m), a) == Ok(b) && Settle(PreparePv(j, m), b) == Ok(c)
    requires Settle(FitPv(j, m), c) == Ok(e)
    ensures Walk([PreparePartition(j, m), PreparePv(j, m), FitPv(j, m)], a) == (e, true)
  {
    hide Settle;
    var steps := [PreparePartition(j, m), PreparePv(j, m), FitPv(j, m)];
    assert steps[1..] == [PreparePv(j, m), FitPv(j, m)];
    assert steps[1..][1..] == [FitPv(j, m)];
    assert steps[1..][1..][1..] == [];
    assert Walk(steps[1..][1..], c) == (e, true);
    assert Walk(steps[1..], b) == (e, true);
  }

  lemma StepsPrefix(j: Journal, members: seq<Member>, k: nat)
    requires k < |members|
    ensures MemberSteps(j, members)[..3 * k + 2] ==
      MemberSteps(j, members[..k]) + [PreparePartition(j, members[k]), PreparePv(j, members[k])]
  {
    hide MemberSteps;
    var a := MemberSteps(j, members);
    forall n | 0 <= n < 3 * k + 2
      ensures a[n] == (MemberSteps(j, members[..k]) + [PreparePartition(j, members[k]), PreparePv(j, members[k])])[n]
    {
      MemberStepAt(j, members, n);
      if n < 3 * k {
        MemberStepAt(j, members[..k], n);
      }
    }
  }

  /** A member whose physical volume is refused stops the journal. */
  lemma StopsAt(j: Journal, k: nat, d: Durable, e: Durable, f: Durable)
    requires k < |j.members| && Walk(MemberSteps(j, j.members[..k]), d) == (e, true)
    requires Settle(PreparePartition(j, j.members[k]), e) == Ok(f)
    requires Settle(PreparePv(j, j.members[k]), f).Refused?
    ensures !Walk(Prepare(j), d).1
  {
    hide Settle;
    var m := j.members[k];
    var first, rest := MemberSteps(j, j.members[..k]), [PreparePartition(j, m), PreparePv(j, m)];
    StepsPrefix(j, j.members, k);
    assert Prepare(j)[..3 * k + 2] == first + rest;
    assert rest[1..] == [PreparePv(j, m)];
    WalkSplit(first, rest, d);
    assert Prepare(j) == Prepare(j)[..3 * k + 2] + Prepare(j)[3 * k + 2..];
    WalkSplit(Prepare(j)[..3 * k + 2], Prepare(j)[3 * k + 2..], d);
  }

  /** A member whose disk hides a signature stops the journal. */
  lemma HiddenSignature(d: Durable, j: Journal, k: nat)
    requires First(d, j) && k < |j.members| && !Clean(d, j.members[k])
    requires forall i :: 0 <= i < k ==> Clean(d, j.members[i])
    ensures !Walk(Prepare(j), d).1
  {
    hide Settle, RoomFor, LvmSound, ValidRequest, Clean, MemberSteps, Walk, Prepare, Apart;
    var m := j.members[k];
    MembersBuilt(d, j, k);
    StillRoom(d, j, k);
    var e := After(d, j.members[..k]);
    SameClean(d, e, m);
    PartitionStep(e, j, m);
    PvStep(e, j, m);
    StopsAt(j, k, d, e, Partitioned(e, m));
  }

  // --------------------------------------------------------------- the group

  lemma MemberIndexed(members: seq<Member>, m: Member) returns (i: nat)
    requires m in members
    ensures i < |members| && members[i] == m
  {
    i :| 0 <= i < |members| && members[i] == m;
  }

  /** No other partition carries a new member's uuid. */
  lemma UuidAlone(d: Durable, j: Journal, i: nat, l: nat)
    requires First(d, j) && i < |j.members| && Placeable(d, j.members)
    requires l < |d.partitions| + |j.members| && l != |d.partitions| + i
    ensures After(d, j.members).partitions[l].uuid != j.members[i].partitionUuid
  {
    hide LvmSound, ValidRequest, ValidDisk, IsUuid, Labelled, After;
    AfterAt(d, j.members, l);
    if l < |d.partitions| {
      assert RoomFor(d, j.members[i]) && d.partitions[l] in d.partitions;
    } else {
      var n := l - |d.partitions|;
      assert if n < i then Apart(j.members[n], j.members[i]) else Apart(j.members[i], j.members[n]);
    }
  }

  /** Where each member's partition is found, whatever labels the partitions have got since. */
  lemma LocatedAt(d: Durable, j: Journal, e: Durable, i: nat)
    requires First(d, j) && i < |j.members| && Placeable(d, j.members)
    requires SameUuids(After(d, j.members), e)
    ensures Locate(e, j.members[i]) == Ok(|d.partitions| + i)
  {
    hide First, After, Matches;
    var f := After(d, j.members);
    var k := |d.partitions| + i;
    AfterAt(d, j.members, k);
    forall l | 0 <= l < |f.partitions| && l != k
      ensures f.partitions[l].uuid != f.partitions[k].uuid
    {
      UuidAlone(d, j, i, l);
    }
    OnlyMatch(f.partitions, k);
    MatchesExtend(f.partitions, e.partitions, j.members[i].partitionUuid);
  }

  ghost predicate SameUuids(d: Durable, e: Durable) {
    |e.partitions| == |d.partitions| && forall k :: 0 <= k < |d.partitions| ==>
      e.partitions[k].uuid == d.partitions[k].uuid
  }

  /** A group that is there already holds someone else's physical volume. */
  lemma GroupTaken(d: Durable, j: Journal)
    requires First(d, j) && Placeable(d, j.members) && JournalGroup(j) in d.groups
    ensures Settle(BuildGroup(j), After(d, j.members)).Refused?
  {
    hide ValidRequest, ValidDisk, IsUuid, Labelled;
    var name := JournalGroup(j);
    var e := After(d, j.members);
    var uuid :| uuid in GroupMembers(d.partitions, name);
    var p :| p in d.partitions && p.content.Pv? && p.content.group == name && p.content.uuid == uuid;
    var k :| 0 <= k < |d.partitions| && d.partitions[k] == p;
    AfterAt(d, j.members, k);
    assert e.partitions[k] in e.partitions;
    forall m <- j.members
      ensures m.pvUuid != uuid
    {
      var i := MemberIndexed(j.members, m);
      assert RoomFor(d, j.members[i]);
    }
    assert SomeoneElses(e, j.members, name);
  }

  function Joined(d: Durable, j: Journal): Durable
    requires Placeable(d, j.members)
  {
    var e := After(d, j.members);
    var name := JournalGroup(j);
    e.(partitions := JoinAll(e.partitions, Located(e, j.members), name),
       groups := e.groups[name := Group(e.supply, JournalTags(j), [])], supply := e.supply + 1)
  }

  lemma NewLocated(d: Durable, j: Journal, k: nat)
    requires First(d, j) && Placeable(d, j.members) && k in Located(After(d, j.members), j.members)
    ensures |d.partitions| <= k < |d.partitions| + |j.members|
    ensures After(d, j.members).partitions[k] == NewPartition(d, j.members[k - |d.partitions|])
  {
    hide First;
    var e := After(d, j.members);
    var m :| m in j.members && Locate(e, m).Ok? && Locate(e, m).value == k;
    var i := MemberIndexed(j.members, m);
    LocatedAt(d, j, e, i);
    AfterAt(d, j.members, k);
  }

  /** No physical volume names a group that is not there. */
  lemma NameUnused(d: Durable, j: Journal)
    requires First(d, j) && Placeable(d, j.members) && JournalGroup(j) !in d.groups
    ensures GroupMembers(After(d, j.members).partitions, JournalGroup(j)) == {}
  {
    hide ValidRequest, ValidDisk, IsUuid, Labelled, RoomFor;
    NamedGroup(j);
    var name := JournalGroup(j);
    var e := After(d, j.members);
    forall p <- e.partitions
      ensures !(p.content.Pv? && p.content.group == name)
    {
      var k :| 0 <= k < |e.partitions| && e.partitions[k] == p;
      AfterAt(d, j.members, k);
      if k < |d.partitions| {
        NotInGroup(d.partitions, name, k);
      }
    }
  }

  lemma SameGroups(d: Durable, members: seq<Member>)
    requires Placeable(d, members)
    ensures After(d, members).groups == d.groups
  {
  }

  lemma GroupFree(d: Durable, j: Journal)
    requires First(d, j) && Placeable(d, j.members) && JournalGroup(j) !in d.groups
    ensures Settle(BuildGroup(j), After(d, j.members)) == Ok(Joined(d, j))
  {
    hide LvmSound, ValidRequest, RoomFor, Located, Locate, After, JoinAll, SomeoneElses, Additional, GroupMembers;
    var e := After(d, j.members);
    SameGroups(d, j.members);
    NameUnused(d, j);
    forall m <- j.members
      ensures Locate(e, m).Ok?
    {
      var i := MemberIndexed(j.members, m);
      LocatedAt(d, j, e, i);
    }
    forall k <- Located(e, j.members)
      ensures k < |e.partitions| && e.partitions[k].content.Pv? && e.partitions[k].content.group == ""
    {
      NewLocated(d, j, k);
    }
  }

  /** What one physical volume gives the group. */
  lemma {:induction false} SomeCapacity(partitions: seq<Partition>, group: string, k: nat)
    requires k < |partitions| && PvBytes(partitions[k], group) > 0
    requires forall p <- partitions :: PvBytes(p, group) >= 0
    ensures Capacity(partitions, group) > 0
  {
    var last := |partitions| - 1;
    if k < last {
      SomeCapacity(partitions[..last], group, k);
    } else {
      NoDebt(partitions[..last], group);
    }
  }

  lemma {:induction false} NoDebt(partitions: seq<Partition>, group: string)
    requires forall p <- partitions :: PvBytes(p, group) >= 0
    ensures Capacity(partitions, group) >= 0
  {
    if partitions != [] {
      NoDebt(partitions[..|partitions| - 1], group);
    }
  }

  lemma JoinedBytes(d: Durable, j: Journal, k: nat)
    requires First(d, j) && Placeable(d, j.members) && JournalGroup(j) !in d.groups && k < |Joined(d, j).partitions|
    ensures
      var bytes := PvBytes(Joined(d, j).partitions[k], JournalGroup(j));
      bytes >= 0 && (k in Located(After(d, j.members), j.members) ==> bytes > 0)
  {
    hide LvmSound, Located, After, IsUuid, IsDiskName, IsManagedDevice, GroupMembers, ValidRequest;
    var e := After(d, j.members);
    NameUnused(d, j);
    if k in Located(e, j.members) {
      NewLocated(d, j, k);
      assert RoomFor(d, j.members[k - |d.partitions|]);
    } else {
      NotInGroup(e.partitions, JournalGroup(j), k);
    }
  }

  lemma JoinedCapacity(d: Durable, j: Journal)
    requires First(d, j) && Placeable(d, j.members) && JournalGroup(j) !in d.groups
    ensures FreeBytes(Joined(d, j), JournalGroup(j)) > 0
  {
    hide LvmSound, Located, Locate, After, JoinAll, RoomFor, PvBytes, Capacity, ValidDisk;
    var e, b := After(d, j.members), Joined(d, j);
    forall p <- b.partitions
      ensures PvBytes(p, JournalGroup(j)) >= 0
    {
      var k :| 0 <= k < |b.partitions| && b.partitions[k] == p;
      JoinedBytes(d, j, k);
    }
    LocatedAt(d, j, e, 0);
    LocatedIs(e, j.members, j.members[0]);
    JoinedBytes(d, j, |d.partitions|);
    SomeCapacity(b.partitions, JournalGroup(j), |d.partitions|);
  }

  lemma LocatedIs(e: Durable, members: seq<Member>, m: Member)
    requires m in members && Locate(e, m).Ok?
    ensures Locate(e, m).value in Located(e, members)
  {
  }

  // --------------------------------------------------- the volume and the rest

  /** The pool's one volume has no filesystem yet. */
  ghost predicate Bare(d: Durable, name: string) {
    OneVolume(d, name) && d.groups[name].volumes[0].fs.None?
  }

  lemma SettledGroupMembers(j: Journal, d: Durable)
    requires GroupSettled(j, d) && MembersReady(j, j.members, d)
    ensures GroupMembers(d.partitions, JournalGroup(j)) == MemberPvs(j.members)
  {
    hide Settle;
    var name := JournalGroup(j);
    forall uuid
      ensures uuid in GroupMembers(d.partitions, name) <==> uuid in MemberPvs(j.members)
    {
      if uuid in GroupMembers(d.partitions, name) {
        var p :| p in d.partitions && p.content.Pv? && p.content.group == name && p.content.uuid == uuid;
        var k :| 0 <= k < |d.partitions| && d.partitions[k] == p;
      }
      if uuid in MemberPvs(j.members) {
        var m :| m in j.members && m.pvUuid == uuid;
        assert Settle(FitPv(j, m), d) == Ok(d);
        ReadyMember(j, m, d);
        assert d.partitions[Locate(d, m).value] in d.partitions;
      }
    }
  }

  lemma VolumeStep(j: Journal, d: Durable) returns (e: Durable)
    requires j.oldState == None && Built(j, 1, d) && MembersReady(j, j.members, d)
    requires d.groups[JournalGroup(j)].volumes == [] && FreeBytes(d, JournalGroup(j)) > 0
    ensures Settle(BuildVolume(j), d) == Ok(e) && Bare(e, JournalGroup(j))
  {
    hide MembersReady, FreeBytes;
    e := Settle(BuildVolume(j), d).value;
  }

  lemma FillStep(j: Journal, d: Durable) returns (e: Durable)
    requires j.oldState == None && Built(j, 2, d) && MembersReady(j, j.members, d) && Bare(d, JournalGroup(j))
    ensures Settle(FillVolume(j), d) == Ok(e) && Bare(e, JournalGroup(j))
  {
    hide MembersReady, FreeBytes;
    SettledGroupMembers(j, d);
    assert JournalLvm(j, d);
    e := Settle(FillVolume(j), d).value;
  }

  lemma FilesystemSteps(j: Journal, d: Durable) returns (e: Durable, f: Durable)
    requires j.oldState == None && Bare(d, JournalGroup(j))
    ensures Settle(BuildFilesystem(j), d) == Ok(e)
    ensures Settle(FitFilesystem(j), e) == Ok(f) && OneVolume(f, JournalGroup(j))
  {
    hide FreeBytes;
    e := Settle(BuildFilesystem(j), d).value;
    f := Settle(FitFilesystem(j), e).value;
  }

  lemma FileSteps(j: Journal, d: Durable)
    requires OneVolume(d, JournalGroup(j))
    ensures Settle(Install, d) == Ok(d.(serviceInstalled := true))
    ensures Settle(Commit(j), d.(serviceInstalled := true)).Ok?
  {
    hide NextState;
  }

  lemma WalkOne(j: Journal, n: nat, d: Durable, x: Durable, y: Durable)
    requires n < |BuildSteps(j)| && Walk(BuildSteps(j)[..n], d) == (x, true) && Settle(BuildSteps(j)[n], x) == Ok(y)
    ensures Walk(BuildSteps(j)[..n + 1], d) == (y, true)
  {
    hide Settle;
    assert BuildSteps(j)[..n + 1] == BuildSteps(j)[..n] + [BuildSteps(j)[n]];
    WalkSplit(BuildSteps(j)[..n], [BuildSteps(j)[n]], d);
    assert [BuildSteps(j)[n]][1..] == [];
  }

  /** Once the group is there, nothing stops the rest of the build. */
  lemma RestBuilt(j: Journal, d: Durable, b: Durable)
    requires j.oldState == None && Settle(BuildGroup(j), d) == Ok(b)
    requires Built(j, 1, b) && MembersReady(j, j.members, b) && Sound(b, j)
    requires b.groups[JournalGroup(j)].volumes == [] && FreeBytes(b, JournalGroup(j)) > 0
    ensures Walk(BuildSteps(j), d).1
  {
    hide Settle, Built, MembersReady, Sound, FreeBytes, Bare, OneVolume, Walk;
    NoSteps(j, d);
    WalkOne(j, 0, d, d, b);
    var v := VolumeStep(j, b);
    WalkOne(j, 1, d, b, v);
    BuildDone(j, 1, b, v);
    var f := FillStep(j, v);
    WalkOne(j, 2, d, v, f);
    Bared(f, j);
    WalkOne(j, 3, d, f, f);
    var g, h := FilesystemSteps(j, f);
    WalkOne(j, 4, d, f, g);
    WalkOne(j, 5, d, g, h);
    FileSteps(j, h);
    WalkOne(j, 6, d, h, h.(serviceInstalled := true));
    WalkOne(j, 7, d, h.(serviceInstalled := true), Settle(Commit(j), h.(serviceInstalled := true)).value);
    assert BuildSteps(j)[..8] == BuildSteps(j);
  }

  lemma Bared(f: Durable, j: Journal)
    requires Bare(f, JournalGroup(j))
    ensures Settle(ActivateBuilt(j), f) == Ok(f)
  {
  }

  lemma NoSteps(j: Journal, d: Durable)
    ensures Walk(BuildSteps(j)[..0], d) == (d, true)
  {
    assert BuildSteps(j)[..0] == [];
  }

  // -------------------------------------------------------------- activation

  /** The members where the journal put them, in what the build leaves. */
  ghost predicate InPlace(d: Durable, j: Journal, c: Durable)
    requires Placeable(d, j.members)
  {
    && SameUuids(After(d, j.members), c)
    && (forall k :: 0 <= k < |c.partitions| ==> c.partitions[k].disk == After(d, j.members).partitions[k].disk)
    && c.disks == Labelled(d, j.members)
  }

  lemma MemberInPlace(d: Durable, j: Journal, c: Durable, i: nat)
    requires First(d, j) && Placeable(d, j.members) && InPlace(d, j, c) && i < |j.members|
    ensures Locate(c, j.members[i]) == Ok(|d.partitions| + i)
    ensures c.partitions[|d.partitions| + i].disk == j.members[i].device
  {
    hide First, Labelled;
    LocatedAt(d, j, c, i);
    AfterAt(d, j.members, |d.partitions| + i);
  }

  lemma SettledSame(d: Durable, j: Journal, c: Durable)
    requires First(d, j) && Placeable(d, j.members) && InPlace(d, j, c)
    ensures SettledAll(c, j.members) == j.members
  {
    hide First, InPlace;
    forall i | 0 <= i < |j.members|
      ensures Settled(c, j.members[i]) == j.members[i]
    {
      MemberInPlace(d, j, c, i);
    }
  }

  lemma FoundById(j: Journal, d: Durable, i: nat)
    requires First(d, j) && i < |j.members|
    ensures FindMember(j.members, j.members[i].id) == Some(j.members[i])
  {
    hide LvmSound, ValidRequest, RoomFor;
    var found := FindMember(j.members, j.members[i].id);
    assert j.members[i] in j.members && found.Some?;
    var k := MemberIndexed(j.members, found.value);
    assert if k < i then Apart(j.members[k], j.members[i]) else k == i || Apart(j.members[i], j.members[k]);
  }

  lemma PlannedAgain(d: Durable, j: Journal, c: Durable, i: nat, used: set<string>)
    requires First(d, j) && Placeable(d, j.members) && InPlace(d, j, c) && MembersReady(j, j.members, c)
    requires i < |j.members| && forall n :: i <= n < |j.members| ==> j.members[n].device !in used
    ensures PlanDisk(c, AsDisk(j.members[i], false), Some(j.members[i]), used) == Ok(Plan(j.members[i].device, false))
  {
    hide LvmSound, ValidRequest, InPlace, Settle, ValidDisk, IsUuid, IsBlankDisk, Unused;
    var m := j.members[i];
    MemberInPlace(d, j, c, i);
    assert m in j.members;
    assert Settle(FitPv(j, m), c) == Ok(c);
    ReadyMember(j, m, c);
    assert RoomFor(d, m);
    DiskInPlace(d, j, c, m.device);
  }

  lemma DiskInPlace(d: Durable, j: Journal, c: Durable, disk: string)
    requires Placeable(d, j.members) && InPlace(d, j, c) && disk in d.disks
    ensures disk in c.disks && c.disks[disk].root == d.disks[disk].root &&
      c.disks[disk].sizeBytes == d.disks[disk].sizeBytes
  {
  }

  lemma {:induction false} AllPlannedAgain(d: Durable, j: Journal, c: Durable, i: nat, used: set<string>)
    requires First(d, j) && Placeable(d, j.members) && InPlace(d, j, c) && MembersReady(j, j.members, c)
    requires i <= |j.members| && forall n :: i <= n < |j.members| ==> j.members[n].device !in used
    ensures PlanDisks(c, AsDisks(j.members)[i..], j.members, used).Ok?
    decreases |j.members| - i
  {
    hide LvmSound, ValidRequest, InPlace, MembersReady, RoomFor, PlanDisk;
    if i < |j.members| {
      var disks := AsDisks(j.members)[i..];
      assert disks[0] == AsDisk(j.members[i], false) && disks[1..] == AsDisks(j.members)[i + 1..];
      PlannedAgain(d, j, c, i, used);
      FoundById(j, d, i);
      forall n | i + 1 <= n < |j.members|
        ensures j.members[n].device !in used + {j.members[i].device}
      {
        assert Apart(j.members[i], j.members[n]);
      }
      AllPlannedAgain(d, j, c, i + 1, used + {j.members[i].device});
    }
  }

  lemma SavedValid(d: Durable, j: Journal, s: State)
    requires First(d, j) && s.disks == j.members && s.deviceId == j.request.deviceId && s.poolId == j.request.poolId
    requires s.generation == j.request.generation && s.filesystemUuid == j.filesystemUuid
    ensures ValidState(s, d.owner) && ValidRequest(AsRequest(s), s.deviceId)
  {
    hide LvmSound, IsUuid, IsDiskName, IsManagedDevice, IsBlankDisk, Unused, OwnerTags, GroupName;
    var disks := AsDisks(s.disks);
    forall i | 0 <= i < |disks|
      ensures ValidDisk(disks[i]) && IsUuid(s.disks[i].partitionUuid) && s.disks[i].pvUuid != ""
    {
      assert RoomFor(d, j.members[i]);
    }
    forall i, k | 0 <= i < k < |disks|
      ensures disks[i].id != disks[k].id && disks[i].device != disks[k].device
    {
      assert Apart(j.members[i], j.members[k]);
    }
    forall m <- s.disks
      ensures IsUuid(m.partitionUuid) && m.pvUuid != ""
    {
      var i := MemberIndexed(s.disks, m);
    }
  }

  lemma SavedTransition(s: State)
    ensures ValidTransition(AsRequest(s), Some(s))
  {
    var disks := AsDisks(s.disks);
    forall m <- s.disks
      ensures AsDisk(m, false) in disks
    {
      var i := MemberIndexed(s.disks, m);
      assert disks[i] == AsDisk(m, false);
    }
    forall disk <- disks
      ensures exists m <- s.disks :: m.id == disk.id && m.allocationBytes == disk.allocationBytes
    {
      var i :| 0 <= i < |disks| && disks[i] == disk;
      assert s.disks[i] in s.disks;
    }
  }

  /** The saved pool passes the inspection of the boot that follows. */
  lemma SavedActivates(d: Durable, j: Journal, c: Durable)
    requires First(d, j) && Placeable(d, j.members) && InPlace(d, j, c) && Ready(j, |Prepare(j)|, c)
    requires c.owner == d.owner
    ensures Activatable(c)
  {
    hide LvmSound, ValidRequest, InPlace, MembersReady, RoomFor, ValidState, ValidTransition, PlanDisks, GroupSettled;
    assert Built(j, 8, c) && MembersReady(j, j.members, c);
    var s := c.state.value;
    SettledSame(d, j, c);
    assert s == NextState(j, c);
    SavedValid(d, j, s);
    SavedTransition(s);
    AllPlannedAgain(d, j, c, 0, {});
    assert AsDisks(j.members)[0..] == AsDisks(j.members);
  }

  // ----------------------------------------------------------- the whole journal

  /** Nothing in the way: every disk is clean, and the pool's group does not exist. */
  predicate Unhindered(d: Durable, j: Journal) {
    (forall m <- j.members :: Clean(d, m)) && JournalGroup(j) !in d.groups
  }

  lemma {:induction false} BuildInPlace(j: Journal, n: nat, d: Durable)
    requires 1 <= n <= |BuildSteps(j)| && Walk(BuildSteps(j)[..n], d).1 && Settle(BuildGroup(j), d).Ok?
    ensures
      var b, e := Settle(BuildGroup(j), d).value, Walk(BuildSteps(j)[..n], d).0;
      e.partitions == b.partitions && e.disks == b.disks
    decreases n
  {
    hide Settle;
    assert BuildSteps(j)[..n] == BuildSteps(j)[..n - 1] + [BuildSteps(j)[n - 1]];
    WalkSplit(BuildSteps(j)[..n - 1], [BuildSteps(j)[n - 1]], d);
    assert [BuildSteps(j)[n - 1]][1..] == [];
    if n > 1 {
      BuildInPlace(j, n - 1, d);
      var x := Walk(BuildSteps(j)[..n - 1], d).0;
      PoolSafety.BuildSteady(j, n - 1, x, Settle(BuildSteps(j)[n - 1], x).value);
    } else {
      NoSteps(j, d);
    }
  }

  lemma JoinedInPlace(d: Durable, j: Journal, c: Durable)
    requires Placeable(d, j.members) && c.partitions == Joined(d, j).partitions && c.disks == Joined(d, j).disks
    ensures InPlace(d, j, c)
  {
    hide Located, Labelled;
  }

  /** The member loop and the build both run to their end. */
  lemma BuildsWhole(d: Durable, j: Journal)
    requires First(d, j) && Sound(d, j) && Unhindered(d, j)
    ensures Placeable(d, j.members) && Walk(Prepare(j), d).1 && InPlace(d, j, Walk(Prepare(j), d).0)
  {
    hide Settle, RoomFor, LvmSound, ValidRequest, Clean, Ready, Sound, Located, InPlace, After, First, FreeBytes,
      MembersReady;
    hide Joined, GroupSettled;
    AllPlaceable(d, j);
    var n := |j.members|;
    assert j.members[..n] == j.members;
    forall i | 0 <= i < n
      ensures Clean(d, j.members[i])
    {
      assert j.members[i] in j.members;
    }
    MembersBuilt(d, j, n);
    var e, b := After(d, j.members), Joined(d, j);
    GroupFree(d, j);
    MembersWalked(d, j, e);
    WalkReady(j, 3 * n, d);
    ReadyMembers(j, e);
    GroupDone(j, e, b);
    JoinedBare(d, j);
    RestBuilt(j, e, b);
    WalkSplit(MemberSteps(j, j.members), BuildSteps(j), d);
    assert BuildSteps(j)[..8] == BuildSteps(j);
    BuildInPlace(j, 8, e);
    JoinedInPlace(d, j, Walk(BuildSteps(j), e).0);
  }

  lemma JoinedBare(d: Durable, j: Journal)
    requires First(d, j) && Placeable(d, j.members) && JournalGroup(j) !in d.groups
    ensures j.oldState == None
    ensures JournalGroup(j) in Joined(d, j).groups && Joined(d, j).groups[JournalGroup(j)].volumes == []
    ensures FreeBytes(Joined(d, j), JournalGroup(j)) > 0
  {
    hide Located, After, FreeBytes, LvmSound, RoomFor, ValidRequest;
    JoinedCapacity(d, j);
  }

  lemma Succeeds(d: Durable, j: Journal)
    requires First(d, j) && Sound(d, j) && Unhindered(d, j)
    ensures Target(d, j).1 == Done
  {
    hide First, Sound, Unhindered, Settle, Ready, Activatable, InPlace, Placeable;
    BuildsWhole(d, j);
    assert Prepare(j)[..|Prepare(j)|] == Prepare(j);
    WalkReady(j, |Prepare(j)|, d);
    WalkFiles(j, |Prepare(j)|, d);
    SavedActivates(d, j, Walk(Prepare(j), d).0);
  }

  lemma MembersWalked(d: Durable, j: Journal, e: Durable)
    requires Walk(MemberSteps(j, j.members), d) == (e, true)
    ensures Walk(Prepare(j)[..3 * |j.members|], d) == (e, true)
  {
    assert Prepare(j)[..3 * |j.members|] == MemberSteps(j, j.members);
  }

  lemma ReadyMembers(j: Journal, e: Durable)
    requires Ready(j, 3 * |j.members|, e)
    ensures MembersReady(j, j.members, e)
  {
  }

  lemma {:induction false} FirstHidden(d: Durable, members: seq<Member>) returns (k: nat)
    requires exists m <- members :: !Clean(d, m)
    ensures k < |members| && !Clean(d, members[k]) && forall i :: 0 <= i < k ==> Clean(d, members[i])
  {
    k := 0;
    if Clean(d, members[0]) {
      var m :| m in members && !Clean(d, m);
      assert m in members[1..];
      var i := FirstHidden(d, members[1..]);
      k := i + 1;
    }
  }

  lemma Fails(d: Durable, j: Journal)
    requires First(d, j) && !Unhindered(d, j)
    ensures Target(d, j).1 == Rejected
  {
    hide Settle, RoomFor, LvmSound, ValidRequest, Clean, Activatable, After, First;
    if exists m <- j.members :: !Clean(d, m) {
      var k := FirstHidden(d, j.members);
      HiddenSignature(d, j, k);
    } else {
      AllPlaceable(d, j);
      var n := |j.members|;
      assert j.members[..n] == j.members;
      forall i | 0 <= i < n
        ensures Clean(d, j.members[i])
      {
        assert j.members[i] in j.members;
      }
      MembersBuilt(d, j, n);
      GroupTaken(d, j);
      WalkSplit(MemberSteps(j, j.members), BuildSteps(j), d);
    }
  }

  /**
   A first pool's journal finishes exactly when no disk hides a signature behind its first
   partition's offset and no volume group has the pool's name. Otherwise every attempt is refused
   at the same step, while no other request is accepted.
   */
  lemma FirstPoolDone(d: Durable, j: Journal)
    requires First(d, j) && Sound(d, j)
    ensures Target(d, j).1 == Done <==> Unhindered(d, j)
  {
    hide First, Sound, Unhindered;
    if Unhindered(d, j) {
      Succeeds(d, j);
    } else {
      Fails(d, j);
    }
  }

  /** Identifiers as uuid4 and the volume manager form them. */
  ghost predicate GoodDraw(draw: Draw) {
    && (forall i :: 0 <= i < |draw.members| ==> IsUuid(draw.members[i].partitionUuid) && draw.members[i].pvUuid != "")
    && IsUuid(draw.filesystemUuid)
  }

  lemma {:induction false} NewPlan(d: Durable, disks: seq<DiskRequest>, used: set<string>, i: nat)
    requires PlanDisks(d, disks, [], used).Ok? && i < |disks|
    ensures
      var plan := PlanDisks(d, disks, [], used).value[i];
      && plan.device == disks[i].device && IsBlankDisk(d, disks[i].device)
      && !d.disks[disks[i].device].root && d.disks[disks[i].device].sizeBytes >= disks[i].allocationBytes
  {
    var first := PlanDisk(d, disks[0], FindMember([], disks[0].id), used);
    if i > 0 {
      NewPlan(d, disks[1..], used + {first.value.device}, i - 1);
    }
  }

  lemma NewRoom(d: Durable, request: Request, plans: seq<Plan>, draw: Draw, i: nat)
    requires d.state == None && Planned(d, request, plans, draw) && GoodDraw(draw) && i < |plans|
    requires ValidRequest(request, d.owner)
    ensures RoomFor(d, NewJournal(d, request, plans, draw).members[i])
    ensures NewJournal(d, request, plans, draw).members[i].device == request.disks[i].device
    ensures request.disks[i].device in d.disks
  {
    hide IsUuid, IsDiskName, IsManagedDevice, IsBlankDisk, Unused;
    NewPlan(d, request.disks, {}, i);
  }

  lemma NewApart(d: Durable, request: Request, plans: seq<Plan>, draw: Draw, i: nat, k: nat)
    requires d.state == None && PvUnique(d.partitions) && Planned(d, request, plans, draw) && GoodDraw(draw)
    requires ValidRequest(request, d.owner) && i < k < |plans|
    ensures Apart(NewJournal(d, request, plans, draw).members[i], NewJournal(d, request, plans, draw).members[k])
  {
    hide IsUuid, ValidDisk, RoomFor;
    NewMembersDistinct(d, request, plans, draw, i, k);
    NewMemberKeeps(d, request, plans, draw, i);
    NewMemberKeeps(d, request, plans, draw, k);
    NewRoom(d, request, plans, draw, i);
    NewRoom(d, request, plans, draw, k);
  }

  lemma FirstOf(d: Durable, request: Request, plans: seq<Plan>, draw: Draw)
    requires d.state == None && PvUnique(d.partitions) && LvmSound(d)
    requires ValidRequest(request, d.owner) && Planned(d, request, plans, draw) && GoodDraw(draw)
    ensures
      var j := NewJournal(d, request, plans, draw);
      First(d.(pending := Some(j)), j)
  {
    hide RoomFor, Apart, IsUuid, ValidRequest, PlanDevices, FreshDraw;
    var j := NewJournal(d, request, plans, draw);
    var e := d.(pending := Some(j));
    forall i | 0 <= i < |j.members|
      ensures RoomFor(e, j.members[i])
    {
      NewRoom(d, request, plans, draw, i);
      SameRoom(d, e, j.members[i]);
    }
    forall i, k | 0 <= i < k < |j.members|
      ensures Apart(j.members[i], j.members[k])
    {
      NewApart(d, request, plans, draw, i, k);
    }
  }

  lemma SameRoom(d: Durable, e: Durable, m: Member)
    requires e == d.(pending := e.pending)
    ensures RoomFor(e, m) <==> RoomFor(d, m)
  {
  }

  /**
   A request for a first pool that is accepted finishes exactly when none of its disks hides a
   signature and no volume group has the pool's name.
   */
  lemma FirstRequestDone(d: Durable, request: Request, plans: seq<Plan>, draw: Draw)
    requires d.state == None && PvUnique(d.partitions) && LvmSound(d)
    requires ValidRequest(request, d.owner) && Planned(d, request, plans, draw) && GoodDraw(draw)
    ensures
      var j := NewJournal(d, request, plans, draw);
      Target(d.(pending := Some(j)), j).1 == Done <==>
        (forall disk <- request.disks :: CleanDisk(d, disk.device)) && GroupName(request.poolId) !in d.groups
  {
    hide IsUuid, RoomFor, Target, PlanDevices, LvmSound, FreshDraw, ValidRequest, Apart, GoodDraw;
    var j := NewJournal(d, request, plans, draw);
    var e := d.(pending := Some(j));
    NewJournalSound(d, request, plans, draw);
    FirstOf(d, request, plans, draw);
    SameSound(d, e, j);
    FirstPoolDone(e, j);
    forall i | 0 <= i < |request.disks|
      ensures j.members[i].device == request.disks[i].device
    {
      NewRoom(d, request, plans, draw, i);
    }
    if forall disk <- request.disks :: CleanDisk(d, disk.device) {
      forall m <- j.members
        ensures Clean(e, m)
      {
        var i := MemberIndexed(j.members, m);
        assert CleanDisk(d, request.disks[i].device);
      }
    }
    if forall m <- j.members :: Clean(e, m) {
      forall disk <- request.disks
        ensures CleanDisk(d, disk.device)
      {
        var i :| 0 <= i < |request.disks| && request.disks[i] == disk;
        assert Clean(e, j.members[i]);
      }
    }
  }
}
