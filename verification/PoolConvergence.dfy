/**
 Re-entrancy of the storage journal: every step, once done, is a no-op when it is
 taken again later in the same journal, so a run cut anywhere can be started over.
 */
module PoolConvergence {
  import opened Outcomes
  import opened PoolModel
  import opened PoolSteps

  // ------------------------------------------------------------- durable runs

  /** A run seen only through what survives a power loss. */
  function Walk(steps: seq<Step>, d: Durable): (Durable, bool) {
    if steps == [] then (d, true)
    else
      var next := Settle(steps[0], d);
      if next.Refused? then (d, false) else Walk(steps[1..], next.value)
  }

  ghost predicate Quiet(steps: seq<Step>, d: Durable) {
    forall s <- steps :: Settle(s, d) == Ok(d)
  }

  lemma {:induction false} WalkSplit(a: seq<Step>, b: seq<Step>, d: Durable)
    ensures Walk(a + b, d) == if Walk(a, d).1 then Walk(b, Walk(a, d).0) else Walk(a, d)
  {
    if a == [] {
      assert a + b == b;
    } else {
      assert (a + b)[1..] == a[1..] + b;
      if Settle(a[0], d).Ok? {
        WalkSplit(a[1..], b, Settle(a[0], d).value);
      }
    }
  }

  lemma {:induction false} WalkQuiet(steps: seq<Step>, d: Durable)
    requires Quiet(steps, d)
    ensures Walk(steps, d) == (d, true)
  {
    if steps != [] {
      assert steps[0] in steps;
      WalkQuiet(steps[1..], d);
    }
  }

  // ------------------------------------------------------- journal invariants

  ghost predicate DistinctMembers(members: seq<Member>) {
    forall i, k :: 0 <= i < k < |members| ==> members[i].partitionUuid != members[k].partitionUuid
  }

  ghost predicate IsMember(members: seq<Member>, partitionUuid: string) {
    exists m <- members :: m.partitionUuid == partitionUuid
  }

  /** Partitions of different members lie on different disks. */
  ghost predicate Separate(partitions: seq<Partition>, members: seq<Member>) {
    forall k, l ::
      0 <= k < |partitions| && 0 <= l < |partitions| && partitions[k].uuid != partitions[l].uuid &&
      IsMember(members, partitions[k].uuid) && IsMember(members, partitions[l].uuid)
      ==> partitions[k].disk != partitions[l].disk
  }

  /** LVM tells physical volumes apart by their uuid. */
  ghost predicate PvUnique(partitions: seq<Partition>) {
    forall k, l :: 0 <= k < l < |partitions| && partitions[k].content.Pv? && partitions[l].content.Pv? ==>
      partitions[k].content.uuid != partitions[l].content.uuid
  }

  /** A member the old state already had is journaled under its recorded identities. */
  ghost predicate KeepsIdentities(j: Journal) {
    forall m <- j.members :: OldMember(j, m).Some? ==>
      OldMember(j, m).value.partitionUuid == m.partitionUuid && OldMember(j, m).value.pvUuid == m.pvUuid
  }

  ghost predicate Sound(d: Durable, j: Journal) {
    KeepsIdentities(j) && DistinctMembers(j.members) && Separate(d.partitions, j.members) && PvUnique(d.partitions)
  }

  // ------------------------------------------------- what a member step changes

  ghost predicate SameDisks(d: Durable, e: Durable) {
    e.disks.Keys == d.disks.Keys &&
    forall x <- d.disks :: e.disks[x].root == d.disks[x].root && e.disks[x].sizeBytes == d.disks[x].sizeBytes
  }

  ghost predicate OnDiskOf(partitions: seq<Partition>, disk: string, uuid: string) {
    exists p <- partitions :: p.uuid == uuid && p.disk == disk
  }

  ghost predicate SameIdentity(p: Partition, q: Partition) {
    p.uuid == q.uuid && p.disk == q.disk && p.number == q.number && p.mounted == q.mounted
  }

  /** Between `d` and `e` only the disk of the member with this partition uuid was worked on. */
  ghost predicate MemberFrame(d: Durable, e: Durable, uuid: string) {
    && e == d.(disks := e.disks, partitions := e.partitions)
    && SameDisks(d, e)
    && |d.partitions| <= |e.partitions|
    && (forall k :: 0 <= k < |d.partitions| ==>
         SameIdentity(d.partitions[k], e.partitions[k]) &&
         (e.partitions[k] == d.partitions[k] || OnDiskOf(d.partitions, d.partitions[k].disk, uuid)))
    && (forall k :: |d.partitions| <= k < |e.partitions| ==>
         e.partitions[k].uuid == uuid && IsBlankDisk(d, e.partitions[k].disk))
    && (forall x <- d.disks :: e.disks[x] == d.disks[x] || IsBlankDisk(d, x))
    && (|d.partitions| < |e.partitions| ==> Matches(d.partitions, uuid) == [])
  }

  lemma {:induction false} MatchesExtend(p: seq<Partition>, q: seq<Partition>, uuid: string)
    requires |p| <= |q|
    requires forall k :: 0 <= k < |p| ==> p[k].uuid == q[k].uuid
    requires forall k :: |p| <= k < |q| ==> q[k].uuid != uuid
    ensures Matches(q, uuid) == Matches(p, uuid)
    decreases |q|
  {
    if q != [] {
      var last := |q| - 1;
      if |p| == |q| {
        assert p[last].uuid == q[last].uuid;
        MatchesExtend(p[..last], q[..last], uuid);
      } else {
        MatchesExtend(p, q[..last], uuid);
      }
    }
  }

  lemma {:induction false} FirstPartitionExtend(p: seq<Partition>, q: seq<Partition>, disk: string)
    requires |p| <= |q|
    requires forall k :: 0 <= k < |p| ==> SameIdentity(p[k], q[k])
    requires FirstPartition(p, disk).Some?
    ensures FirstPartition(q, disk) == FirstPartition(p, disk)
    decreases |q|
  {
    var last := |q| - 1;
    if |p| == |q| {
      if FirstPartition(p[..last], disk).Some? {
        FirstPartitionExtend(p[..last], q[..last], disk);
      } else {
        FirstPartitionNone(p[..last], q[..last], disk);
      }
    } else {
      FirstPartitionExtend(p, q[..last], disk);
    }
  }

  lemma {:induction false} FirstPartitionNone(p: seq<Partition>, q: seq<Partition>, disk: string)
    requires |p| == |q|
    requires forall k :: 0 <= k < |p| ==> SameIdentity(p[k], q[k])
    requires FirstPartition(p, disk).None?
    ensures FirstPartition(q, disk).None?
  {
    if p != [] {
      FirstPartitionNone(p[..|p| - 1], q[..|q| - 1], disk);
    }
  }

  lemma OneMatch(partitions: seq<Partition>, uuid: string)
    requires |Matches(partitions, uuid)| == 1
    ensures forall k :: 0 <= k < |partitions| && partitions[k].uuid == uuid ==> k == Matches(partitions, uuid)[0]
  {
    forall k | 0 <= k < |partitions| && partitions[k].uuid == uuid
      ensures k == Matches(partitions, uuid)[0]
    {
      assert k in Matches(partitions, uuid);
    }
  }

  // ------------------------------------- the steps on one member keep the frame

  lemma PlanSolo(d: Durable, request: Request, state: Option<State>, x: DiskRequest)
    requires request.disks == [x]
    requires PlanDevices(d, request, state).Ok?
    ensures PlanDisk(d, x, FindMember(OldMembers(state), x.id), {}) == Ok(PlanDevices(d, request, state).value[0])
  {
    assert request.disks[1..] == [];
  }

  lemma KnownPlan(j: Journal, m: Member, d: Durable)
    requires KeepsIdentities(j) && m in j.members && OldMember(j, m).Some?
    requires DecidePartition(j, m, d).Ok?
    ensures Locate(d, m).Ok?
    ensures DecidePartition(j, m, d).value ==
      if m.allocationBytes > OldMember(j, m).value.allocationBytes
      then GrowPartition(FirstPartition(d.partitions, d.partitions[Locate(d, m).value].disk).value)
      else Nothing
    ensures m.allocationBytes > OldMember(j, m).value.allocationBytes ==>
      FirstPartition(d.partitions, d.partitions[Locate(d, m).value].disk).Some?
  {
    var known := OldMember(j, m).value;
    var state := j.oldState.value.(disks := [known]);
    assert FindMember([known], m.id) == Some(known);
    PlanSolo(d, j.request.(disks := [AsDisk(m, false)]), Some(state), AsDisk(m, false));
  }

  lemma FreshPlan(j: Journal, m: Member, d: Durable)
    requires OldMember(j, m).None? && Matches(d.partitions, m.partitionUuid) == []
    requires DecidePartition(j, m, d).Ok?
    ensures DecidePartition(j, m, d).value == PartitionDisk(m.device, m.partitionUuid)
    ensures IsBlankDisk(d, m.device) && !d.disks[m.device].root
  {
    PlanSolo(d, j.request.(disks := [AsDisk(m, true)]), None, AsDisk(m, true));
  }

  lemma UpdateFrame(d: Durable, k: nat, p: Partition, uuid: string)
    requires k < |d.partitions| && SameIdentity(d.partitions[k], p)
    requires OnDiskOf(d.partitions, d.partitions[k].disk, uuid)
    ensures MemberFrame(d, d.(partitions := d.partitions[k := p]), uuid)
  {
  }

  lemma AddFrame(d: Durable, disk: string, uuid: string, e: Durable)
    requires IsBlankDisk(d, disk) && Matches(d.partitions, uuid) == []
    requires Effect(PartitionDisk(disk, uuid), d) == Ok(e)
    ensures MemberFrame(d, e, uuid)
  {
  }

  lemma LocatedOnDisk(d: Durable, m: Member)
    requires Locate(d, m).Ok?
    ensures OnDiskOf(d.partitions, d.partitions[Locate(d, m).value].disk, m.partitionUuid)
  {
    assert d.partitions[Locate(d, m).value] in d.partitions;
  }

  lemma EffectFrame(c: Command, d: Durable, m: Member, e: Durable)
    requires Effect(c, d) == Ok(e) && Locate(d, m).Ok?
    requires
      var k := Locate(d, m).value;
      || c == Nothing || c == CreatePv(k, m.pvUuid) || c == ResizePv(k)
      || (c.GrowPartition? && c.k < |d.partitions| && d.partitions[c.k].disk == d.partitions[k].disk)
    ensures MemberFrame(d, e, m.partitionUuid) && |d.partitions| == |e.partitions|
  {
    LocatedOnDisk(d, m);
    match c
    case Nothing => assert e == d;
    case GrowPartition(k) => UpdateFrame(d, k, e.partitions[k], m.partitionUuid);
    case CreatePv(k, _) => UpdateFrame(d, k, e.partitions[k], m.partitionUuid);
    case ResizePv(k) => UpdateFrame(d, k, e.partitions[k], m.partitionUuid);
  }

  lemma PartitionFrame(j: Journal, m: Member, d: Durable, e: Durable)
    requires KeepsIdentities(j) && m in j.members
    requires Settle(PreparePartition(j, m), d) == Ok(e)
    ensures MemberFrame(d, e, m.partitionUuid)
  {
    var c := DecidePartition(j, m, d).value;
    if OldMember(j, m).Some? {
      KnownPlan(j, m, d);
      EffectFrame(c, d, m, e);
    } else if Matches(d.partitions, m.partitionUuid) == [] {
      FreshPlan(j, m, d);
      AddFrame(d, m.device, m.partitionUuid, e);
    } else {
      NothingFrame(d, m.partitionUuid);
    }
  }

  lemma NothingFrame(d: Durable, uuid: string)
    ensures MemberFrame(d, d, uuid)
  {}

  lemma PvFrame(j: Journal, m: Member, d: Durable, e: Durable)
    requires Settle(PreparePv(j, m), d) == Ok(e) || Settle(FitPv(j, m), d) == Ok(e)
    ensures MemberFrame(d, e, m.partitionUuid)
    ensures |d.partitions| == |e.partitions|
  {
    if Locate(d, m).Ok? {
      if Settle(PreparePv(j, m), d) == Ok(e) {
        EffectFrame(DecidePv(j, m, d).value, d, m, e);
      } else {
        EffectFrame(DecideFit(m, d).value, d, m, e);
      }
    } else {
      NothingFrame(d, m.partitionUuid);
    }
  }

  // ----------------------------------------- soundness and the other members

  lemma FrameSeparate(d: Durable, e: Durable, members: seq<Member>, uuid: string)
    requires Separate(d.partitions, members) && MemberFrame(d, e, uuid)
    ensures Separate(e.partitions, members)
  {
    forall k, l | 0 <= k < |e.partitions| && 0 <= l < |e.partitions| && e.partitions[k].uuid != e.partitions[l].uuid &&
                  IsMember(members, e.partitions[k].uuid) && IsMember(members, e.partitions[l].uuid)
      ensures e.partitions[k].disk != e.partitions[l].disk
    {
      if k < |d.partitions| && l < |d.partitions| {
        assert SameIdentity(d.partitions[k], e.partitions[k]);
        assert SameIdentity(d.partitions[l], e.partitions[l]);
      } else if k < |d.partitions| {
        assert d.partitions[k] in d.partitions;
      } else if l < |d.partitions| {
        assert d.partitions[l] in d.partitions;
      }
    }
  }

  lemma EffectPvUnique(c: Command, d: Durable, e: Durable)
    requires c.Nothing? || c.PartitionDisk? || c.GrowPartition? || c.CreatePv? || c.ResizePv?
    requires PvUnique(d.partitions) && Effect(c, d) == Ok(e)
    ensures PvUnique(e.partitions)
  {
    if c.CreatePv? {
      forall k | 0 <= k < |d.partitions| && d.partitions[k].content.Pv?
        ensures d.partitions[k].content.uuid != c.pvUuid
      {
        assert d.partitions[k] in d.partitions;
      }
    }
  }

  ghost predicate IsMemberStep(s: Step, j: Journal, m: Member) {
    s == PreparePartition(j, m) || s == PreparePv(j, m) || s == FitPv(j, m)
  }

  lemma MemberStepFrame(s: Step, j: Journal, m: Member, d: Durable, e: Durable)
    requires IsMemberStep(s, j, m) && m in j.members
    requires Sound(d, j) && Settle(s, d) == Ok(e)
    ensures MemberFrame(d, e, m.partitionUuid) && Sound(e, j)
  {
    if s.PreparePartition? {
      PartitionFrame(j, m, d, e);
    } else {
      PvFrame(j, m, d, e);
    }
    FrameSeparate(d, e, j.members, m.partitionUuid);
    EffectPvUnique(Decide(s, d).value, d, e);
  }

  lemma Untouched(d: Durable, e: Durable, j: Journal, n: Member, m: Member)
    requires Separate(d.partitions, j.members) && n in j.members && m in j.members
    requires n.partitionUuid != m.partitionUuid && MemberFrame(d, e, m.partitionUuid)
    ensures Matches(e.partitions, n.partitionUuid) == Matches(d.partitions, n.partitionUuid)
    ensures Locate(d, n).Ok? ==>
      Locate(e, n) == Locate(d, n) &&
      forall k :: 0 <= k < |d.partitions| && d.partitions[k].disk == d.partitions[Locate(d, n).value].disk
        ==> e.partitions[k] == d.partitions[k]
  {
    MatchesExtend(d.partitions, e.partitions, n.partitionUuid);
    assert IsMember(j.members, n.partitionUuid) && IsMember(j.members, m.partitionUuid);
    if Locate(d, n).Ok? {
      var disk := d.partitions[Locate(d, n).value].disk;
      forall p <- d.partitions | p.uuid == m.partitionUuid
        ensures p.disk != disk
      {
      }
      assert !OnDiskOf(d.partitions, disk, m.partitionUuid);
    }
  }

  lemma KnownPlanStays(j: Journal, n: Member, d: Durable, e: Durable)
    requires KeepsIdentities(j) && n in j.members && OldMember(j, n).Some?
    requires DecidePartition(j, n, d).Ok? && SameDisks(d, e)
    requires Matches(e.partitions, n.partitionUuid) == Matches(d.partitions, n.partitionUuid)
    requires Locate(d, n).Ok? && Locate(e, n) == Locate(d, n)
    requires
      var p, q := d.partitions[Locate(d, n).value], e.partitions[Locate(e, n).value];
      p.disk == q.disk && q.content.Pv? == p.content.Pv? && (p.content.Pv? ==> p.content.uuid == q.content.uuid)
    ensures PlanKnown(j, n, OldMember(j, n).value, e) == PlanKnown(j, n, OldMember(j, n).value, d)
  {
    var known := OldMember(j, n).value;
    var request := j.request.(disks := [AsDisk(n, false)]);
    var state := j.oldState.value.(disks := [known]);
    assert FindMember([known], n.id) == Some(known);
    PlanSolo(d, request, Some(state), AsDisk(n, false));
    var used := {d.partitions[Locate(d, n).value].disk};
    assert PlanDisk(e, request.disks[0], Some(known), {}) == PlanDisk(d, request.disks[0], Some(known), {});
    assert request.disks[1..] == [];
    assert PlanDisks(e, [], [known], {} + used) == Ok([]);
  }

  lemma UpdateSame<T>(s: seq<T>, k: nat, x: T)
    requires k < |s|
    ensures s[k := x] == s <==> s[k] == x
  {
    if s[k := x] == s {
      assert s[k := x][k] == x;
    }
  }

  /** A known member whose last partition has been grown as far as it goes needs nothing more. */
  lemma KnownStays(j: Journal, n: Member, d: Durable, e: Durable)
    requires KeepsIdentities(j) && n in j.members && OldMember(j, n).Some?
    requires DecidePartition(j, n, d).Ok? && SameDisks(d, e)
    requires |d.partitions| <= |e.partitions|
    requires forall k :: 0 <= k < |d.partitions| ==> SameIdentity(d.partitions[k], e.partitions[k])
    requires Matches(e.partitions, n.partitionUuid) == Matches(d.partitions, n.partitionUuid)
    requires Locate(d, n).Ok? ==>
      var k := Locate(d, n).value;
      (d.partitions[k].content.Pv? <==> e.partitions[k].content.Pv?) &&
      (d.partitions[k].content.Pv? ==> d.partitions[k].content.uuid == e.partitions[k].content.uuid)
    requires DecidePartition(j, n, d).value.GrowPartition? ==>
      var k := DecidePartition(j, n, d).value.k;
      k < |d.partitions| && e.partitions[k].disk in e.disks &&
        e.partitions[k].sizeBytes >= e.disks[e.partitions[k].disk].sizeBytes
    ensures Settle(PreparePartition(j, n), e) == Ok(e)
  {
    KnownPlan(j, n, d);
    KnownPlanStays(j, n, d, e);
    if n.allocationBytes > OldMember(j, n).value.allocationBytes {
      var k := DecidePartition(j, n, d).value.k;
      FirstPartitionExtend(d.partitions, e.partitions, d.partitions[Locate(d, n).value].disk);
      UpdateSame(e.partitions, k,
        e.partitions[k].(sizeBytes := Max(e.partitions[k].sizeBytes, e.disks[e.partitions[k].disk].sizeBytes)));
    }
  }

  /** A growth that changed nothing found the partition as large as its disk. */
  lemma GrowthDone(d: Durable, k: nat, e: Durable)
    requires Effect(GrowPartition(k), d) == Ok(e)
    ensures k < |d.partitions| && d.partitions[k].disk in d.disks
    ensures e.partitions[k].sizeBytes >= d.disks[d.partitions[k].disk].sizeBytes
    ensures |e.partitions| == |d.partitions| && e.disks == d.disks
    ensures forall l :: 0 <= l < |d.partitions| ==>
      SameIdentity(d.partitions[l], e.partitions[l]) && e.partitions[l].content == d.partitions[l].content
  {
  }

  lemma OtherPartitionStays(j: Journal, n: Member, m: Member, d: Durable, e: Durable)
    requires Sound(d, j) && n in j.members && m in j.members && n.partitionUuid != m.partitionUuid
    requires MemberFrame(d, e, m.partitionUuid)
    requires Settle(PreparePartition(j, n), d) == Ok(d)
    ensures Settle(PreparePartition(j, n), e) == Ok(e)
  {
    hide PlanKnown, PlanDevices, FindMember;
    Untouched(d, e, j, n, m);
    if OldMember(j, n).Some? {
      KnownPlan(j, n, d);
      if DecidePartition(j, n, d).value.GrowPartition? {
        GrowthDone(d, DecidePartition(j, n, d).value.k, d);
      }
      KnownStays(j, n, d, e);
    }
  }

  lemma PvSettled(j: Journal, n: Member, d: Durable)
    requires OldMember(j, n).None?
    ensures Settle(PreparePv(j, n), d) == Ok(d) <==> DecidePv(j, n, d) == Ok(Nothing)
  {
    if Locate(d, n).Ok? {
      var k := Locate(d, n).value;
      UpdateSame(d.partitions, k, d.partitions[k].(content := Pv(n.pvUuid, "", d.partitions[k].sizeBytes)));
    }
  }

  lemma OnlyPartitionStays(d: Durable, e: Durable, k: nat, uuid: string)
    requires MemberFrame(d, e, uuid) && k < |d.partitions|
    requires OnlyPartition(d.partitions, k)
    ensures OnlyPartition(e.partitions, k)
  {
    assert d.partitions[k] in d.partitions;
    forall l | 0 <= l < |e.partitions| && l != k
      ensures e.partitions[l].disk != e.partitions[k].disk
    {
      if l < |d.partitions| {
        assert SameIdentity(d.partitions[l], e.partitions[l]);
      }
    }
  }

  lemma OtherPvStays(j: Journal, n: Member, m: Member, d: Durable, e: Durable)
    requires Sound(d, j) && n in j.members && m in j.members && n.partitionUuid != m.partitionUuid
    requires MemberFrame(d, e, m.partitionUuid)
    requires Settle(PreparePv(j, n), d) == Ok(d)
    ensures Settle(PreparePv(j, n), e) == Ok(e)
  {
    if OldMember(j, n).None? {
      PvSettled(j, n, d);
      Untouched(d, e, j, n, m);
      var k := Locate(d, n).value;
      assert e.partitions[k] == d.partitions[k];
      OnlyPartitionStays(d, e, k, m.partitionUuid);
      assert DecidePv(j, n, e) == Ok(Nothing);
    }
  }

  lemma OtherFitStays(j: Journal, n: Member, m: Member, d: Durable, e: Durable)
    requires Sound(d, j) && n in j.members && m in j.members && n.partitionUuid != m.partitionUuid
    requires MemberFrame(d, e, m.partitionUuid)
    requires Settle(FitPv(j, n), d) == Ok(d)
    ensures Settle(FitPv(j, n), e) == Ok(e)
  {
    Untouched(d, e, j, n, m);
    var k := Locate(d, n).value;
    assert e.partitions[k] == d.partitions[k];
    FitSettled(n, j, d);
    FitSettled(n, j, e);
  }

  lemma FitSettled(n: Member, j: Journal, d: Durable)
    ensures Settle(FitPv(j, n), d) == Ok(d) <==>
      Locate(d, n).Ok? && var p := d.partitions[Locate(d, n).value];
      p.content.Pv? && p.content.uuid == n.pvUuid && p.content.sizeBytes == p.sizeBytes
  {
    if Locate(d, n).Ok? {
      var k := Locate(d, n).value;
      if d.partitions[k].content.Pv? {
        UpdateSame(d.partitions, k,
          d.partitions[k].(content := d.partitions[k].content.(sizeBytes := d.partitions[k].sizeBytes)));
      }
    }
  }

  // ------------------------------------------------ steps on the same member

  /** Only labels of physical volumes changed, and none was taken away or renamed. */
  ghost predicate LabelsOnly(d: Durable, e: Durable) {
    && e.disks == d.disks
    && |e.partitions| == |d.partitions|
    && forall k :: 0 <= k < |d.partitions| ==>
         var p, q := d.partitions[k], e.partitions[k];
         q == p.(content := q.content) &&
         (p.content.Pv? ==> q.content.Pv? && q.content.uuid == p.content.uuid)
  }

  lemma LabelsKeepPartition(j: Journal, n: Member, d: Durable, e: Durable)
    requires KeepsIdentities(j) && n in j.members && LabelsOnly(d, e)
    requires Settle(PreparePartition(j, n), d) == Ok(d)
    ensures Settle(PreparePartition(j, n), e) == Ok(e)
  {
    hide PlanKnown, PlanDevices, KeepsIdentities, FindMember;
    MatchesExtend(d.partitions, e.partitions, n.partitionUuid);
    if OldMember(j, n).Some? {
      KnownPlan(j, n, d);
      KnownContent(j, n, d);
      if DecidePartition(j, n, d).value.GrowPartition? {
        GrowthDone(d, DecidePartition(j, n, d).value.k, d);
      }
      KnownStays(j, n, d, e);
    }
  }

  lemma KnownContent(j: Journal, n: Member, d: Durable)
    requires KeepsIdentities(j) && n in j.members && OldMember(j, n).Some?
    requires DecidePartition(j, n, d).Ok?
    ensures Locate(d, n).Ok? && d.partitions[Locate(d, n).value].content.Pv?
  {
    var known := OldMember(j, n).value;
    assert FindMember([known], n.id) == Some(known);
    PlanSolo(d, j.request.(disks := [AsDisk(n, false)]), Some(j.oldState.value.(disks := [known])), AsDisk(n, false));
  }

  lemma LabelsKeepPv(j: Journal, n: Member, d: Durable, e: Durable)
    requires LabelsOnly(d, e)
    requires Settle(PreparePv(j, n), d) == Ok(d)
    ensures Settle(PreparePv(j, n), e) == Ok(e)
  {
    if OldMember(j, n).None? {
      PvSettled(j, n, d);
      MatchesExtend(d.partitions, e.partitions, n.partitionUuid);
      assert OnlyPartition(e.partitions, Locate(d, n).value);
      assert DecidePv(j, n, e) == Ok(Nothing);
    }
  }

  lemma LabelsKeepFit(j: Journal, n: Member, d: Durable, e: Durable)
    requires LabelsOnly(d, e)
    requires Settle(FitPv(j, n), d) == Ok(d)
    requires forall k :: 0 <= k < |d.partitions| && d.partitions[k].content.Pv? ==>
      e.partitions[k].content.sizeBytes == d.partitions[k].content.sizeBytes
    ensures Settle(FitPv(j, n), e) == Ok(e)
  {
    MatchesExtend(d.partitions, e.partitions, n.partitionUuid);
    FitSettled(n, j, d);
    FitSettled(n, j, e);
  }

  lemma PartitionDone(j: Journal, m: Member, d: Durable, e: Durable)
    requires KeepsIdentities(j) && m in j.members
    requires Settle(PreparePartition(j, m), d) == Ok(e)
    ensures Settle(PreparePartition(j, m), e) == Ok(e)
  {
    if OldMember(j, m).Some? {
      KnownPlan(j, m, d);
      if DecidePartition(j, m, d).value.GrowPartition? {
        GrowthDone(d, DecidePartition(j, m, d).value.k, e);
      }
      MatchesExtend(d.partitions, e.partitions, m.partitionUuid);
      KnownStays(j, m, d, e);
    } else if Matches(d.partitions, m.partitionUuid) == [] {
      FreshPlan(j, m, d);
      assert e.partitions[|d.partitions|].uuid == m.partitionUuid;
    }
  }

  lemma PvLabels(j: Journal, m: Member, d: Durable, e: Durable)
    requires Settle(PreparePv(j, m), d) == Ok(e)
    ensures LabelsOnly(d, e)
  {
  }

  lemma FitLabels(j: Journal, m: Member, d: Durable, e: Durable)
    requires Settle(FitPv(j, m), d) == Ok(e)
    ensures LabelsOnly(d, e)
  {
  }

  lemma PvDone(j: Journal, m: Member, d: Durable, e: Durable)
    requires KeepsIdentities(j) && m in j.members
    requires Settle(PreparePartition(j, m), d) == Ok(d)
    requires Settle(PreparePv(j, m), d) == Ok(e)
    ensures Settle(PreparePartition(j, m), e) == Ok(e)
    ensures Settle(PreparePv(j, m), e) == Ok(e)
  {
    PvLabels(j, m, d, e);
    LabelsKeepPartition(j, m, d, e);
    MatchesExtend(d.partitions, e.partitions, m.partitionUuid);
    if OldMember(j, m).None? {
      assert OnlyPartition(e.partitions, Locate(d, m).value);
    }
  }

  lemma FitDone(j: Journal, m: Member, d: Durable, e: Durable)
    requires KeepsIdentities(j) && m in j.members
    requires Settle(PreparePartition(j, m), d) == Ok(d)
    requires Settle(PreparePv(j, m), d) == Ok(d)
    requires Settle(FitPv(j, m), d) == Ok(e)
    ensures Settle(PreparePartition(j, m), e) == Ok(e)
    ensures Settle(PreparePv(j, m), e) == Ok(e)
    ensures Settle(FitPv(j, m), e) == Ok(e)
  {
    hide Settle, Matches, KeepsIdentities;
    FitLabels(j, m, d, e);
    LabelsKeepPartition(j, m, d, e);
    LabelsKeepPv(j, m, d, e);
    FitTwice(j, m, d, e);
  }

  lemma FitTwice(j: Journal, m: Member, d: Durable, e: Durable)
    requires Settle(FitPv(j, m), d) == Ok(e)
    ensures Settle(FitPv(j, m), e) == Ok(e)
  {
    FitLabels(j, m, d, e);
    MatchesExtend(d.partitions, e.partitions, m.partitionUuid);
    FitSettled(m, j, e);
  }
}
