/**
 The split between the VM's system disk and its data disks, and the request the guest is sent.
 Sources: crates/agent/src/storage_layout.rs, crates/agent/src/lima.rs.
 */
module StorageLayout {
  import opened Outcomes
  import opened Units
  import opened StoragePlan
  import PoolModel

  const SYSTEM_GIB: nat := 16
  const U64: nat := 0x1_0000_0000_0000_0000

  datatype Layout = Layout(version: nat, systemId: string, volumeId: string, systemGib: nat)

  predicate UniqueIds(locations: seq<Location>) {
    forall i, k :: 0 <= i < k < |locations| ==> locations[i].id != locations[k].id
  }

  /** The first location that satisfies the choice. */
  function FirstLarger(locations: seq<Location>, gib: nat, id: Option<string>): (r: Option<Location>)
    ensures r.Some? ==> r.value in locations && r.value.gib > gib && (id.Some? ==> r.value.id == id.value)
  {
    if locations == [] then None
    else if locations[0].gib > gib && (id.None? || locations[0].id == id.value) then Some(locations[0])
    else FirstLarger(locations[1..], gib, id)
  }

  /** The previous system location while it is large enough, or the first that is. */
  function Resolve(locations: seq<Location>, previous: Option<Layout>): Result<Layout> {
    var systemGib := if previous.Some? then previous.value.systemGib else SYSTEM_GIB;
    if TotalGib(locations) >= U64 || TotalGib(locations) < systemGib + 14 then Refused
    else
      var again := if previous.Some? then FirstLarger(locations, systemGib, Some(previous.value.systemId)) else None;
      var system := if again.Some? then again else FirstLarger(locations, systemGib, None);
      if system.None? then Refused else Ok(Layout(1, system.value.id, system.value.volumeId, systemGib))
  }

  function IndexOf(locations: seq<Location>, id: string): (r: nat)
    ensures r <= |locations| && (r < |locations| ==> locations[r].id == id)
    ensures forall i :: 0 <= i < r ==> locations[i].id != id
  {
    if locations == [] || locations[0].id == id then 0 else 1 + IndexOf(locations[1..], id)
  }

  /** The system disk added to its location's allocation, or taken out of it. */
  function Transform(layout: Layout, locations: seq<Location>, add: bool): Result<seq<Location>> {
    var i := IndexOf(locations, layout.systemId);
    if layout.version != 1 || layout.systemGib < SYSTEM_GIB || i == |locations| ||
      locations[i].volumeId != layout.volumeId then Refused
    else if add then
      if locations[i].gib + layout.systemGib >= U64 then Refused
      else Ok(locations[i := locations[i].(gib := locations[i].gib + layout.systemGib)])
    else if locations[i].gib <= layout.systemGib then Refused
    else Ok(locations[i := locations[i].(gib := locations[i].gib - layout.systemGib)])
  }

  /** Splitting the system disk off and adding it back is the identity. */
  lemma SplitThenAdd(layout: Layout, total: seq<Location>)
    requires Transform(layout, total, false).Ok? && forall i :: 0 <= i < |total| ==> total[i].gib < U64
    ensures Transform(layout, Transform(layout, total, false).value, true) == Ok(total)
  {
    var i := IndexOf(total, layout.systemId);
    var data := Transform(layout, total, false).value;
    SameIndex(total, data, layout.systemId);
    assert data[i := total[i]] == total;
  }

  /** And so is adding it and splitting it off again. */
  lemma AddThenSplit(layout: Layout, data: seq<Location>)
    requires Transform(layout, data, true).Ok? && forall i :: 0 <= i < |data| ==> data[i].gib > 0
    ensures Transform(layout, Transform(layout, data, true).value, false) == Ok(data)
  {
    var i := IndexOf(data, layout.systemId);
    var total := Transform(layout, data, true).value;
    SameIndex(data, total, layout.systemId);
    assert total[i := data[i]] == data;
  }

  lemma SameIndex(a: seq<Location>, b: seq<Location>, id: string)
    requires |a| == |b| && forall i :: 0 <= i < |a| ==> a[i].id == b[i].id
    ensures IndexOf(a, id) == IndexOf(b, id)
  {
    var i, k := IndexOf(a, id), IndexOf(b, id);
    assert !(i < k) && !(k < i);
  }

  /** A resolved layout can always be split off. */
  lemma ResolvedSplits(locations: seq<Location>, previous: Option<Layout>)
    requires Resolve(locations, previous).Ok? && UniqueIds(locations)
    requires (previous.Some? ==> previous.value.systemGib >= SYSTEM_GIB)
    ensures Transform(Resolve(locations, previous).value, locations, false).Ok?
  {
    var layout := Resolve(locations, previous).value;
    var i := IndexOf(locations, layout.systemId);
    var system :| system in locations && system.gib > layout.systemGib && system.id == layout.systemId &&
      system.volumeId == layout.volumeId;
    var k :| 0 <= k < |locations| && locations[k] == system;
    IndexUnique(locations, k);
  }

  // ------------------------------------------------------ which layout, and when

  /** The first location that has more than this, and this id if one is asked for. */
  ghost predicate FirstWith(locations: seq<Location>, gib: nat, id: Option<string>, k: nat) {
    && k < |locations| && Suits(locations[k], gib, id)
    && forall l :: 0 <= l < k ==> !Suits(locations[l], gib, id)
  }

  ghost predicate Suits(l: Location, gib: nat, id: Option<string>) {
    l.gib > gib && (id.Some? ==> l.id == id.value)
  }

  lemma {:induction false} FirstLargerIs(locations: seq<Location>, gib: nat, id: Option<string>)
    ensures FirstLarger(locations, gib, id).None? ==> forall l <- locations :: !Suits(l, gib, id)
    ensures FirstLarger(locations, gib, id).Some? ==>
      exists k: nat :: FirstWith(locations, gib, id, k) && locations[k] == FirstLarger(locations, gib, id).value
  {
    if locations != [] {
      if Suits(locations[0], gib, id) {
        assert FirstWith(locations, gib, id, 0);
      } else {
        var rest := locations[1..];
        FirstLargerIs(rest, gib, id);
        if FirstLarger(rest, gib, id).Some? {
          var k: nat :| FirstWith(rest, gib, id, k) && rest[k] == FirstLarger(rest, gib, id).value;
          assert FirstWith(locations, gib, id, k + 1);
        }
      }
    }
  }

  /** The search is for the previous system location while one of its id has room, and for any if none has. */
  ghost predicate KeptWhere(locations: seq<Location>, size: nat, previous: Option<Layout>, id: Option<string>) {
    if previous.Some? && exists l <- locations :: l.id == previous.value.systemId && l.gib > size then
      id == Some(previous.value.systemId)
    else id == None
  }

  /** The layout stands for the location the search finds first. */
  ghost predicate LaidOn(layout: Layout, locations: seq<Location>, size: nat, previous: Option<Layout>,
      id: Option<string>, k: nat)
  {
    && FirstWith(locations, size, id, k) && KeptWhere(locations, size, previous, id)
    && layout.systemId == locations[k].id && layout.volumeId == locations[k].volumeId
  }

  /**
   A layout is resolved exactly when the total leaves 14 GiB of data and some location has room for the
   system disk and more: the one it was on if that has, and the first that has if not.
   */
  lemma ResolvedIs(locations: seq<Location>, previous: Option<Layout>)
    ensures
      var size := if previous.Some? then previous.value.systemGib else 16;
      var r := Resolve(locations, previous);
      && (r.Ok? <==> size + 14 <= TotalGib(locations) < 18446744073709551616 && exists l <- locations :: l.gib > size)
      && (r.Ok? ==> r.value.version == 1 && r.value.systemGib == size)
      && (r.Ok? ==> exists k: nat, id: Option<string> :: LaidOn(r.value, locations, size, previous, id, k))
  {
    hide TotalGib;
    var size := if previous.Some? then previous.value.systemGib else 16;
    FirstLargerIs(locations, size, None);
    if previous.Some? {
      FirstLargerIs(locations, size, Some(previous.value.systemId));
    }
    var r := Resolve(locations, previous);
    if r.Ok? {
      var again := if previous.Some? then FirstLarger(locations, size, Some(previous.value.systemId)) else None;
      if again.Some? {
        var id := Some(previous.value.systemId);
        var k: nat :| FirstWith(locations, size, id, k) && locations[k] == again.value;
        assert LaidOn(r.value, locations, size, previous, id, k);
      } else {
        var k: nat :| FirstWith(locations, size, None, k) && locations[k] == FirstLarger(locations, size, None).value;
        assert LaidOn(r.value, locations, size, previous, None, k);
      }
    }
  }

  /** The system location is there, on its volume, and its size allows the change. */
  ghost predicate Changeable(layout: Layout, locations: seq<Location>, add: bool, k: nat) {
    && Before(locations, layout.systemId, k) && locations[k].volumeId == layout.volumeId
    && if add then locations[k].gib + layout.systemGib < 18446744073709551616 else locations[k].gib > layout.systemGib
  }

  ghost predicate CanChange(layout: Layout, locations: seq<Location>, add: bool) {
    exists k: nat :: Changeable(layout, locations, add, k)
  }

  /** Exactly one size is changed, by the system disk's; or the layout or the location does not allow it. */
  lemma TransformIs(layout: Layout, locations: seq<Location>, add: bool)
    ensures
      var r := Transform(layout, locations, add);
      && (r.Ok? <==> layout.version == 1 && layout.systemGib >= 16 && CanChange(layout, locations, add))
      && forall k: nat :: r.Ok? && Changeable(layout, locations, add, k) ==>
           r.value == locations[k := locations[k].(gib := if add then locations[k].gib + layout.systemGib
             else locations[k].gib - layout.systemGib)]
  {
    var i := IndexOf(locations, layout.systemId);
    if i < |locations| {
      assert Before(locations, layout.systemId, i);
      if Transform(layout, locations, add).Ok? {
        assert Changeable(layout, locations, add, i);
      }
      forall k: nat | Changeable(layout, locations, add, k)
        ensures k == i
      {
      }
    }
  }

  lemma IndexUnique(locations: seq<Location>, k: nat)
    requires UniqueIds(locations) && k < |locations|
    ensures IndexOf(locations, locations[k].id) == k
  {
  }

  // ------------------------------------------------------------------- the request

  /** "/dev/vd" and a letter from `b` on. */
  function DeviceName(index: nat): string
    requires index < 16
  {
    "/dev/vd" + [('b' as int + index) as char]
  }

  function StorageRequest(device: string, pool: string, locations: seq<Location>, previous: seq<Location>,
      generation: nat): PoolModel.Request
    requires |locations| <= 16
  {
    PoolModel.Request(1, device, pool, generation,
      seq(|locations|, i requires 0 <= i < |locations| =>
        PoolModel.DiskRequest(locations[i].id, DeviceName(i), locations[i].gib * GIB,
          Find(previous, locations[i].id).None?)), map[])
  }

  lemma DeviceNames(i: nat, k: nat)
    requires i < 16 && k < 16
    ensures PoolModel.IsManagedDevice(DeviceName(i)) && (i != k ==> DeviceName(i) != DeviceName(k))
  {
    assert DeviceName(i)[..7] == "/dev/vd" && DeviceName(i)[7] == ('b' as int + i) as char;
    assert DeviceName(k)[7] == ('b' as int + k) as char;
  }

  /** Identifiers kept from earlier plans and drawn for new disks, all usable and all different. */
  predicate GoodIds(locations: seq<Location>) {
    UniqueIds(locations) && forall i :: 0 <= i < |locations| ==> PoolModel.IsDiskName(locations[i].id)
  }

  /** The guest's members are the disks the host saved. */
  ghost predicate SavedAs(saved: seq<Location>, state: PoolModel.State) {
    && (forall m <- state.disks :: exists l <- saved :: l.id == m.id)
    && (forall l <- saved :: exists m <- state.disks :: m.id == l.id)
  }

  /** A member is still selected, and not smaller than it is. */
  ghost predicate Keeps(locations: seq<Location>, m: PoolModel.Member) {
    exists i :: 0 <= i < |locations| && locations[i].id == m.id && locations[i].gib * GIB >= m.allocationBytes
  }

  lemma {:induction false} FindNone(locations: seq<Location>, id: string)
    ensures Find(locations, id).None? <==> forall l <- locations :: l.id != id
  {
    if locations != [] && locations[0].id != id {
      FindNone(locations[1..], id);
      assert locations == [locations[0]] + locations[1..];
    }
  }

  /** A disk of the request is to be initialized exactly when it is not a member yet. */
  lemma InitializeIsNew(pool: string, locations: seq<Location>, saved: seq<Location>, generation: nat,
      state: PoolModel.State, i: nat)
    requires i < |locations| <= 16 && SavedAs(saved, state)
    ensures
      var disk := StorageRequest(state.deviceId, pool, locations, saved, generation).disks[i];
      && disk.id == locations[i].id && disk.allocationBytes == locations[i].gib * GIB
      && (disk.initialize <==> forall m <- state.disks :: m.id != disk.id)
  {
    hide DeviceName, Find;
    FindNone(saved, locations[i].id);
  }

  lemma Requested(disks: seq<PoolModel.DiskRequest>, locations: seq<Location>, m: PoolModel.Member)
    requires |disks| == |locations|
    requires forall i :: 0 <= i < |disks| ==>
      && disks[i].id == locations[i].id && disks[i].allocationBytes == locations[i].gib * GIB
      && (disks[i].id == m.id ==> !disks[i].initialize)
    ensures (exists disk <- disks :: disk.id == m.id && !disk.initialize && disk.allocationBytes >= m.allocationBytes)
      <==> Keeps(locations, m)
  {
    if disk :| disk in disks && disk.id == m.id && !disk.initialize && disk.allocationBytes >= m.allocationBytes {
      var i :| 0 <= i < |disks| && disks[i] == disk;
      assert locations[i].id == m.id;
    }
    if i :| 0 <= i < |locations| && locations[i].id == m.id && locations[i].gib * GIB >= m.allocationBytes {
      assert disks[i] in disks;
    }
  }

  /**
   A request of a later generation passes the guest's transition check exactly when the plan keeps
   every member and shrinks none.
   */
  lemma RequestContinues(pool: string, locations: seq<Location>, saved: seq<Location>, generation: nat,
      state: PoolModel.State)
    requires |locations| <= 16 && SavedAs(saved, state)
    requires state.poolId == pool && generation > state.generation
    ensures PoolModel.ValidTransition(StorageRequest(state.deviceId, pool, locations, saved, generation), Some(state))
      <==> forall m <- state.disks :: Keeps(locations, m)
  {
    var request := StorageRequest(state.deviceId, pool, locations, saved, generation);
    forall m <- state.disks
      ensures
        (exists disk <- request.disks ::
          disk.id == m.id && !disk.initialize && disk.allocationBytes >= m.allocationBytes)
        <==> Keeps(locations, m)
    {
      forall i | 0 <= i < |locations|
        ensures request.disks[i].id == locations[i].id && request.disks[i].allocationBytes == locations[i].gib * GIB
        ensures request.disks[i].id == m.id ==> !request.disks[i].initialize
      {
        InitializeIsNew(pool, locations, saved, generation, state, i);
      }
      Requested(request.disks, locations, m);
    }
    assert request.deviceId == state.deviceId && request.poolId == pool && request.generation == generation by {
      hide DeviceName, Find, SavedAs, Keeps;
    }
    hide StorageRequest, SavedAs, Keeps;
  }

  /** Identifiers the host draws: usable, different from each other, and from those of earlier disks. */
  ghost predicate FreshIds(host: Host, previous: seq<Location>, n: nat) {
    && (forall i :: 0 <= i < n ==> PoolModel.IsDiskName(host.spare(i)) && forall l <- previous :: l.id != host.spare(i))
    && (forall i, k :: 0 <= i < k < n ==> host.spare(i) != host.spare(k))
  }

  /** A plan's disks have good identifiers, in the order they were chosen and in the order they are kept. */
  lemma PlanIds(host: Host, chosen: seq<Selection>, previous: seq<Location>, locations: seq<Location>)
    requires Planned(host, chosen, previous, locations) && KeptOnce(chosen) && FreshIds(host, previous, |chosen|)
    requires forall l <- previous :: PoolModel.IsDiskName(l.id)
    ensures GoodIds(locations) && GoodIds(SortByPrevious(locations, previous))
  {
    hide PoolModel.IsDiskName, SortByPrevious;
    forall i | 0 <= i < |locations|
      ensures PoolModel.IsDiskName(locations[i].id)
    {
      KeptOrFresh(host, chosen, previous, locations, i);
    }
    forall i, k | 0 <= i < k < |locations|
      ensures locations[i].id != locations[k].id
    {
      KeptOrFresh(host, chosen, previous, locations, i);
      KeptOrFresh(host, chosen, previous, locations, k);
    }
    SortedByPrevious(locations, previous);
    StillGood(SortByPrevious(locations, previous), locations);
  }

  lemma KeptOrFresh(host: Host, chosen: seq<Selection>, previous: seq<Location>, locations: seq<Location>, i: nat)
    requires Planned(host, chosen, previous, locations) && i < |locations|
    ensures chosen[i].id.None? ==> locations[i].id == host.spare(i)
    ensures chosen[i].id.Some? ==>
      locations[i].id == chosen[i].id.value && exists l <- previous :: l.id == locations[i].id
  {
    assert Usable(host, chosen[i], previous) && locations[i] == Chosen(host, chosen[i], i);
  }

  lemma StillGood(a: seq<Location>, b: seq<Location>)
    requires multiset(a) == multiset(b) && GoodIds(b)
    ensures GoodIds(a)
  {
    hide PoolModel.IsDiskName;
    forall i, k | 0 <= i < |a| && i <= k < |a|
      ensures PoolModel.IsDiskName(a[i].id) && (i < k ==> a[i].id != a[k].id)
    {
      if i < k { Twice(a, i, k); }
      IdOnce(b, a[i]);
      assert a[i] in multiset(a) && a[k] in multiset(a);
      assert a[i] in multiset(b) && a[k] in multiset(b);
      var x :| 0 <= x < |b| && b[x] == a[i];
      var y :| 0 <= y < |b| && b[y] == a[k];
    }
  }

  lemma {:induction false} IdOnce(b: seq<Location>, l: Location)
    requires UniqueIds(b)
    ensures multiset(b)[l] <= 1
  {
    if b != [] {
      var init, last := b[..|b| - 1], b[|b| - 1];
      assert b == init + [last];
      IdOnce(init, l);
      forall k | 0 <= k < |init|
        ensures init[k] != last
      {
        assert b[k].id != last.id;
      }
    }
  }

  /**
   A plan's disks, with the system disk split off by a layout resolved from them, make a request
   the guest's validation accepts, and adding the system disk back returns the plan.
   */
  lemma PlanReachesGuest(total: seq<Location>, previous: Option<Layout>, device: string, pool: string,
      saved: seq<Location>, generation: nat)
    requires 1 <= |total| <= 16 && GoodIds(total) && forall i :: 0 <= i < |total| ==> 1 <= total[i].gib <= MOST_GIB
    requires Resolve(total, previous).Ok? && (previous.Some? ==> previous.value.systemGib >= SYSTEM_GIB)
    requires PoolModel.IsUuid(device) && PoolModel.IsUuid(pool) && generation < U64
    ensures
      var layout := Resolve(total, previous).value;
      var data := Transform(layout, total, false);
      && data.Ok? && Transform(layout, data.value, true) == Ok(total) && |data.value| <= 16
      && PoolModel.ValidRequest(StorageRequest(device, pool, data.value, saved, generation), device)
  {
    hide PoolModel.IsUuid, PoolModel.IsDiskName, Resolve;
    ResolvedSplits(total, previous);
    var layout := Resolve(total, previous).value;
    SplitThenAdd(layout, total);
    var data := Transform(layout, total, false).value;
    var request := StorageRequest(device, pool, data, saved, generation);
    forall i | 0 <= i < |data|
      ensures PoolModel.ValidDisk(request.disks[i])
    {
      DeviceNames(i, i);
      WholeGib(data[i].gib);
    }
    forall i, k | 0 <= i < k < |data|
      ensures request.disks[i].id != request.disks[k].id && request.disks[i].device != request.disks[k].device
    {
      DeviceNames(i, k);
    }
  }

  lemma WholeGib(gib: nat)
    requires 1 <= gib <= MOST_GIB
    ensures GIB <= gib * GIB <= 1048576 * GIB && gib * GIB % GIB == 0
  {
  }

  /** Whatever the planner accepts, the guest accepts, once the system disk is split off. */
  lemma AcceptedPlanReachesGuest(host: Host, chosen: seq<Selection>, saved: seq<Location>, locations: seq<Location>,
                                 previous: Option<Layout>, device: string, pool: string, generation: nat)
    requires 1 <= |chosen| <= 16 && Planned(host, chosen, saved, locations) && KeptOnce(chosen)
    requires FreshIds(host, saved, |chosen|)
    requires forall l <- saved :: PoolModel.IsDiskName(l.id)
    requires PoolModel.IsUuid(device) && PoolModel.IsUuid(pool) && generation < U64
    ensures
      var total := SortByPrevious(locations, saved);
      Resolve(total, previous).Ok? && (previous.Some? ==> previous.value.systemGib >= SYSTEM_GIB) ==>
        var layout := Resolve(total, previous).value;
        var data := Transform(layout, total, false);
        && data.Ok? && Transform(layout, data.value, true) == Ok(total) && |data.value| <= 16
        && PoolModel.ValidRequest(StorageRequest(device, pool, data.value, saved, generation), device)
  {
    hide PoolModel.IsUuid, PoolModel.IsDiskName, PoolModel.ValidRequest, Resolve, Transform, SortByPrevious, Usable;
    var total := SortByPrevious(locations, saved);
    PlanIds(host, chosen, saved, locations);
    SortedByPrevious(locations, saved);
    assert |total| == |multiset(total)| == |multiset(locations)| == |locations|;
    forall i | 0 <= i < |total|
      ensures 1 <= total[i].gib <= MOST_GIB
    {
      assert total[i] in multiset(total);
      assert total[i] in multiset(locations);
      var k :| 0 <= k < |locations| && locations[k] == total[i];
      ChosenGib(host, chosen, saved, locations, k);
    }
    if Resolve(total, previous).Ok? && (previous.Some? ==> previous.value.systemGib >= SYSTEM_GIB) {
      PlanReachesGuest(total, previous, device, pool, saved, generation);
    }
  }

  lemma ChosenGib(host: Host, chosen: seq<Selection>, previous: seq<Location>, locations: seq<Location>, k: nat)
    requires Planned(host, chosen, previous, locations) && k < |locations|
    ensures 1 <= locations[k].gib <= MOST_GIB
  {
    assert Usable(host, chosen[k], previous) && locations[k] == Chosen(host, chosen[k], k);
  }
}
