/**
 What a request comes to: exactly which ones are accepted, said without the checks' own order, and
 what the state file holds once one is carried out.
 */
module PoolOutcome {
  import opened Outcomes
  import opened Units
  import opened PoolModel
  import opened PoolSteps
  import opened PoolConvergence
  import opened PoolBuild
  import opened PoolResume
  import opened PoolConverges
  import opened PoolTheorem
  import opened PoolRuns
  import opened PoolMonotone

  // ------------------------------------------------------------- which disks

  /** Where a requested disk goes: where its member is, or a blank disk of its own. */
  ghost predicate Spot(d: Durable, disk: DiskRequest, known: Option<Member>, place: string) {
    && place in d.disks && !d.disks[place].root && disk.allocationBytes <= d.disks[place].sizeBytes
    && if known.Some? then
         exists k :: 0 <= k < |d.partitions| && d.partitions[k].disk == place && Sole(d.partitions, k, known.value)
       else
         && disk.initialize && place == disk.device && d.disks[place].signatures == [] && !d.disks[place].mounted
         && forall p <- d.partitions :: p.disk != place
  }

  /** The only partition with the member's uuid, and it holds the member's physical volume. */
  ghost predicate Sole(partitions: seq<Partition>, k: nat, known: Member)
    requires k < |partitions|
  {
    && partitions[k].uuid == known.partitionUuid
    && partitions[k].content.Pv? && partitions[k].content.uuid == known.pvUuid
    && forall l :: 0 <= l < |partitions| && l != k ==> partitions[l].uuid != known.partitionUuid
  }

  ghost predicate Places(d: Durable, disks: seq<DiskRequest>, members: seq<Member>, used: set<string>,
      places: seq<string>)
  {
    && |places| == |disks|
    && (forall i :: 0 <= i < |disks| ==>
         Spot(d, disks[i], FindMember(members, disks[i].id), places[i]) && places[i] !in used)
    && forall i, k :: 0 <= i < k < |places| ==> places[i] != places[k]
  }

  lemma SoleMatch(partitions: seq<Partition>, k: nat, known: Member)
    requires k < |partitions| && Sole(partitions, k, known)
    ensures Matches(partitions, known.partitionUuid) == [k]
  {
    var all := Matches(partitions, known.partitionUuid);
    assert k in all;
    forall i | 0 <= i < |all|
      ensures all[i] == k
    {
      assert partitions[all[i]].uuid == known.partitionUuid;
    }
    assert all[0] == k && all[|all| - 1] == k;
  }

  lemma SpotPlanned(d: Durable, disk: DiskRequest, known: Option<Member>, used: set<string>, place: string)
    requires Spot(d, disk, known, place) && place !in used
    ensures PlanDisk(d, disk, known, used) == Ok(Plan(place, known.None?))
  {
    hide Matches;
    if known.Some? {
      var k :| 0 <= k < |d.partitions| && d.partitions[k].disk == place && Sole(d.partitions, k, known.value);
      SoleMatch(d.partitions, k, known.value);
    }
  }

  lemma PlannedSpot(d: Durable, disk: DiskRequest, known: Option<Member>, used: set<string>)
    requires PlanDisk(d, disk, known, used).Ok?
    ensures Spot(d, disk, known, PlanDisk(d, disk, known, used).value.device)
    ensures PlanDisk(d, disk, known, used).value.device !in used
  {
    hide Matches;
    if known.Some? {
      OneMatch(d.partitions, known.value.partitionUuid);
      var k := Matches(d.partitions, known.value.partitionUuid)[0];
      assert Sole(d.partitions, k, known.value);
    }
  }

  /** The plan the loop finds is the one way to place the disks. */
  lemma {:induction false} PlacesPlanned(d: Durable, disks: seq<DiskRequest>, members: seq<Member>, used: set<string>,
      places: seq<string>)
    requires Places(d, disks, members, used, places)
    ensures PlanDisks(d, disks, members, used).Ok?
    ensures forall i :: 0 <= i < |disks| ==> PlanDisks(d, disks, members, used).value[i].device == places[i]
  {
    hide Spot, PlanDisk;
    if disks != [] {
      SpotPlanned(d, disks[0], FindMember(members, disks[0].id), used, places[0]);
      forall i | 0 <= i < |disks[1..]|
        ensures Spot(d, disks[1..][i], FindMember(members, disks[1..][i].id), places[1..][i])
        ensures places[1..][i] !in used + {places[0]}
      {
        assert places[0] != places[i + 1];
      }
      PlacesPlanned(d, disks[1..], members, used + {places[0]}, places[1..]);
    }
  }

  function Devices(plans: seq<Plan>): seq<string> {
    seq(|plans|, i requires 0 <= i < |plans| => plans[i].device)
  }

  lemma {:induction false} PlannedPlaces(d: Durable, disks: seq<DiskRequest>, members: seq<Member>, used: set<string>)
    requires PlanDisks(d, disks, members, used).Ok?
    ensures Places(d, disks, members, used, Devices(PlanDisks(d, disks, members, used).value))
  {
    hide Spot, PlanDisk;
    if disks != [] {
      var first := PlanDisk(d, disks[0], FindMember(members, disks[0].id), used);
      PlannedSpot(d, disks[0], FindMember(members, disks[0].id), used);
      PlannedPlaces(d, disks[1..], members, used + {first.value.device});
      var rest := PlanDisks(d, disks[1..], members, used + {first.value.device}).value;
      var places := Devices([first.value] + rest);
      assert places == [first.value.device] + Devices(rest);
      forall i | 0 <= i < |disks|
        ensures Spot(d, disks[i], FindMember(members, disks[i].id), places[i]) && places[i] !in used
      {
        if i > 0 { assert disks[1..][i - 1] == disks[i] && Devices(rest)[i - 1] == places[i]; }
      }
      forall i, k | 0 <= i < k < |places|
        ensures places[i] != places[k]
      {
        assert places[k] == Devices(rest)[k - 1];
        if i > 0 { assert places[i] == Devices(rest)[i - 1]; }
      }
    }
  }

  // ----------------------------------------------------------- which requests

  predicate AllHex(s: string) { forall c <- s :: '0' <= c <= '9' || 'a' <= c <= 'f' }

  /** Five groups of lower-case hexadecimal digits, joined by hyphens. */
  ghost predicate UuidText(s: string) {
    && |s| == 8 + 1 + 4 + 1 + 4 + 1 + 4 + 1 + 12 && s[8] == s[13] == s[18] == s[23] == '-'
    && AllHex(s[..8]) && AllHex(s[9..13]) && AllHex(s[14..18]) && AllHex(s[19..23]) && AllHex(s[24..])
  }

  lemma HexSlice(s: string, from: nat, to: nat)
    requires from <= to <= |s|
    ensures AllHex(s[from..to]) <==> forall i :: from <= i < to ==> IsHex(s[i])
  {
    if AllHex(s[from..to]) {
      forall i | from <= i < to
        ensures IsHex(s[i])
      {
        assert s[from..to][i - from] == s[i] && s[i] in s[from..to];
      }
    }
  }

  lemma UuidIs(s: string)
    ensures IsUuid(s) <==> UuidText(s)
  {
    hide AllHex, IsHex;
    if |s| == 36 {
      HexSlice(s, 0, 8);
      HexSlice(s, 9, 13);
      HexSlice(s, 14, 18);
      HexSlice(s, 19, 23);
      HexSlice(s, 24, 36);
      assert s[0..8] == s[..8] && s[24..36] == s[24..];
    }
  }

  /** An ASCII letter or digit, by its code. */
  predicate LetterOrDigit(c: char) {
    48 <= c as int <= 57 || 65 <= c as int <= 90 || 97 <= c as int <= 122
  }

  /** One to eleven letters, digits, underscores or hyphens, a letter or digit first. */
  ghost predicate NameText(s: string) {
    0 < |s| < 12 && LetterOrDigit(s[0]) && forall c <- s[1..] :: LetterOrDigit(c) || c == '_' || c == '-'
  }

  lemma NameIs(s: string)
    ensures IsDiskName(s) <==> NameText(s)
  {
    assert forall c :: IsAlphanumeric(c) <==> LetterOrDigit(c);
    hide IsAlphanumeric, LetterOrDigit;
    if NameText(s) {
      forall i | 1 <= i < |s|
        ensures IsAlphanumeric(s[i]) || s[i] == '_' || s[i] == '-'
      {
        assert s[1..][i - 1] == s[i];
        assert s[i] in s[1..];
      }
    }
  }

  const LATER_DISKS := "bcdefghijklmnopq"

  /** The sixteen virtio disks after the system's own. */
  ghost predicate DeviceText(s: string) {
    exists c <- LATER_DISKS :: s == "/dev/vd" + [c]
  }

  lemma DeviceIs(s: string)
    ensures IsManagedDevice(s) <==> DeviceText(s)
  {
    if IsManagedDevice(s) {
      assert LATER_DISKS[s[7] as int - 98] == s[7];
      assert s == s[..7] + [s[7]];
    }
  }

  /** A usable request: whole gibibytes up to a pebibyte on one to sixteen disks, each named and placed once. */
  ghost predicate GoodRequest(request: Request, owner: string) {
    && request.format == 1 && UuidText(request.deviceId) && UuidText(request.poolId) && request.deviceId == owner
    && 0 <= request.generation < 18446744073709551616
    && 0 < |request.disks| < 17
    && (forall disk <- request.disks ::
         && NameText(disk.id) && DeviceText(disk.device)
         && exists n :: 0 < n < 1048577 && disk.allocationBytes == n * 1073741824)
    && (forall i, k :: 0 <= i < |request.disks| && 0 <= k < |request.disks| && i != k ==>
         request.disks[i].id != request.disks[k].id && request.disks[i].device != request.disks[k].device)
  }

  lemma DiskIs(disk: DiskRequest)
    ensures ValidDisk(disk) <==>
      && NameText(disk.id) && DeviceText(disk.device)
      && exists n :: 0 < n < 1048577 && disk.allocationBytes == n * 1073741824
  {
    hide IsDiskName, NameText, IsManagedDevice, DeviceText;
    NameIs(disk.id);
    DeviceIs(disk.device);
    if GIB <= disk.allocationBytes <= 1048576 * GIB && disk.allocationBytes % GIB == 0 {
      var n := disk.allocationBytes / GIB;
      assert disk.allocationBytes == n * 1073741824;
    }
  }

  lemma RequestIs(request: Request, owner: string)
    ensures ValidRequest(request, owner) <==> GoodRequest(request, owner)
  {
    hide IsUuid, UuidText, ValidDisk, NameText, DeviceText;
    UuidIs(request.deviceId);
    UuidIs(request.poolId);
    forall disk <- request.disks
      ensures ValidDisk(disk) <==>
        && NameText(disk.id) && DeviceText(disk.device)
        && exists n :: 0 < n < 1048577 && disk.allocationBytes == n * 1073741824
    {
      DiskIs(disk);
    }
    assert (forall i :: 0 <= i < |request.disks| ==> ValidDisk(request.disks[i])) <==>
      forall disk <- request.disks :: ValidDisk(disk);
  }

  /** The member is asked for again: unchanged at its own generation, and no smaller at a later one. */
  ghost predicate KeptBy(request: Request, m: Member, again: bool) {
    exists disk <- request.disks ::
      disk.id == m.id && !disk.initialize &&
      if again then disk.allocationBytes == m.allocationBytes else disk.allocationBytes >= m.allocationBytes
  }

  /** A request that may follow the saved state: a later one, or one that only repeats it. */
  ghost predicate MayFollow(request: Request, s: State) {
    && request.deviceId == s.deviceId && request.poolId == s.poolId
    && (forall m <- s.disks :: KeptBy(request, m, request.generation == s.generation))
    && (request.generation > s.generation ||
        (request.generation == s.generation && forall disk <- request.disks :: exists m <- s.disks :: m.id == disk.id))
  }

  /** The requested and the saved disks are each named once. */
  ghost predicate NamedOnce(request: Request, s: State) {
    && (forall a, b :: a in request.disks && b in request.disks && a.id == b.id ==> a == b)
    && (forall a, b :: a in s.disks && b in s.disks && a.id == b.id ==> a == b)
  }

  lemma TransitionKeeps(request: Request, s: State, m: Member)
    requires NamedOnce(request, s) && ValidTransition(request, Some(s)) && m in s.disks
    ensures KeptBy(request, m, request.generation == s.generation)
  {
    var disk :| disk in request.disks && disk.id == m.id && !disk.initialize &&
      disk.allocationBytes >= m.allocationBytes;
    if request.generation == s.generation {
      var n :| n in s.disks && n.id == disk.id && n.allocationBytes == disk.allocationBytes;
    }
  }

  lemma RepeatMatches(request: Request, s: State, disk: DiskRequest)
    requires NamedOnce(request, s) && MayFollow(request, s) && request.generation == s.generation
    requires disk in request.disks
    ensures exists m <- s.disks :: m.id == disk.id && m.allocationBytes == disk.allocationBytes
  {
    var m :| m in s.disks && m.id == disk.id;
    assert KeptBy(request, m, true);
    var same :| same in request.disks && same.id == m.id && same.allocationBytes == m.allocationBytes;
  }

  lemma TransitionIs(request: Request, s: State)
    requires NamedOnce(request, s)
    ensures ValidTransition(request, Some(s)) <==> MayFollow(request, s)
  {
    hide NamedOnce;
    if ValidTransition(request, Some(s)) {
      forall m <- s.disks
        ensures KeptBy(request, m, request.generation == s.generation)
      {
        TransitionKeeps(request, s, m);
      }
    }
    if MayFollow(request, s) {
      if request.generation == s.generation {
        forall disk <- request.disks
          ensures exists m <- s.disks :: m.id == disk.id && m.allocationBytes == disk.allocationBytes
        {
          RepeatMatches(request, s, disk);
        }
      }
      forall m <- s.disks
        ensures exists disk <- request.disks ::
          disk.id == m.id && !disk.initialize && disk.allocationBytes >= m.allocationBytes
      {
        assert KeptBy(request, m, request.generation == s.generation);
      }
    }
  }

  /** A saved state the checks accept: named and sized as a request's disks are, its identities in place. */
  ghost predicate GoodState(s: State, owner: string) {
    && UuidText(s.deviceId) && UuidText(s.poolId) && UuidText(s.filesystemUuid) && s.deviceId == owner
    && 0 <= s.generation < 18446744073709551616
    && 0 < |s.disks| < 17
    && (forall m <- s.disks ::
         && NameText(m.id) && DeviceText(m.device) && UuidText(m.partitionUuid) && m.pvUuid != ""
         && exists n :: 0 < n < 1048577 && m.allocationBytes == n * 1073741824)
    && (forall i, k :: 0 <= i < |s.disks| && 0 <= k < |s.disks| && i != k ==>
         s.disks[i].id != s.disks[k].id && s.disks[i].device != s.disks[k].device)
  }

  lemma StateIs(s: State, owner: string)
    ensures ValidState(s, owner) <==> GoodState(s, owner)
  {
    hide IsUuid, UuidText, ValidDisk, NameText, DeviceText;
    UuidIs(s.deviceId);
    UuidIs(s.poolId);
    UuidIs(s.filesystemUuid);
    forall m <- s.disks
      ensures IsUuid(m.partitionUuid) <==> UuidText(m.partitionUuid)
      ensures ValidDisk(AsDisk(m, false)) <==>
        && NameText(m.id) && DeviceText(m.device)
        && exists n :: 0 < n < 1048577 && m.allocationBytes == n * 1073741824
    {
      UuidIs(m.partitionUuid);
      DiskIs(AsDisk(m, false));
    }
    var disks := AsRequest(s).disks;
    assert (forall i :: 0 <= i < |disks| ==> ValidDisk(disks[i])) <==>
      forall m <- s.disks :: ValidDisk(AsDisk(m, false)) by {
      assert forall i :: 0 <= i < |disks| ==> disks[i] == AsDisk(s.disks[i], false);
    }
    assert forall i :: 0 <= i < |disks| ==> disks[i].id == s.disks[i].id && disks[i].device == s.disks[i].device;
  }

  lemma GoodNames(request: Request, s: State)
    requires GoodRequest(request, request.deviceId) && GoodState(s, s.deviceId)
    ensures NamedOnce(request, s)
  {
    hide UuidText, NameText, DeviceText;
  }

  // ------------------------------------------------------------ what is accepted

  /** The request that finished last is asked for again. */
  predicate Repeats(d: Durable, request: Request) {
    d.state.Some? && d.state.value.applied.Some? && d.state.value.applied.value == request
  }

  /** The disks of the request can be placed, and the request may follow what is saved. */
  ghost predicate Placeable(d: Durable, request: Request) {
    if d.state.Some? then
      && MayFollow(request, d.state.value)
      && exists places :: Places(d, request.disks, d.state.value.disks, {}, places)
    else exists places :: Places(d, request.disks, [], {}, places)
  }

  /** What apply_request lets through, with no journal pending and with one. */
  ghost predicate Acceptable(d: Durable, request: Request, stopped: bool) {
    && stopped && GoodRequest(request, d.owner) && (d.state.Some? ==> GoodState(d.state.value, d.owner))
    && if d.pending.Some? then d.pending.value.requestDigest == request && d.pending.value.request.deviceId == d.owner
       else Repeats(d, request) || Placeable(d, request)
  }

  lemma PlaceableIs(d: Durable, request: Request)
    requires GoodRequest(request, d.owner) && (d.state.Some? ==> GoodState(d.state.value, d.owner))
    ensures PlanDevices(d, request, d.state).Ok? <==> Placeable(d, request)
  {
    hide GoodRequest, GoodState, ValidRequest, ValidTransition, MayFollow, Places, PlanDisks, NamedOnce;
    RequestIs(request, request.deviceId);
    assert GoodRequest(request, request.deviceId) by { OwnerIs(request, d.owner); }
    if d.state.Some? {
      assert GoodState(d.state.value, d.state.value.deviceId) by { StateOwnerIs(d.state.value, d.owner); }
      GoodNames(request, d.state.value);
      TransitionIs(request, d.state.value);
    } else {
      assert ValidTransition(request, d.state) by { NoTransition(request); }
    }
    var members := OldMembers(d.state);
    if PlanDisks(d, request.disks, members, {}).Ok? {
      PlannedPlaces(d, request.disks, members, {});
    }
    if places :| Places(d, request.disks, members, {}, places) {
      PlacesPlanned(d, request.disks, members, {}, places);
    }
  }

  lemma OwnerIs(request: Request, owner: string)
    requires GoodRequest(request, owner)
    ensures GoodRequest(request, request.deviceId)
  {
    hide UuidText, NameText, DeviceText;
  }

  lemma StateOwnerIs(s: State, owner: string)
    requires GoodState(s, owner)
    ensures GoodState(s, s.deviceId)
  {
    hide UuidText, NameText, DeviceText;
  }

  lemma NoTransition(request: Request)
    ensures ValidTransition(request, None)
  {
  }

  /**
   Exactly what apply_request accepts; everything else changes nothing. An accepted request resumes
   the journal of its own, or only installs and mounts what it finished before, or writes a new
   journal first, and nothing is destroyed before that.
   */
  lemma AcceptedIs(d: Durable, request: Request, stopped: bool, draw: Draw)
    requires |draw.members| == |request.disks|
    ensures Steps(d, request, stopped, draw).Ok? <==> Acceptable(d, request, stopped)
    ensures Acceptable(d, request, stopped) ==>
      var steps := Steps(d, request, stopped, draw).value;
      if Repeats(d, request) then
        steps == [Install, Activate, AttachMount] + (if d.pending.Some? then [Finish] else [])
      else if d.pending.Some? then steps == Program(d.pending.value)
      else steps[0].SaveJournal? && steps[0].j.request == request && steps[1..] == Program(steps[0].j)
  {
    hide GoodRequest, GoodState, ValidRequest, ValidState, Placeable, PlanDevices, NewJournal, Program;
    RequestIs(request, d.owner);
    if d.state.Some? {
      StateIs(d.state.value, d.owner);
    }
    if GoodRequest(request, d.owner) && (d.state.Some? ==> GoodState(d.state.value, d.owner)) {
      PlaceableIs(d, request);
    }
    var plans := PlanDevices(d, request, d.state);
    if plans.Ok? {
      NewJournalRequest(d, request, plans.value, draw);
    }
  }

  lemma NewJournalRequest(d: Durable, request: Request, plans: seq<Plan>, draw: Draw)
    requires |plans| == |request.disks| == |draw.members|
    ensures NewJournal(d, request, plans, draw).request == request
  {
  }

  // -------------------------------------------------------- what a request leaves

  /** A requested disk as saved: under the identities it had, or the ones drawn for it, on the disk it stands on. */
  ghost predicate SavedDisk(m: Member, disk: DiskRequest, known: seq<Member>, ids: Ids, d: Durable) {
    && m.id == disk.id && m.allocationBytes == disk.allocationBytes
    && (if exists n <- known :: n.id == disk.id then
          exists n <- known ::
            n.id == disk.id && m.diskUuid == n.diskUuid && m.partitionUuid == n.partitionUuid && m.pvUuid == n.pvUuid
        else m.diskUuid == ids.diskUuid && m.partitionUuid == ids.partitionUuid && m.pvUuid == ids.pvUuid)
    && exists k :: 0 <= k < |d.partitions| && d.partitions[k].disk == m.device && Sole(d.partitions, k, m)
  }

  /** The state file of a finished request. */
  ghost predicate SavedAs(before: Option<State>, request: Request, draw: Draw, d: Durable)
    requires |draw.members| == |request.disks|
  {
    && d.state.Some?
    && var s := d.state.value;
    && s.deviceId == request.deviceId && s.poolId == request.poolId && s.generation == request.generation
    && s.applied == Some(request)
    && OneVolume(d, GroupName(request.poolId)) && s.vgUuid == d.groups[GroupName(request.poolId)].uuid
    && s.lvUuid == d.groups[GroupName(request.poolId)].volumes[0].uuid
    && (if before.Some? then
          s.filesystemUuid == before.value.filesystemUuid && s.migrationComplete == before.value.migrationComplete
        else s.filesystemUuid == draw.filesystemUuid && !s.migrationComplete)
    && |s.disks| == |request.disks|
    && forall i :: 0 <= i < |s.disks| ==>
         SavedDisk(s.disks[i], request.disks[i], if before.Some? then before.value.disks else [], draw.members[i], d)
  }

  lemma JournalDisk(j: Journal, d: Durable, i: nat, disk: DiskRequest, known: seq<Member>, ids: Ids, plan: Plan)
    requires BuiltPool(j, d) && i < |j.members|
    requires j.members[i] == NewMember(disk, plan, FindMember(known, disk.id), ids)
    ensures SavedDisk(d.state.value.disks[i], disk, known, ids, d)
  {
    hide Matches, FreeBytes, GroupMembers;
    var m := j.members[i];
    var k := Locate(d, m).value;
    assert m in j.members;
    assert d.partitions[k].content == Pv(m.pvUuid, JournalGroup(j), d.partitions[k].sizeBytes);
    OneMatch(d.partitions, m.partitionUuid);
    assert Sole(d.partitions, k, d.state.value.disks[i]);
  }

  /** A request carried through saves exactly itself. */
  lemma RequestSaves(d: Durable, request: Request, plans: seq<Plan>, draw: Draw)
    requires Planned(d, request, plans, draw) && Invariant(d)
    requires ValidRequest(request, d.owner) && (d.state.Some? ==> ValidState(d.state.value, d.owner))
    requires !Applied(d, request) && d.poolDirectoryEmpty
    ensures
      var j := NewJournal(d, request, plans, draw);
      var (x, s) := Target(d.(pending := Some(j)), j);
      s == Done ==> SavedAs(d.state, request, draw, x) && x.pending.None?
  {
    hide PlanDevices, ValidRequest, ValidState, Target, BuiltPool, SavedDisk, Started;
    var j := NewJournal(d, request, plans, draw);
    BeginsStarted(d, request, plans, draw);
    var (x, s) := Target(d.(pending := Some(j)), j);
    if s == Done {
      FinishedPool(j, d.(pending := Some(j)));
      SavedHeader(j, x);
      forall i | 0 <= i < |request.disks|
        ensures SavedDisk(x.state.value.disks[i], request.disks[i], OldMembers(d.state), draw.members[i], x)
      {
        JournalDisk(j, x, i, request.disks[i], OldMembers(d.state), draw.members[i], plans[i]);
      }
    }
  }

  lemma SavedHeader(j: Journal, x: Durable)
    requires BuiltPool(j, x)
    ensures x.state.Some? && |x.state.value.disks| == |j.members| && OneVolume(x, GroupName(j.request.poolId))
    ensures
      var s := x.state.value;
      && s.vgUuid == x.groups[GroupName(j.request.poolId)].uuid
      && s.lvUuid == x.groups[GroupName(j.request.poolId)].volumes[0].uuid
      && s.deviceId == j.request.deviceId && s.poolId == j.request.poolId && s.generation == j.request.generation
      && s.filesystemUuid == j.filesystemUuid && s.applied == Some(j.requestDigest)
      && s.migrationComplete == (j.oldState.Some? && j.oldState.value.migrationComplete)
  {
  }

  /** The guest mounts nothing but the saved pool where the pool goes. */
  predicate MountedSaved(w: World) {
    w.volatile.mount.Some? ==>
      w.durable.state.Some? && w.volatile.mount.value == Mount("ext4", w.durable.state.value.filesystemUuid, true)
  }

  lemma NewMountSane(w: World, request: Request, plans: seq<Plan>, draw: Draw)
    requires |plans| == |request.disks| == |draw.members| && MountedSaved(w)
    ensures MountSane(w.volatile, NewJournal(w.durable, request, plans, draw))
  {
  }

  /** The first step of a new request writes its journal. */
  lemma JournalFirst(j: Journal, w: World, fuel: nat)
    requires fuel > 0
    ensures Run([SaveJournal(j)] + Program(j), w, fuel) ==
      Run(Program(j), World(w.durable.(pending := Some(j)), w.volatile), fuel - 1)
  {
    hide Program;
    var steps := [SaveJournal(j)] + Program(j);
    assert steps[0] == SaveJournal(j) && steps[1..] == Program(j);
  }

  /** A new request that ends Done has saved exactly itself, and an older one is refused from then on. */
  lemma ApplySaves(w: World, request: Request, draw: Draw, fuel: nat)
    requires |draw.members| == |request.disks| && FreshDraw(w.durable, draw) && Invariant(w.durable)
    requires w.durable.pending.None? && w.durable.poolDirectoryEmpty && MountedSaved(w) && !Repeats(w.durable, request)
    ensures
      var (x, s) := Apply(w, request, true, draw, fuel);
      s == Done ==> SavedAs(w.durable.state, request, draw, x.durable) && x.durable.pending.None?
  {
    hide PlanDevices, ValidRequest, ValidState, Target, SavedAs, Run, Program, Invariant, Started, FreshDraw,
      NewJournal;
    var d := w.durable;
    if Steps(d, request, true, draw).Ok? {
      var plans := PlanDevices(d, request, d.state).value;
      var j := NewJournal(d, request, plans, draw);
      assert Planned(d, request, plans, draw);
      BeginsStarted(d, request, plans, draw);
      if fuel > 0 {
        var v := World(d.(pending := Some(j)), w.volatile);
        JournalFirst(j, w, fuel);
        NewMountSane(w, request, plans, draw);
        assert Walk(Prepare(j)[..0], v.durable) == (v.durable, true);
        RunProgram(j, 0, v.durable, v, fuel - 1);
        RequestSaves(d, request, plans, draw);
      } else {
        CutBefore([SaveJournal(j)] + Program(j), w);
      }
    }
  }

  lemma CutBefore(steps: seq<Step>, w: World)
    requires steps != []
    ensures Run(steps, w, 0) == (w, Crashed)
  {
  }

  /** Once a request has been saved, any other request of a smaller generation changes nothing. */
  lemma StaleRefused(w: World, saved: Request, request: Request, stopped: bool, draw: Draw, fuel: nat)
    requires w.durable.pending.None? && w.durable.state.Some?
    requires w.durable.state.value.generation == saved.generation && w.durable.state.value.applied == Some(saved)
    requires request != saved && request.generation < saved.generation && |draw.members| == |request.disks|
    ensures Apply(w, request, stopped, draw, fuel) == (w, Rejected)
  {
    hide ValidRequest, ValidState, PlanDisks;
  }

  /** So after a request has ended Done, an older one is refused whatever boots and mounts lie between. */
  lemma OlderRefused(w: World, request: Request, draw: Draw, fuel: nat, v: Volatile,
      older: Request, stopped: bool, olderDraw: Draw, olderFuel: nat)
    requires |draw.members| == |request.disks| && FreshDraw(w.durable, draw) && Invariant(w.durable)
    requires w.durable.pending.None? && w.durable.poolDirectoryEmpty && MountedSaved(w) && !Repeats(w.durable, request)
    requires Apply(w, request, true, draw, fuel).1 == Done
    requires older.generation < request.generation && |olderDraw.members| == |older.disks|
    ensures
      var after := World(Apply(w, request, true, draw, fuel).0.durable, v);
      Apply(after, older, stopped, olderDraw, olderFuel) == (after, Rejected)
  {
    hide Apply, Invariant, FreshDraw, SavedDisk;
    ApplySaves(w, request, draw, fuel);
    var after := World(Apply(w, request, true, draw, fuel).0.durable, v);
    StaleRefused(after, request, older, stopped, olderDraw, olderFuel);
  }

  // ------------------------------------------------------------------ whose group

  lemma {:induction false} HexOver(a: string, b: string)
    ensures Hex(a + b) == Hex(a) + Hex(b)
  {
    if a == "" {
      assert a + b == b;
    } else {
      HexOver(a[1..], b);
      var c := if a[0] == '-' then "" else [a[0]];
      assert Hex(a + b) == c + Hex(a[1..] + b) by {
        assert (a + b)[1..] == a[1..] + b;
      }
      assert c + (Hex(a[1..]) + Hex(b)) == (c + Hex(a[1..])) + Hex(b);
    }
  }

  lemma {:induction false} HexPlain(a: string)
    requires AllHex(a)
    ensures Hex(a) == a
  {
    if a != "" {
      forall c <- a[1..]
        ensures '0' <= c <= '9' || 'a' <= c <= 'f'
      {
        assert c in a;
      }
      HexPlain(a[1..]);
      assert a[0] in a && a == [a[0]] + a[1..];
    }
  }

  lemma HexHyphen(a: string, b: string)
    ensures Hex(a + "-" + b) == Hex(a) + Hex(b)
  {
    HexOver(a + "-", b);
    HexOver(a, "-");
  }

  lemma HexFrom(s: string, from: nat, to: nat)
    requires from <= to < |s| && s[to] == '-' && AllHex(s[from..to])
    ensures Hex(s[from..]) == s[from..to] + Hex(s[to + 1..])
  {
    HexPlain(s[from..to]);
    HexHyphen(s[from..to], s[to + 1..]);
    assert s[from..] == s[from..to] + "-" + s[to + 1..];
  }

  lemma HexGroups(s: string)
    requires UuidText(s)
    ensures Hex(s) == s[..8] + (s[9..13] + (s[14..18] + (s[19..23] + s[24..])))
  {
    hide AllHex, Hex;
    assert s[0..] == s && s[0..8] == s[..8];
    HexFrom(s, 0, 8);
    HexFrom(s, 9, 13);
    HexFrom(s, 14, 18);
    HexFrom(s, 19, 23);
    HexPlain(s[24..]);
  }

  lemma HexInjective(a: string, b: string)
    requires UuidText(a) && UuidText(b) && Hex(a) == Hex(b)
    ensures a == b
  {
    hide Hex, AllHex;
    HexGroups(a);
    HexGroups(b);
    var x := Hex(a);
    assert a[..8] == x[..8] && b[..8] == x[..8];
    assert a[9..13] == x[8..12] && b[9..13] == x[8..12];
    assert a[14..18] == x[12..16] && b[14..18] == x[12..16];
    assert a[19..23] == x[16..20] && b[19..23] == x[16..20];
    assert a[24..] == x[20..] && b[24..] == x[20..];
    assert a == a[..8] + "-" + a[9..13] + "-" + a[14..18] + "-" + a[19..23] + "-" + a[24..];
    assert b == b[..8] + "-" + b[9..13] + "-" + b[14..18] + "-" + b[19..23] + "-" + b[24..];
  }

  /** Two pools never share a group name, and one device's tags are never another's. */
  lemma GroupsApart(deviceId: string, poolId: string, otherDevice: string, otherPool: string)
    requires UuidText(deviceId) && UuidText(poolId) && UuidText(otherDevice) && UuidText(otherPool)
    ensures GroupName(poolId) == GroupName(otherPool) <==> poolId == otherPool
    ensures OwnerTags(deviceId, poolId) <= OwnerTags(otherDevice, otherPool) <==>
      deviceId == otherDevice && poolId == otherPool
  {
    hide UuidText, Hex;
    if GroupName(poolId) == GroupName(otherPool) {
      assert GroupName(poolId)[3..] == Hex(poolId) && GroupName(otherPool)[3..] == Hex(otherPool);
      HexInjective(poolId, otherPool);
    }
    if OwnerTags(deviceId, poolId) <= OwnerTags(otherDevice, otherPool) {
      var owner, pool := "nh-owner-" + Hex(deviceId), "nh-pool-" + Hex(poolId);
      var other, its := "nh-owner-" + Hex(otherDevice), "nh-pool-" + Hex(otherPool);
      assert owner in OwnerTags(deviceId, poolId) && pool in OwnerTags(deviceId, poolId);
      assert owner[3] == 'o' && other[3] == 'o' && pool[3] == 'p' && its[3] == 'p';
      assert owner == other && pool == its;
      assert owner[9..] == Hex(deviceId) && other[9..] == Hex(otherDevice);
      assert pool[8..] == Hex(poolId) && its[8..] == Hex(otherPool);
      HexInjective(deviceId, otherDevice);
      HexInjective(poolId, otherPool);
    }
  }
}
