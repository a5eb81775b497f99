/**
 The guest's storage pool: what lives on disk, and the checks that
 guest/storage_pool.py makes before it touches anything.
 */
module PoolModel {
  import opened Outcomes
  import opened Units

  // ---------------------------------------------------------------- requests

  datatype DiskRequest = DiskRequest(id: string, device: string, allocationBytes: int, initialize: bool)

  /** `extra` holds top-level members of the JSON object that the guest neither reads nor refuses. */
  datatype Request = Request(format: int, deviceId: string, poolId: string, generation: int,
                             disks: seq<DiskRequest>, extra: map<string, string>)

  /** A pool member as recorded in the state file and in the journal. */
  datatype Member = Member(id: string, device: string, allocationBytes: int,
                           diskUuid: string, partitionUuid: string, pvUuid: string)

  /** The fingerprint of a request is modelled by the request itself: SHA-256 is taken to be injective. */
  datatype State = State(deviceId: string, poolId: string, generation: int, disks: seq<Member>,
                         filesystemUuid: string, vgUuid: nat, lvUuid: nat,
                         applied: Option<Request>, migrationComplete: bool)

  datatype Journal = Journal(request: Request, requestDigest: Request, oldState: Option<State>,
                             members: seq<Member>, filesystemUuid: string)

  // ------------------------------------------------------------------- disks

  /** `leftover` is a signature hidden at the first partition's offset, visible only once a table exists. */
  datatype Disk = Disk(sizeBytes: int, root: bool, mounted: bool, signatures: seq<string>,
                       leftover: Option<string>)

  datatype Content =
    | Blank
    | Pv(uuid: string, group: string, sizeBytes: int)
    | Foreign(kind: string)

  datatype Partition = Partition(disk: string, number: nat, uuid: string, sizeBytes: int,
                                 mounted: bool, content: Content)

  datatype Filesystem = Filesystem(kind: string, uuid: string, sizeBytes: int)

  datatype Volume = Volume(name: string, uuid: nat, tags: set<string>, linear: bool,
                           sizeBytes: int, fs: Option<Filesystem>)

  datatype Group = Group(uuid: nat, tags: set<string>, volumes: seq<Volume>)

  /** Everything that survives a power loss. `supply` numbers the identifiers LVM draws. */
  datatype Durable = Durable(owner: string, disks: map<string, Disk>, partitions: seq<Partition>,
                             groups: map<string, Group>, supply: nat,
                             state: Option<State>, pending: Option<Journal>,
                             serviceInstalled: bool, poolDirectoryEmpty: bool)

  datatype Mount = Mount(kind: string, uuid: string, writable: bool)

  /** Whether the pool's logical volume is active, and what is mounted at the pool path. */
  datatype Volatile = Volatile(active: bool, mount: Option<Mount>)

  datatype World = World(durable: Durable, volatile: Volatile)

  // ------------------------------------------------------ request validation

  predicate IsHex(c: char) { '0' <= c <= '9' || 'a' <= c <= 'f' }

  /** The canonical text of a UUID: the only text equal to its own parse. */
  predicate IsUuid(s: string) {
    |s| == 36 &&
    forall i :: 0 <= i < 36 ==> if i == 8 || i == 13 || i == 18 || i == 23 then s[i] == '-' else IsHex(s[i])
  }

  predicate IsAlphanumeric(c: char) { 'a' <= c <= 'z' || 'A' <= c <= 'Z' || '0' <= c <= '9' }

  predicate IsDiskName(s: string) {
    1 <= |s| <= 11 && IsAlphanumeric(s[0]) &&
    forall i :: 1 <= i < |s| ==> IsAlphanumeric(s[i]) || s[i] == '_' || s[i] == '-'
  }

  predicate IsManagedDevice(s: string) {
    |s| == 8 && s[..7] == "/dev/vd" && 'b' <= s[7] <= 'q'
  }

  predicate ValidDisk(disk: DiskRequest) {
    IsDiskName(disk.id) && IsManagedDevice(disk.device) &&
    GIB <= disk.allocationBytes <= 1048576 * GIB && disk.allocationBytes % GIB == 0
  }

  predicate ValidRequest(request: Request, owner: string) {
    request.format == 1 &&
    IsUuid(request.deviceId) && IsUuid(request.poolId) &&
    request.deviceId == owner &&
    0 <= request.generation < 0x1_0000_0000_0000_0000 &&
    1 <= |request.disks| <= 16 &&
    (forall i :: 0 <= i < |request.disks| ==> ValidDisk(request.disks[i])) &&
    (forall i, k :: 0 <= i < k < |request.disks| ==>
      request.disks[i].id != request.disks[k].id && request.disks[i].device != request.disks[k].device)
  }

  function AsDisk(m: Member, initialize: bool): DiskRequest {
    DiskRequest(m.id, m.device, m.allocationBytes, initialize)
  }

  function AsDisks(members: seq<Member>): seq<DiskRequest> {
    seq(|members|, i requires 0 <= i < |members| => AsDisk(members[i], false))
  }

  /** A saved state read back as the request it is validated as. */
  function AsRequest(s: State): Request {
    Request(1, s.deviceId, s.poolId, s.generation, AsDisks(s.disks), map[])
  }

  predicate ValidState(s: State, owner: string) {
    ValidRequest(AsRequest(s), owner) &&
    (forall m <- s.disks :: IsUuid(m.partitionUuid) && m.pvUuid != "") &&
    IsUuid(s.filesystemUuid)
  }

  function FindMember(members: seq<Member>, id: string): (r: Option<Member>)
    ensures r.Some? <==> exists m <- members :: m.id == id
    ensures r.Some? ==> r.value in members && r.value.id == id
  {
    if members == [] then None
    else if members[0].id == id then Some(members[0])
    else FindMember(members[1..], id)
  }

  function OldMembers(state: Option<State>): seq<Member> {
    if state.Some? then state.value.disks else []
  }

  predicate ValidTransition(request: Request, state: Option<State>) {
    state.Some? ==>
      var s := state.value;
      request.deviceId == s.deviceId && request.poolId == s.poolId &&
      request.generation >= s.generation &&
      (forall m <- s.disks ::
        exists disk <- request.disks ::
          disk.id == m.id && !disk.initialize && disk.allocationBytes >= m.allocationBytes) &&
      (request.generation == s.generation ==>
        forall disk <- request.disks ::
          exists m <- s.disks :: m.id == disk.id && m.allocationBytes == disk.allocationBytes)
  }

  // ---------------------------------------------------------------- planning

  /** The indices of the partitions carrying `uuid`, in order. */
  function Matches(partitions: seq<Partition>, uuid: string): (r: seq<nat>)
    ensures forall i :: 0 <= i < |r| ==> r[i] < |partitions| && partitions[r[i]].uuid == uuid
    ensures forall k :: 0 <= k < |partitions| && partitions[k].uuid == uuid ==> k in r
    ensures forall i, k :: 0 <= i < k < |r| ==> r[i] < r[k]
  {
    if partitions == [] then []
    else
      var last := |partitions| - 1;
      var rest := Matches(partitions[..last], uuid);
      if partitions[last].uuid == uuid then rest + [last] else rest
  }

  predicate HasPartition(partitions: seq<Partition>, disk: string) {
    exists p <- partitions :: p.disk == disk
  }

  predicate IsBlankDisk(d: Durable, disk: string)
  {
    disk in d.disks && d.disks[disk].signatures == [] && !d.disks[disk].mounted &&
    !HasPartition(d.partitions, disk)
  }

  datatype Plan = Plan(device: string, initialize: bool)

  /** One turn of the loop of plan_devices; `used` holds the devices of the earlier turns. */
  function PlanDisk(d: Durable, disk: DiskRequest, member: Option<Member>, used: set<string>): Result<Plan> {
    var device: Result<string> :=
      if member.Some? then
        var matches := Matches(d.partitions, member.value.partitionUuid);
        if |matches| != 1 then Refused
        else
          var partition := d.partitions[matches[0]];
          if !partition.content.Pv? || partition.content.uuid != member.value.pvUuid then Refused
          else Ok(partition.disk)
      else if disk.initialize && IsBlankDisk(d, disk.device) then Ok(disk.device)
      else Refused;
    if device.Refused? || device.value !in d.disks then Refused
    else if d.disks[device.value].root || device.value in used then Refused
    else if d.disks[device.value].sizeBytes < disk.allocationBytes then Refused
    else Ok(Plan(device.value, member.None?))
  }

  function PlanDisks(d: Durable, disks: seq<DiskRequest>, members: seq<Member>,
      used: set<string>): (r: Result<seq<Plan>>)
    ensures r.Ok? ==> |r.value| == |disks|
  {
    if disks == [] then Ok([])
    else
      var first := PlanDisk(d, disks[0], FindMember(members, disks[0].id), used);
      if first.Refused? then Refused
      else
        var rest := PlanDisks(d, disks[1..], members, used + {first.value.device});
        if rest.Refused? then Refused else Ok([first.value] + rest.value)
  }

  function PlanDevices(d: Durable, request: Request, state: Option<State>): (r: Result<seq<Plan>>)
    ensures r.Ok? ==> |r.value| == |request.disks|
  {
    if ValidRequest(request, request.deviceId) && ValidTransition(request, state)
    then PlanDisks(d, request.disks, OldMembers(state), {})
    else Refused
  }

  // --------------------------------------------------------------------- LVM

  const VOLUME_NAME := "worker"

  function Hex(uuid: string): string {
    if uuid == "" then "" else (if uuid[0] == '-' then "" else [uuid[0]]) + Hex(uuid[1..])
  }

  function GroupName(poolId: string): string { "nh_" + Hex(poolId) }

  function OwnerTags(deviceId: string, poolId: string): set<string> {
    {"nh-owner-" + Hex(deviceId), "nh-pool-" + Hex(poolId)}
  }

  /** The uuids of the physical volumes in a group. */
  function GroupMembers(partitions: seq<Partition>, group: string): set<string> {
    set p <- partitions | p.content.Pv? && p.content.group == group :: p.content.uuid
  }

  function MemberPvs(members: seq<Member>): set<string> {
    set m <- members :: m.pvUuid
  }

  function PvBytes(p: Partition, group: string): int {
    if p.content.Pv? && p.content.group == group then p.content.sizeBytes else 0
  }

  function Capacity(partitions: seq<Partition>, group: string): int {
    if partitions == [] then 0
    else Capacity(partitions[..|partitions| - 1], group) + PvBytes(partitions[|partitions| - 1], group)
  }

  function VolumeBytes(volumes: seq<Volume>): int {
    if volumes == [] then 0 else volumes[0].sizeBytes + VolumeBytes(volumes[1..])
  }

  function FreeBytes(d: Durable, group: string): int
    requires group in d.groups
  {
    Capacity(d.partitions, group) - VolumeBytes(d.groups[group].volumes)
  }

  /** validate_lvm; the recorded identities are absent while a first pool is being built. */
  predicate ValidLvm(d: Durable, deviceId: string, poolId: string, members: seq<Member>,
                     identity: Option<(nat, nat)>)
  {
    var name := GroupName(poolId);
    name in d.groups &&
    var group := d.groups[name];
    OwnerTags(deviceId, poolId) <= group.tags &&
    |group.volumes| == 1 && group.volumes[0].name == VOLUME_NAME && group.volumes[0].linear &&
    (identity.Some? ==> group.uuid == identity.value.0 && group.volumes[0].uuid == identity.value.1) &&
    GroupMembers(d.partitions, name) == MemberPvs(members)
  }
}
