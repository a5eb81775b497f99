/**
 The storage commands of guest/storage_pool.py as atomic durable steps: what each
 step decides from an inspection of the disks, and what the command it issues does.
 */
module PoolSteps {
  import opened Outcomes
  import opened PoolModel

  // ---------------------------------------------------------------- commands

  datatype Command =
    | Nothing
    | WriteJournal(journal: Journal)
    | PartitionDisk(disk: string, partitionUuid: string)  // sfdisk
    | GrowPartition(k: nat)                               // growpart
    | CreatePv(k: nat, pvUuid: string)                    // pvcreate
    | ResizePv(k: nat)                                    // pvresize
    | CreateGroup(name: string, tags: set<string>, ks: set<nat>)
    | ExtendGroup(name: string, ks: set<nat>)
    | CreateVolume(group: string, tags: set<string>)
    | ExtendVolume(group: string)
    | ActivateVolume
    | MakeFilesystem(group: string, fsUuid: string)       // mkfs.ext4
    | ResizeFilesystem(group: string)                     // resize2fs
    | InstallService
    | WriteState(state: State)
    | MountPool
    | DropJournal

  function Join(p: Partition, group: string): Partition {
    if p.content.Pv? then p.(content := p.content.(group := group)) else p
  }

  function JoinAll(partitions: seq<Partition>, ks: set<nat>, group: string): (r: seq<Partition>)
    ensures |r| == |partitions|
    ensures forall k :: 0 <= k < |r| ==> r[k] == if k in ks then Join(partitions[k], group) else partitions[k]
  {
    seq(|partitions|, k requires 0 <= k < |partitions| =>
      if k in ks then Join(partitions[k], group) else partitions[k])
  }

  function WithVolume(d: Durable, group: string, v: Volume): Durable
    requires group in d.groups
  {
    d.(groups := d.groups[group := d.groups[group].(volumes := [v])])
  }

  predicate OneVolume(d: Durable, group: string) {
    group in d.groups && |d.groups[group].volumes| == 1
  }

  function Max(a: int, b: int): int { if a < b then b else a }

  /** What a command leaves on disk; Refused where the tool itself exits with an error. */
  function Effect(c: Command, d: Durable): Result<Durable> {
    match c
    case Nothing => Ok(d)
    case WriteJournal(j) => Ok(d.(pending := Some(j)))
    case PartitionDisk(disk, uuid) =>
      if disk !in d.disks then Refused
      else
        var x := d.disks[disk];
        var content := if x.leftover.Some? then Foreign(x.leftover.value) else Blank;
        Ok(d.(disks := d.disks[disk := x.(signatures := ["gpt"])],
              partitions := d.partitions + [Partition(disk, 1, uuid, x.sizeBytes, false, content)]))
    case GrowPartition(k) =>
      if k >= |d.partitions| || d.partitions[k].disk !in d.disks then Refused
      else
        var p := d.partitions[k];
        Ok(d.(partitions := d.partitions[k := p.(sizeBytes := Max(p.sizeBytes, d.disks[p.disk].sizeBytes))]))
    case CreatePv(k, uuid) =>
      if k >= |d.partitions| || (exists p <- d.partitions :: p.content.Pv? && p.content.uuid == uuid) then Refused
      else Ok(d.(partitions := d.partitions[k := d.partitions[k].(content := Pv(uuid, "", d.partitions[k].sizeBytes))]))
    case ResizePv(k) =>
      if k >= |d.partitions| || !d.partitions[k].content.Pv? then Refused
      else
        var p := d.partitions[k];
        Ok(d.(partitions := d.partitions[k := p.(content := p.content.(sizeBytes := p.sizeBytes))]))
    case CreateGroup(name, tags, ks) =>
      if name in d.groups || GroupMembers(d.partitions, name) != {} ||
         (exists k <- ks :: k >= |d.partitions| || !d.partitions[k].content.Pv? || d.partitions[k].content.group != "")
      then Refused
      else Ok(d.(partitions := JoinAll(d.partitions, ks, name),
                 groups := d.groups[name := Group(d.supply, tags, [])], supply := d.supply + 1))
    case ExtendGroup(name, ks) =>
      if name !in d.groups then Refused
      else Ok(d.(partitions := JoinAll(d.partitions, ks, name)))
    case CreateVolume(group, tags) =>
      if group !in d.groups || d.groups[group].volumes != [] || FreeBytes(d, group) <= 0 then Refused
      else Ok(WithVolume(d, group,
        Volume(VOLUME_NAME, d.supply, tags, true, FreeBytes(d, group), None)).(supply := d.supply + 1))
    case ExtendVolume(group) =>
      if !OneVolume(d, group) then Refused
      else
        var v := d.groups[group].volumes[0];
        Ok(WithVolume(d, group, v.(sizeBytes := v.sizeBytes + FreeBytes(d, group))))
    case ActivateVolume => Ok(d)
    case MakeFilesystem(group, uuid) =>
      if !OneVolume(d, group) then Refused
      else
        var v := d.groups[group].volumes[0];
        Ok(WithVolume(d, group, v.(fs := Some(Filesystem("ext4", uuid, v.sizeBytes)))))
    case ResizeFilesystem(group) =>
      if !OneVolume(d, group) || d.groups[group].volumes[0].fs.None? then Refused
      else
        var v := d.groups[group].volumes[0];
        Ok(WithVolume(d, group, v.(fs := Some(v.fs.value.(sizeBytes := v.sizeBytes)))))
    case InstallService => Ok(d.(serviceInstalled := true))
    case WriteState(s) => Ok(d.(state := Some(s)))
    case MountPool => Ok(d)
    case DropJournal => Ok(d.(pending := None))
  }

  // ------------------------------------------------------------------- steps

  datatype Step =
    | SaveJournal(j: Journal)
    | PreparePartition(j: Journal, m: Member)
    | PreparePv(j: Journal, m: Member)
    | FitPv(j: Journal, m: Member)
    | BuildGroup(j: Journal)
    | BuildVolume(j: Journal)
    | FillVolume(j: Journal)
    | ActivateBuilt(j: Journal)
    | BuildFilesystem(j: Journal)
    | FitFilesystem(j: Journal)
    | Install
    | Commit(j: Journal)
    | Activate
    | AttachMount
    | Finish

  function JournalGroup(j: Journal): string { GroupName(j.request.poolId) }

  function JournalTags(j: Journal): set<string> { OwnerTags(j.request.deviceId, j.request.poolId) }

  function OldMember(j: Journal, m: Member): Option<Member> {
    FindMember(OldMembers(j.oldState), m.id)
  }

  /** The only partition carrying the member's journaled uuid. */
  function Locate(d: Durable, m: Member): (r: Result<nat>)
    ensures r.Ok? ==> r.value < |d.partitions| && d.partitions[r.value].uuid == m.partitionUuid
  {
    var matches := Matches(d.partitions, m.partitionUuid);
    if |matches| == 1 then Ok(matches[0]) else Refused
  }

  function Located(d: Durable, members: seq<Member>): set<nat> {
    set m <- members | Locate(d, m).Ok? :: Locate(d, m).value
  }

  predicate AllLocated(d: Durable, members: seq<Member>) {
    forall m <- members :: Locate(d, m).Ok?
  }

  function FirstPartition(partitions: seq<Partition>, disk: string): (r: Option<nat>)
    ensures r.Some? ==> r.value < |partitions| && partitions[r.value].disk == disk
  {
    if partitions == [] then None
    else
      var last := |partitions| - 1;
      var earlier := FirstPartition(partitions[..last], disk);
      if earlier.Some? then earlier
      else if partitions[last].disk == disk && partitions[last].number == 1 then Some(last)
      else None
  }

  predicate OnlyPartition(partitions: seq<Partition>, k: nat)
    requires k < |partitions|
  {
    forall l :: 0 <= l < |partitions| && l != k ==> partitions[l].disk != partitions[k].disk
  }

  /** The plan for one member the pool already had. */
  function PlanKnown(j: Journal, m: Member, known: Member, d: Durable): Result<seq<Plan>>
    requires j.oldState.Some?
  {
    PlanDevices(d, j.request.(disks := [AsDisk(m, false)]), Some(j.oldState.value.(disks := [known])))
  }

  function DecidePartition(j: Journal, m: Member, d: Durable): Result<Command> {
    var known := OldMember(j, m);
    if known.Some? then
      var plans := PlanKnown(j, m, known.value, d);
      if plans.Refused? then Refused
      else if m.allocationBytes > known.value.allocationBytes then
        var first := FirstPartition(d.partitions, plans.value[0].device);
        if first.None? then Refused else Ok(GrowPartition(first.value))
      else Ok(Nothing)
    else if Matches(d.partitions, m.partitionUuid) != [] then Ok(Nothing)
    else
      var plans := PlanDevices(d, j.request.(disks := [AsDisk(m, true)]), None);
      if plans.Refused? then Refused else Ok(PartitionDisk(plans.value[0].device, m.partitionUuid))
  }

  function DecidePv(j: Journal, m: Member, d: Durable): Result<Command> {
    if OldMember(j, m).Some? then Ok(Nothing)
    else
      var located := Locate(d, m);
      if located.Refused? then Refused
      else
        var p := d.partitions[located.value];
        if p.disk !in d.disks || d.disks[p.disk].root || !OnlyPartition(d.partitions, located.value) then Refused
        else if d.disks[p.disk].sizeBytes < m.allocationBytes || p.mounted then Refused
        else if p.content.Pv? && p.content.uuid == m.pvUuid then Ok(Nothing)
        else if p.content != Blank then Refused
        else Ok(CreatePv(located.value, m.pvUuid))
  }

  function DecideFit(m: Member, d: Durable): Result<Command> {
    var located := Locate(d, m);
    if located.Refused? then Refused
    else
      var content := d.partitions[located.value].content;
      if !content.Pv? || content.uuid != m.pvUuid then Refused
      else Ok(ResizePv(located.value))
  }

  /** The members' physical volumes that still belong to no group. */
  function Additional(d: Durable, members: seq<Member>): set<nat> {
    set k | 0 <= k < |d.partitions| && d.partitions[k].content.Pv? &&
      d.partitions[k].content.uuid in MemberPvs(members) && d.partitions[k].content.group == "" :: k
  }

  predicate SomeoneElses(d: Durable, members: seq<Member>, group: string) {
    exists p <- d.partitions :: p.content.Pv? &&
      if p.content.uuid in MemberPvs(members) then p.content.group != "" && p.content.group != group
      else p.content.group == group
  }

  function DecideGroup(j: Journal, d: Durable): Result<Command> {
    var name := JournalGroup(j);
    if name !in d.groups then
      if j.oldState.Some? || !AllLocated(d, j.members) then Refused
      else Ok(CreateGroup(name, JournalTags(j), Located(d, j.members)))
    else if !(JournalTags(j) <= d.groups[name].tags) then Refused
    else if j.oldState.Some? && d.groups[name].uuid != j.oldState.value.vgUuid then Refused
    else if SomeoneElses(d, j.members, name) then Refused
    else if Additional(d, j.members) != {} then Ok(ExtendGroup(name, Additional(d, j.members)))
    else Ok(Nothing)
  }

  function DecideVolume(j: Journal, d: Durable): Result<Command> {
    var name := JournalGroup(j);
    if name !in d.groups then Refused
    else
      var volumes := d.groups[name].volumes;
      if volumes == [] then
        if j.oldState.Some? then Refused else Ok(CreateVolume(name, JournalTags(j)))
      else if |volumes| != 1 || volumes[0].name != VOLUME_NAME || !volumes[0].linear ||
              !(JournalTags(j) <= volumes[0].tags)
      then Refused
      else Ok(Nothing)
  }

  function OldIdentity(j: Journal): Option<(nat, nat)> {
    if j.oldState.Some? then Some((j.oldState.value.vgUuid, j.oldState.value.lvUuid)) else None
  }

  predicate JournalLvm(j: Journal, d: Durable) {
    ValidLvm(d, j.request.deviceId, j.request.poolId, j.members, OldIdentity(j))
  }

  function DecideFill(j: Journal, d: Durable): Result<Command> {
    var name := JournalGroup(j);
    if !JournalLvm(j, d) then Refused
    else if FreeBytes(d, name) > 0 then Ok(ExtendVolume(name))
    else Ok(Nothing)
  }

  function DecideFilesystem(j: Journal, d: Durable): Result<Command> {
    var name := JournalGroup(j);
    if !OneVolume(d, name) then Refused
    else
      var fs := d.groups[name].volumes[0].fs;
      if fs.None? then
        if j.oldState.Some? then Refused else Ok(MakeFilesystem(name, j.filesystemUuid))
      else if fs.value.kind != "ext4" || fs.value.uuid != j.filesystemUuid then Refused
      else Ok(Nothing)
  }

  /** The member as recorded once its disk has been found. */
  function Settled(d: Durable, m: Member): Member {
    var located := Locate(d, m);
    if located.Ok? then m.(device := d.partitions[located.value].disk) else m
  }

  function SettledAll(d: Durable, members: seq<Member>): (r: seq<Member>)
    ensures |r| == |members|
    ensures forall i :: 0 <= i < |r| ==> r[i] == Settled(d, members[i])
  {
    seq(|members|, i requires 0 <= i < |members| => Settled(d, members[i]))
  }

  function NextState(j: Journal, d: Durable): State
    requires OneVolume(d, JournalGroup(j))
  {
    var group := d.groups[JournalGroup(j)];
    State(j.request.deviceId, j.request.poolId, j.request.generation, SettledAll(d, j.members),
          j.filesystemUuid, group.uuid, group.volumes[0].uuid, Some(j.requestDigest),
          j.oldState.Some? && j.oldState.value.migrationComplete)
  }

  /** The inspection activate_pool makes before it activates the saved pool. */
  predicate Activatable(d: Durable) {
    d.state.Some? &&
    var s := d.state.value;
    ValidState(s, d.owner) &&
    PlanDevices(d, AsRequest(s), Some(s)).Ok? &&
    ValidLvm(d, s.deviceId, s.poolId, s.disks, Some((s.vgUuid, s.lvUuid)))
  }

  predicate Mountable(d: Durable) {
    d.state.Some? && OneVolume(d, GroupName(d.state.value.poolId)) &&
    var fs := d.groups[GroupName(d.state.value.poolId)].volumes[0].fs;
    fs.Some? && fs.value.kind == "ext4" && fs.value.uuid == d.state.value.filesystemUuid
  }

  function Decide(s: Step, d: Durable): Result<Command> {
    match s
    case SaveJournal(j) => Ok(WriteJournal(j))
    case PreparePartition(j, m) => DecidePartition(j, m, d)
    case PreparePv(j, m) => DecidePv(j, m, d)
    case FitPv(j, m) => DecideFit(m, d)
    case BuildGroup(j) => DecideGroup(j, d)
    case BuildVolume(j) => DecideVolume(j, d)
    case FillVolume(j) => DecideFill(j, d)
    case ActivateBuilt(j) => if OneVolume(d, JournalGroup(j)) then Ok(ActivateVolume) else Refused
    case BuildFilesystem(j) => DecideFilesystem(j, d)
    case FitFilesystem(j) => Ok(ResizeFilesystem(JournalGroup(j)))
    case Install => Ok(InstallService)
    case Commit(j) => if OneVolume(d, JournalGroup(j)) then Ok(WriteState(NextState(j, d))) else Refused
    case Activate => if Activatable(d) then Ok(ActivateVolume) else Refused
    case AttachMount => if d.poolDirectoryEmpty && Mountable(d) then Ok(MountPool) else Refused
    case Finish => Ok(DropJournal)
  }

  /** A step's effect on what survives a power loss. */
  function Settle(s: Step, d: Durable): Result<Durable> {
    var c := Decide(s, d);
    if c.Refused? then Refused else Effect(c.value, d)
  }

  function PoolMount(s: State): Mount { Mount("ext4", s.filesystemUuid, true) }

  /** A step in the running guest: filesystem tools need the active volume, and a mount may already be there. */
  function Perform(s: Step, w: World): Result<World> {
    match s
    case ActivateBuilt(_) =>
      if Settle(s, w.durable).Ok? then Ok(w.(volatile := w.volatile.(active := true))) else Refused
    case Activate =>
      if Settle(s, w.durable).Ok? then Ok(w.(volatile := w.volatile.(active := true))) else Refused
    case AttachMount =>
      if w.durable.state.None? then Refused
      else
        var expected := PoolMount(w.durable.state.value);
        if w.volatile.mount.Some? then
          if w.volatile.mount.value == expected then Ok(w) else Refused
        else if w.volatile.active && Settle(s, w.durable).Ok?
        then Ok(w.(volatile := w.volatile.(mount := Some(expected))))
        else Refused
    case _ =>
      if (s.BuildFilesystem? || s.FitFilesystem?) && !w.volatile.active then Refused
      else
        var d := Settle(s, w.durable);
        if d.Ok? then Ok(w.(durable := d.value)) else Refused
  }

  datatype Status = Done | Rejected | Crashed

  /** `fuel` is the number of steps the guest completes before it loses power. */
  function Run(steps: seq<Step>, w: World, fuel: nat): (World, Status) {
    if steps == [] then (w, Done)
    else if fuel == 0 then (w, Crashed)
    else
      var next := Perform(steps[0], w);
      if next.Refused? then (w, Rejected) else Run(steps[1..], next.value, fuel - 1)
  }

  function MemberSteps(j: Journal, members: seq<Member>): (r: seq<Step>)
    ensures |r| == 3 * |members|
  {
    if members == [] then []
    else
      var last := |members| - 1;
      MemberSteps(j, members[..last]) +
      [PreparePartition(j, members[last]), PreparePv(j, members[last]), FitPv(j, members[last])]
  }

  function BuildSteps(j: Journal): seq<Step> {
    [BuildGroup(j), BuildVolume(j), FillVolume(j), ActivateBuilt(j), BuildFilesystem(j), FitFilesystem(j), Install,
      Commit(j)]
  }

  const ACTIVATION: seq<Step> := [Activate, AttachMount]

  /** The whole of apply_request once the journal is written. */
  function Program(j: Journal): seq<Step> {
    MemberSteps(j, j.members) + BuildSteps(j) + ACTIVATION + [Finish]
  }

  // ------------------------------------------------------------ entry points

  datatype Ids = Ids(diskUuid: string, partitionUuid: string, pvUuid: string)

  function NewMember(disk: DiskRequest, plan: Plan, known: Option<Member>, ids: Ids): Member {
    if known.Some? then known.value.(allocationBytes := disk.allocationBytes, device := plan.device)
    else Member(disk.id, plan.device, disk.allocationBytes, ids.diskUuid, ids.partitionUuid, ids.pvUuid)
  }

  function NewMembers(disks: seq<DiskRequest>, plans: seq<Plan>, known: seq<Member>, ids: seq<Ids>): (r: seq<Member>)
    requires |plans| == |disks| == |ids|
    ensures |r| == |disks|
    ensures forall i :: 0 <= i < |r| ==> r[i] == NewMember(disks[i], plans[i], FindMember(known, disks[i].id), ids[i])
  {
    seq(|disks|, i requires 0 <= i < |disks| => NewMember(disks[i], plans[i], FindMember(known, disks[i].id), ids[i]))
  }

  /** The identifiers drawn with uuid4 by one request. */
  datatype Draw = Draw(members: seq<Ids>, filesystemUuid: string)

  function NewJournal(d: Durable, request: Request, plans: seq<Plan>, draw: Draw): Journal
    requires |plans| == |request.disks| == |draw.members|
  {
    Journal(request, request, d.state,
            NewMembers(request.disks, plans, OldMembers(d.state), draw.members),
            if d.state.Some? then d.state.value.filesystemUuid else draw.filesystemUuid)
  }

  predicate Applied(d: Durable, request: Request) {
    d.state.Some? && d.state.value.applied == Some(request)
  }

  /** The steps apply_request goes on to take, or Refused when it raises before any of them. */
  function Steps(d: Durable, request: Request, stopped: bool, draw: Draw): Result<seq<Step>>
    requires |draw.members| == |request.disks|
  {
    if !ValidRequest(request, d.owner) || !stopped then Refused
    else if d.state.Some? && !ValidState(d.state.value, d.owner) then Refused
    else if d.pending.Some? then
      var j := d.pending.value;
      if j.requestDigest != request || j.request.deviceId != d.owner then Refused
      else if Applied(d, request) then Ok([Install] + ACTIVATION + [Finish])
      else Ok(Program(j))
    else if Applied(d, request) then Ok([Install] + ACTIVATION)
    else
      var plans := PlanDevices(d, request, d.state);
      if plans.Refused? then Refused
      else
        var j := NewJournal(d, request, plans.value, draw);
        Ok([SaveJournal(j)] + Program(j))
  }

  function Apply(w: World, request: Request, stopped: bool, draw: Draw, fuel: nat): (World, Status)
    requires |draw.members| == |request.disks|
  {
    var steps := Steps(w.durable, request, stopped, draw);
    if steps.Refused? then (w, Rejected) else Run(steps.value, w, fuel)
  }

  /** The request activate_pool rebuilds from the five members of the journal it knows. */
  function Rebuilt(j: Journal): Request { j.request.(extra := map[]) }

  const NO_DRAW := Ids("", "", "")

  function IdleDraw(request: Request): (r: Draw)
    ensures |r.members| == |request.disks|
  {
    Draw(seq(|request.disks|, i => NO_DRAW), "")
  }

  /** activate_pool at boot. */
  function Boot(w: World, stopped: bool, fuel: nat): (World, Status) {
    if w.durable.pending.Some? then
      var request := Rebuilt(w.durable.pending.value);
      if !stopped || !ValidRequest(request, w.durable.owner) || request != w.durable.pending.value.requestDigest
      then (w, Rejected)
      else Apply(w, request, stopped, IdleDraw(request), fuel)
    else Run(ACTIVATION, w, fuel)
  }
}
