/**
 apply_request and activate_pool as they run: a guest whose disks, LVM metadata, state file and
 journal are changed in place, one command at a time, until it finishes, refuses or loses power.
 */
module PoolGuest {
  import opened Outcomes
  import opened PoolModel
  import opened PoolSteps
  import opened PoolConverges

  class Guest {
    const owner: string
    const poolDirectoryEmpty: bool
    var disks: map<string, Disk>
    var partitions: seq<Partition>
    var groups: map<string, Group>
    var supply: nat
    var state: Option<State>
    var pending: Option<Journal>
    var serviceInstalled: bool
    var active: bool
    var mount: Option<Mount>
    /** The steps the guest still completes before it loses power. */
    var power: nat

    constructor (d: Durable, v: Volatile, power: nat)
      ensures Snapshot() == World(d, v) && this.power == power
    {
      owner, poolDirectoryEmpty := d.owner, d.poolDirectoryEmpty;
      disks, partitions, groups, supply := d.disks, d.partitions, d.groups, d.supply;
      state, pending, serviceInstalled := d.state, d.pending, d.serviceInstalled;
      active, mount := v.active, v.mount;
      this.power := power;
    }

    function Inspect(): Durable
      reads this
    {
      Durable(owner, disks, partitions, groups, supply, state, pending, serviceInstalled, poolDirectoryEmpty)
    }

    function Snapshot(): World
      reads this
    {
      World(Inspect(), Volatile(active, mount))
    }

    // ------------------------------------------------------------- the tools

    method PartitionDisk(disk: string, uuid: string) returns (ok: bool)
      modifies this
      ensures power == old(power)
      ensures ok == Effect(Command.PartitionDisk(disk, uuid), old(Inspect())).Ok?
      ensures
        var effect := Effect(Command.PartitionDisk(disk, uuid), old(Inspect()));
        Snapshot() == if ok then old(Snapshot()).(durable := effect.value) else old(Snapshot())
    {
      ok := disk in disks;
      if ok {
        var x := disks[disk];
        var content := if x.leftover.Some? then Foreign(x.leftover.value) else Blank;
        partitions := partitions + [Partition(disk, 1, uuid, x.sizeBytes, false, content)];
        disks := disks[disk := x.(signatures := ["gpt"])];
      }
    }

    method GrowPartition(k: nat) returns (ok: bool)
      modifies this
      ensures power == old(power)
      ensures ok == Effect(Command.GrowPartition(k), old(Inspect())).Ok?
      ensures Snapshot() == if ok then
        old(Snapshot()).(durable := Effect(Command.GrowPartition(k), old(Inspect())).value) else old(Snapshot())
    {
      ok := k < |partitions| && partitions[k].disk in disks;
      if ok && partitions[k].sizeBytes < disks[partitions[k].disk].sizeBytes {
        partitions := partitions[k := partitions[k].(sizeBytes := disks[partitions[k].disk].sizeBytes)];
      }
    }

    method CreatePv(k: nat, uuid: string) returns (ok: bool)
      modifies this
      ensures power == old(power)
      ensures ok == Effect(Command.CreatePv(k, uuid), old(Inspect())).Ok?
      ensures Snapshot() == if ok then
        old(Snapshot()).(durable := Effect(Command.CreatePv(k, uuid), old(Inspect())).value) else old(Snapshot())
    {
      ok := k < |partitions| && !(exists p <- partitions :: p.content.Pv? && p.content.uuid == uuid);
      if ok {
        partitions := partitions[k := partitions[k].(content := Pv(uuid, "", partitions[k].sizeBytes))];
      }
    }

    method ResizePv(k: nat) returns (ok: bool)
      modifies this
      ensures power == old(power)
      ensures ok == Effect(Command.ResizePv(k), old(Inspect())).Ok?
      ensures Snapshot() == if ok then old(Snapshot()).(durable := Effect(Command.ResizePv(k), old(Inspect())).value)
        else old(Snapshot())
    {
      ok := k < |partitions| && partitions[k].content.Pv?;
      if ok {
        partitions := partitions[k :=
          partitions[k].(content := partitions[k].content.(sizeBytes := partitions[k].sizeBytes))];
      }
    }

    /** vgcreate and vgextend write the group's name on each physical volume in turn. */
    method JoinGroup(name: string, ks: set<nat>)
      modifies this
      ensures Snapshot() ==
        old(Snapshot()).(durable := old(Inspect()).(partitions := JoinAll(old(partitions), ks, name)))
      ensures power == old(power)
    {
      var i := 0;
      var joined := partitions;
      while i < |partitions|
        invariant 0 <= i <= |partitions| == |joined|
        invariant Snapshot() == old(Snapshot()) && power == old(power)
        invariant forall k :: 0 <= k < |joined| ==>
          joined[k] == if k < i && k in ks then Join(partitions[k], name) else partitions[k]
      {
        if i in ks {
          joined := joined[i := Join(joined[i], name)];
        }
        i := i + 1;
      }
      assert joined == JoinAll(partitions, ks, name);
      partitions := joined;
    }

    method ChangeVolume(group: string, v: Volume)
      requires group in groups
      modifies this
      ensures Snapshot() == old(Snapshot()).(durable := WithVolume(old(Inspect()), group, v))
      ensures power == old(power)
    {
      groups := groups[group := groups[group].(volumes := [v])];
    }

    // ------------------------------------------------- the turns of the member loop

    method PreparePartition(j: Journal, m: Member) returns (status: Status)
      modifies this
      ensures (Snapshot(), status) == Run([Step.PreparePartition(j, m)], old(Snapshot()), old(power))
      ensures status == Done ==> power == old(power) - 1
    {
      hide Run, PlanDevices, Matches;
      RunOne(Step.PreparePartition(j, m), Snapshot(), power);
      if power == 0 { return Crashed; }
      var known := OldMember(j, m);
      if known.Some? {
        var plans := PlanKnown(j, m, known.value, Inspect());
        if plans.Refused? { return Rejected; }
        if m.allocationBytes > known.value.allocationBytes {
          var first := FirstPartition(partitions, plans.value[0].device);
          if first.None? { return Rejected; }
          var grown := GrowPartition(first.value);
          if !grown { return Rejected; }
        }
      } else if Matches(partitions, m.partitionUuid) == [] {
        var plans := PlanDevices(Inspect(), j.request.(disks := [AsDisk(m, true)]), None);
        if plans.Refused? { return Rejected; }
        var partitioned := PartitionDisk(plans.value[0].device, m.partitionUuid);
        if !partitioned { return Rejected; }
      }
      power := power - 1;
      status := Done;
    }

    method PreparePv(j: Journal, m: Member) returns (status: Status)
      modifies this
      ensures (Snapshot(), status) == Run([Step.PreparePv(j, m)], old(Snapshot()), old(power))
      ensures status == Done ==> power == old(power) - 1
    {
      hide Run;
      RunOne(Step.PreparePv(j, m), Snapshot(), power);
      if power == 0 { return Crashed; }
      if OldMember(j, m).None? {
        var located := Locate(Inspect(), m);
        if located.Refused? { return Rejected; }
        var k := located.value;
        var disk := partitions[k].disk;
        if disk !in disks || disks[disk].root || !OnlyPartition(partitions, k) { return Rejected; }
        if disks[disk].sizeBytes < m.allocationBytes || partitions[k].mounted { return Rejected; }
        var labelled := partitions[k].content.Pv? && partitions[k].content.uuid == m.pvUuid;
        if !labelled {
          if partitions[k].content != Blank { return Rejected; }
          var created := CreatePv(k, m.pvUuid);
          if !created { return Rejected; }
        }
      }
      power := power - 1;
      status := Done;
    }

    method FitPv(j: Journal, m: Member) returns (status: Status)
      modifies this
      ensures (Snapshot(), status) == Run([Step.FitPv(j, m)], old(Snapshot()), old(power))
      ensures status == Done ==> power == old(power) - 1
    {
      hide Run;
      RunOne(Step.FitPv(j, m), Snapshot(), power);
      if power == 0 { return Crashed; }
      var located := Locate(Inspect(), m);
      if located.Refused? { return Rejected; }
      var content := partitions[located.value].content;
      if !content.Pv? || content.uuid != m.pvUuid { return Rejected; }
      var resized := ResizePv(located.value);
      if !resized { return Rejected; }
      power := power - 1;
      status := Done;
    }

    method PrepareMember(j: Journal, m: Member) returns (status: Status)
      modifies this
      ensures (Snapshot(), status) ==
        Run([Step.PreparePartition(j, m), Step.PreparePv(j, m), Step.FitPv(j, m)], old(Snapshot()), old(power))
      ensures status == Done ==> power == old(power) - 3
    {
      hide Run;
      ghost var a, b, c: seq<Step> := [Step.PreparePartition(j, m)], [Step.PreparePv(j, m)], [Step.FitPv(j, m)];
      ghost var w, p := Snapshot(), power;
      assert [Step.PreparePartition(j, m), Step.PreparePv(j, m), Step.FitPv(j, m)] == a + (b + c);
      RunSplit(a, b + c, w, p);
      status := PreparePartition(j, m);
      if status != Done { return; }
      RunSplit(b, c, Snapshot(), power);
      status := PreparePv(j, m);
      if status != Done { return; }
      status := FitPv(j, m);
    }

    // ------------------------------------------------------------ after the loop

    method CreateGroup(name: string, tags: set<string>, ks: set<nat>) returns (ok: bool)
      modifies this
      ensures power == old(power)
      ensures ok == Effect(Command.CreateGroup(name, tags, ks), old(Inspect())).Ok?
      ensures
        var effect := Effect(Command.CreateGroup(name, tags, ks), old(Inspect()));
        Snapshot() == if ok then old(Snapshot()).(durable := effect.value) else old(Snapshot())
    {
      ok := name !in groups && GroupMembers(partitions, name) == {} &&
        !(exists k <- ks :: k >= |partitions| || !partitions[k].content.Pv? || partitions[k].content.group != "");
      if ok {
        JoinGroup(name, ks);
        groups := groups[name := Group(supply, tags, [])];
        supply := supply + 1;
      }
    }

    method BuildGroup(j: Journal) returns (status: Status)
      modifies this
      ensures (Snapshot(), status) == Run([Step.BuildGroup(j)], old(Snapshot()), old(power))
      ensures status == Done ==> power == old(power) - 1
    {
      hide Run, SomeoneElses, AllLocated, Additional, Located, JoinAll, JournalGroup, JournalTags;
      RunOne(Step.BuildGroup(j), Snapshot(), power);
      if power == 0 { return Crashed; }
      var name := JournalGroup(j);
      if name !in groups {
        if j.oldState.Some? || !AllLocated(Inspect(), j.members) { return Rejected; }
        var created := CreateGroup(name, JournalTags(j), Located(Inspect(), j.members));
        if !created { return Rejected; }
      } else {
        if !(JournalTags(j) <= groups[name].tags) { return Rejected; }
        if j.oldState.Some? && groups[name].uuid != j.oldState.value.vgUuid { return Rejected; }
        if SomeoneElses(Inspect(), j.members, name) { return Rejected; }
        var additional := Additional(Inspect(), j.members);
        if additional != {} {
          JoinGroup(name, additional);
        }
      }
      power := power - 1;
      status := Done;
    }

    method BuildVolume(j: Journal) returns (status: Status)
      modifies this
      ensures (Snapshot(), status) == Run([Step.BuildVolume(j)], old(Snapshot()), old(power))
      ensures status == Done ==> power == old(power) - 1
    {
      hide Run;
      RunOne(Step.BuildVolume(j), Snapshot(), power);
      if power == 0 { return Crashed; }
      var name := JournalGroup(j);
      if name !in groups { return Rejected; }
      var volumes := groups[name].volumes;
      if volumes == [] {
        var free := FreeBytes(Inspect(), name);
        if j.oldState.Some? || free <= 0 { return Rejected; }
        ChangeVolume(name, Volume(VOLUME_NAME, supply, JournalTags(j), true, free, None));
        supply := supply + 1;
      } else if |volumes| != 1 || volumes[0].name != VOLUME_NAME || !volumes[0].linear ||
        !(JournalTags(j) <= volumes[0].tags) {
        return Rejected;
      }
      power := power - 1;
      status := Done;
    }

    method FillVolume(j: Journal) returns (status: Status)
      modifies this
      ensures (Snapshot(), status) == Run([Step.FillVolume(j)], old(Snapshot()), old(power))
      ensures status == Done ==> power == old(power) - 1
    {
      hide Run;
      RunOne(Step.FillVolume(j), Snapshot(), power);
      if power == 0 { return Crashed; }
      var name := JournalGroup(j);
      if !JournalLvm(j, Inspect()) { return Rejected; }
      var free := FreeBytes(Inspect(), name);
      if free > 0 {
        var v := groups[name].volumes[0];
        ChangeVolume(name, v.(sizeBytes := v.sizeBytes + free));
      }
      power := power - 1;
      status := Done;
    }

    method ActivateBuilt(j: Journal) returns (status: Status)
      modifies this
      ensures (Snapshot(), status) == Run([Step.ActivateBuilt(j)], old(Snapshot()), old(power))
      ensures status == Done ==> power == old(power) - 1
    {
      hide Run;
      RunOne(Step.ActivateBuilt(j), Snapshot(), power);
      if power == 0 { return Crashed; }
      if !OneVolume(Inspect(), JournalGroup(j)) { return Rejected; }
      active := true;
      power := power - 1;
      status := Done;
    }

    method BuildFilesystem(j: Journal) returns (status: Status)
      modifies this
      ensures (Snapshot(), status) == Run([Step.BuildFilesystem(j)], old(Snapshot()), old(power))
      ensures status == Done ==> power == old(power) - 1
    {
      hide Run;
      RunOne(Step.BuildFilesystem(j), Snapshot(), power);
      if power == 0 { return Crashed; }
      var name := JournalGroup(j);
      if !active || !OneVolume(Inspect(), name) { return Rejected; }
      var v := groups[name].volumes[0];
      if v.fs.None? {
        if j.oldState.Some? { return Rejected; }
        ChangeVolume(name, v.(fs := Some(Filesystem("ext4", j.filesystemUuid, v.sizeBytes))));
      } else if v.fs.value.kind != "ext4" || v.fs.value.uuid != j.filesystemUuid {
        return Rejected;
      }
      power := power - 1;
      status := Done;
    }

    method FitFilesystem(j: Journal) returns (status: Status)
      modifies this
      ensures (Snapshot(), status) == Run([Step.FitFilesystem(j)], old(Snapshot()), old(power))
      ensures status == Done ==> power == old(power) - 1
    {
      hide Run;
      RunOne(Step.FitFilesystem(j), Snapshot(), power);
      if power == 0 { return Crashed; }
      var name := JournalGroup(j);
      if !active || !OneVolume(Inspect(), name) || groups[name].volumes[0].fs.None? { return Rejected; }
      var v := groups[name].volumes[0];
      ChangeVolume(name, v.(fs := Some(v.fs.value.(sizeBytes := v.sizeBytes))));
      power := power - 1;
      status := Done;
    }

    method InstallService() returns (status: Status)
      modifies this
      ensures (Snapshot(), status) == Run([Install], old(Snapshot()), old(power))
      ensures status == Done ==> power == old(power) - 1
    {
      hide Run;
      RunOne(Install, Snapshot(), power);
      if power == 0 { return Crashed; }
      serviceInstalled := true;
      power := power - 1;
      status := Done;
    }

    /** The state file is written only now, with each member's disk as the loop found it. */
    method WriteState(j: Journal) returns (status: Status)
      modifies this
      ensures (Snapshot(), status) == Run([Commit(j)], old(Snapshot()), old(power))
      ensures status == Done ==> power == old(power) - 1
    {
      hide Run, Settled;
      RunOne(Commit(j), Snapshot(), power);
      if power == 0 { return Crashed; }
      var name := JournalGroup(j);
      if !OneVolume(Inspect(), name) { return Rejected; }
      var members: seq<Member> := [];
      var i := 0;
      while i < |j.members|
        invariant 0 <= i <= |j.members| && |members| == i
        invariant forall n :: 0 <= n < i ==> members[n] == Settled(Inspect(), j.members[n])
        invariant Snapshot() == old(Snapshot()) && power == old(power)
      {
        members := members + [Settled(Inspect(), j.members[i])];
        i := i + 1;
      }
      assert members == SettledAll(Inspect(), j.members);
      state := Some(State(j.request.deviceId, j.request.poolId, j.request.generation, members, j.filesystemUuid,
                          groups[name].uuid, groups[name].volumes[0].uuid, Some(j.requestDigest),
                          j.oldState.Some? && j.oldState.value.migrationComplete));
      power := power - 1;
      status := Done;
    }

    method BuildLvm(j: Journal) returns (status: Status)
      modifies this
      ensures (Snapshot(), status) ==
        Run([Step.BuildGroup(j)] + ([Step.BuildVolume(j)] + ([Step.FillVolume(j)] + [Step.ActivateBuilt(j)])),
          old(Snapshot()), old(power))
      ensures status == Done ==> power == old(power) - 4
    {
      hide Run, JournalGroup, JournalTags;
      ghost var c := [Step.FillVolume(j)] + [Step.ActivateBuilt(j)];
      ghost var b := [Step.BuildVolume(j)] + c;
      RunSplit([Step.BuildGroup(j)], b, Snapshot(), power);
      status := BuildGroup(j);
      if status != Done { return; }
      RunSplit([Step.BuildVolume(j)], c, Snapshot(), power);
      status := BuildVolume(j);
      if status != Done { return; }
      RunSplit([Step.FillVolume(j)], [Step.ActivateBuilt(j)], Snapshot(), power);
      status := FillVolume(j);
      if status != Done { return; }
      status := ActivateBuilt(j);
    }

    method BuildContents(j: Journal) returns (status: Status)
      modifies this
      ensures (Snapshot(), status) ==
        Run([Step.BuildFilesystem(j)] + ([Step.FitFilesystem(j)] + ([Install] + [Commit(j)])), old(Snapshot()),
          old(power))
      ensures status == Done ==> power == old(power) - 4
    {
      hide Run, JournalGroup, JournalTags;
      ghost var c := [Install] + [Commit(j)];
      ghost var b := [Step.FitFilesystem(j)] + c;
      RunSplit([Step.BuildFilesystem(j)], b, Snapshot(), power);
      status := BuildFilesystem(j);
      if status != Done { return; }
      RunSplit([Step.FitFilesystem(j)], c, Snapshot(), power);
      status := FitFilesystem(j);
      if status != Done { return; }
      RunSplit([Install], [Commit(j)], Snapshot(), power);
      status := InstallService();
      if status != Done { return; }
      status := WriteState(j);
    }

    method BuildPool(j: Journal) returns (status: Status)
      modifies this
      ensures (Snapshot(), status) == Run(BuildSteps(j), old(Snapshot()), old(power))
      ensures status == Done ==> power == old(power) - 8
    {
      hide Run, JournalGroup, JournalTags;
      ghost var a := [Step.BuildGroup(j)] + ([Step.BuildVolume(j)] + ([Step.FillVolume(j)] + [Step.ActivateBuilt(j)]));
      ghost var b := [Step.BuildFilesystem(j)] + ([Step.FitFilesystem(j)] + ([Install] + [Commit(j)]));
      assert BuildSteps(j) == a + b;
      RunSplit(a, b, Snapshot(), power);
      status := BuildLvm(j);
      if status != Done { return; }
      status := BuildContents(j);
    }

    // ---------------------------------------------------------------- activation

    method CheckAndActivate() returns (status: Status)
      modifies this
      ensures (Snapshot(), status) == Run([Step.Activate], old(Snapshot()), old(power))
      ensures status == Done ==> power == old(power) - 1
    {
      hide Run, Activatable;
      RunOne(Step.Activate, Snapshot(), power);
      if power == 0 { return Crashed; }
      if !Activatable(Inspect()) { return Rejected; }
      active := true;
      power := power - 1;
      status := Done;
    }

    method MountAndCheck() returns (status: Status)
      modifies this
      ensures (Snapshot(), status) == Run([AttachMount], old(Snapshot()), old(power))
      ensures status == Done ==> power == old(power) - 1
    {
      hide Run, Mountable;
      RunOne(AttachMount, Snapshot(), power);
      if power == 0 { return Crashed; }
      if state.None? { return Rejected; }
      if mount.None? {
        if !poolDirectoryEmpty || !active || !Mountable(Inspect()) { return Rejected; }
        mount := Some(PoolMount(state.value));
      }
      if mount != Some(PoolMount(state.value)) { return Rejected; }
      power := power - 1;
      status := Done;
    }

    method ActivateSaved() returns (status: Status)
      modifies this
      ensures (Snapshot(), status) == Run(ACTIVATION, old(Snapshot()), old(power))
      ensures status == Done ==> power == old(power) - 2
    {
      hide Run;
      assert ACTIVATION == [Step.Activate] + [AttachMount];
      RunSplit([Step.Activate], [AttachMount], Snapshot(), power);
      status := CheckAndActivate();
      if status != Done { return; }
      status := MountAndCheck();
    }

    method DropJournal() returns (status: Status)
      modifies this
      ensures (Snapshot(), status) == Run([Finish], old(Snapshot()), old(power))
      ensures status == Done ==> power == old(power) - 1
    {
      hide Run;
      RunOne(Finish, Snapshot(), power);
      if power == 0 { return Crashed; }
      pending := None;
      power := power - 1;
      status := Done;
    }

    // -------------------------------------------------------------- entry points

    /** The steps of a journal, from the loop over its members to the removal of the file. */
    method CarryOut(j: Journal) returns (status: Status)
      modifies this
      ensures (Snapshot(), status) == Run(Program(j), old(Snapshot()), old(power))
    {
      hide Run;
      ghost var w, p := Snapshot(), power;
      var i := 0;
      ghost var tail := BuildSteps(j) + ACTIVATION + [Finish];
      assert MemberSteps(j, j.members[..0]) == [];
      RunNothing(w, p);
      while i < |j.members|
        invariant 0 <= i <= |j.members|
        invariant Run(MemberSteps(j, j.members[..i]), w, p) == (Snapshot(), Done)
        invariant power == p - 3 * i
      {
        var m := j.members[i];
        ghost var steps: seq<Step> := [Step.PreparePartition(j, m), Step.PreparePv(j, m), Step.FitPv(j, m)];
        MemberStepsPrefix(j, i);
        MemberStepsLength(j, i);
        ghost var rest := MemberSteps(j, j.members)[3 * (i + 1)..] + tail;
        RunSplit(MemberSteps(j, j.members[..i]), steps, w, p);
        RunSplit(MemberSteps(j, j.members[..i + 1]), rest, w, p);
        assert Program(j) == MemberSteps(j, j.members[..i + 1]) + rest;
        status := PrepareMember(j, m);
        if status != Done { return; }
        i := i + 1;
      }
      assert j.members[..i] == j.members;
      assert Program(j) == MemberSteps(j, j.members) + tail;
      RunSplit(MemberSteps(j, j.members), tail, w, p);
      assert tail == BuildSteps(j) + (ACTIVATION + [Finish]);
      RunSplit(BuildSteps(j), ACTIVATION + [Finish], Snapshot(), power);
      status := BuildPool(j);
      if status != Done { return; }
      RunSplit(ACTIVATION, [Finish], Snapshot(), power);
      status := ActivateSaved();
      if status != Done { return; }
      status := DropJournal();
    }

    method ApplyRequest(request: Request, stopped: bool, draw: Draw) returns (status: Status)
      requires |draw.members| == |request.disks|
      modifies this
      ensures (Snapshot(), status) == Apply(old(Snapshot()), request, stopped, draw, old(power))
    {
      hide Run, ValidRequest, ValidState, PlanDevices;
      if !ValidRequest(request, owner) || !stopped { return Rejected; }
      if state.Some? && !ValidState(state.value, owner) { return Rejected; }
      var applied := state.Some? && state.value.applied == Some(request);
      if pending.Some? {
        var j := pending.value;
        if j.requestDigest != request || j.request.deviceId != owner { return Rejected; }
        if applied {
          assert [Install] + ACTIVATION + [Finish] == [Install] + (ACTIVATION + [Finish]);
          RunSplit([Install], ACTIVATION + [Finish], Snapshot(), power);
          status := InstallService();
          if status != Done { return; }
          RunSplit(ACTIVATION, [Finish], Snapshot(), power);
          status := ActivateSaved();
          if status != Done { return; }
          status := DropJournal();
        } else {
          status := CarryOut(j);
        }
      } else if applied {
        RunSplit([Install], ACTIVATION, Snapshot(), power);
        status := InstallService();
        if status != Done { return; }
        status := ActivateSaved();
      } else {
        var plans := PlanDevices(Inspect(), request, state);
        if plans.Refused? { return Rejected; }
        var j := NewJournal(Inspect(), request, plans.value, draw);
        RunFirst(SaveJournal(j), Program(j), Snapshot(), power);
        if power == 0 { return Crashed; }
        pending := Some(j);
        power := power - 1;
        status := CarryOut(j);
      }
    }

    method ActivatePool(stopped: bool) returns (status: Status)
      modifies this
      ensures (Snapshot(), status) == Boot(old(Snapshot()), stopped, old(power))
    {
      hide Run, ValidRequest, ValidState, PlanDevices;
      if pending.Some? {
        var request := Rebuilt(pending.value);
        if !stopped || !ValidRequest(request, owner) || request != pending.value.requestDigest { return Rejected; }
        status := ApplyRequest(request, stopped, IdleDraw(request));
      } else {
        status := ActivateSaved();
      }
    }
  }

  lemma RunOne(s: Step, w: World, fuel: nat)
    ensures Run([s], w, fuel) ==
      if fuel == 0 then (w, Crashed)
      else if Perform(s, w).Refused? then (w, Rejected)
      else (Perform(s, w).value, Done)
  {
    hide Perform;
    assert [s] + [] == [s];
    RunFirst(s, [], w, fuel);
  }

  lemma RunNothing(w: World, fuel: nat)
    ensures Run([], w, fuel) == (w, Done)
  {
  }

  lemma MemberStepsPrefix(j: Journal, i: nat)
    requires i < |j.members|
    ensures
      var m := j.members[i];
      MemberSteps(j, j.members[..i + 1]) ==
      MemberSteps(j, j.members[..i]) + [Step.PreparePartition(j, m), Step.PreparePv(j, m), Step.FitPv(j, m)]
  {
    assert j.members[..i + 1][..i] == j.members[..i];
  }

  lemma {:induction false} MemberStepsLength(j: Journal, i: nat)
    requires i < |j.members|
    ensures MemberSteps(j, j.members) == MemberSteps(j, j.members[..i + 1]) + MemberSteps(j, j.members)[3 * (i + 1)..]
  {
    MemberStepsTake(j, j.members, i + 1);
  }

  lemma {:induction false} MemberStepsTake(j: Journal, members: seq<Member>, n: nat)
    requires n <= |members|
    ensures MemberSteps(j, members)[..3 * n] == MemberSteps(j, members[..n])
  {
    if n < |members| {
      var last := |members| - 1;
      MemberStepsTake(j, members[..last], n);
      assert members[..last][..n] == members[..n];
    } else {
      assert members[..n] == members;
    }
  }
}
