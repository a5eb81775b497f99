/** The steps after the members are ready: group, volume, filesystem, service, state file. */
module PoolBuild {
  import opened Outcomes
  import opened PoolModel
  import opened PoolSteps
  import opened PoolConvergence

  ghost predicate MembersReady(j: Journal, members: seq<Member>, d: Durable) {
    forall m <- members ::
      Settle(PreparePartition(j, m), d) == Ok(d) &&
      Settle(PreparePv(j, m), d) == Ok(d) &&
      Settle(FitPv(j, m), d) == Ok(d)
  }

  ghost predicate SameSizes(d: Durable, e: Durable) {
    LabelsOnly(d, e) &&
    forall k :: 0 <= k < |d.partitions| && d.partitions[k].content.Pv? ==>
      e.partitions[k].content.sizeBytes == d.partitions[k].content.sizeBytes
  }

  lemma MembersKeep(j: Journal, members: seq<Member>, d: Durable, e: Durable)
    requires KeepsIdentities(j) && (forall m <- members :: m in j.members)
    requires MembersReady(j, members, d) && SameSizes(d, e)
    ensures MembersReady(j, members, e)
  {
    forall m <- members
      ensures Settle(PreparePartition(j, m), e) == Ok(e) && Settle(PreparePv(j, m), e) == Ok(e)
      ensures Settle(FitPv(j, m), e) == Ok(e)
    {
      LabelsKeepPartition(j, m, d, e);
      LabelsKeepPv(j, m, d, e);
      LabelsKeepFit(j, m, d, e);
    }
  }

  /** A ready member's partition is found and carries its journaled physical volume. */
  lemma ReadyMember(j: Journal, m: Member, d: Durable)
    requires Settle(FitPv(j, m), d) == Ok(d)
    ensures Locate(d, m).Ok? && d.partitions[Locate(d, m).value].content.Pv?
    ensures d.partitions[Locate(d, m).value].content.uuid == m.pvUuid
  {
  }

  /** By uniqueness, a physical volume with a member's uuid is the located one. */
  lemma ReadyOnly(j: Journal, d: Durable, k: nat)
    requires PvUnique(d.partitions) && MembersReady(j, j.members, d)
    requires k < |d.partitions| && d.partitions[k].content.Pv? && d.partitions[k].content.uuid in MemberPvs(j.members)
    ensures k in Located(d, j.members)
  {
    var m :| m in j.members && m.pvUuid == d.partitions[k].content.uuid;
    ReadyMember(j, m, d);
    assert Locate(d, m).value == k;
  }

  lemma LocatedExpected(j: Journal, d: Durable, k: nat)
    requires MembersReady(j, j.members, d) && k in Located(d, j.members)
    ensures k < |d.partitions| && d.partitions[k].content.Pv? && d.partitions[k].content.uuid in MemberPvs(j.members)
  {
    var m :| m in j.members && Locate(d, m).Ok? && Locate(d, m).value == k;
    ReadyMember(j, m, d);
  }

  lemma JoinKeeps(d: Durable, e: Durable, ks: set<nat>, name: string)
    requires e.disks == d.disks && e.partitions == JoinAll(d.partitions, ks, name)
    ensures SameSizes(d, e)
    ensures PvUnique(d.partitions) ==> PvUnique(e.partitions)
  {
  }

  /** What the group step establishes, in terms of the partitions. */
  ghost predicate GroupSettled(j: Journal, d: Durable) {
    var name := JournalGroup(j);
    && name in d.groups
    && JournalTags(j) <= d.groups[name].tags
    && (j.oldState.Some? ==> d.groups[name].uuid == j.oldState.value.vgUuid)
    && forall k :: 0 <= k < |d.partitions| && d.partitions[k].content.Pv? ==>
         (d.partitions[k].content.group == name <==> d.partitions[k].content.uuid in MemberPvs(j.members))
  }

  /** The group's name is never the empty string LVM reports for a free physical volume. */
  lemma NamedGroup(j: Journal)
    ensures JournalGroup(j) != ""
  {
    assert |JournalGroup(j)| >= 3;
  }

  lemma GroupSettledQuiet(j: Journal, d: Durable)
    requires GroupSettled(j, d)
    ensures Settle(BuildGroup(j), d) == Ok(d)
  {
    NamedGroup(j);
    var name := JournalGroup(j);
    forall p <- d.partitions | p.content.Pv?
      ensures p.content.uuid in MemberPvs(j.members) <==> p.content.group == name
    {
      var k :| 0 <= k < |d.partitions| && d.partitions[k] == p;
    }
    assert !SomeoneElses(d, j.members, name);
    assert Additional(d, j.members) == {};
  }

  lemma GroupNothingSettled(j: Journal, d: Durable)
    requires DecideGroup(j, d) == Ok(Nothing)
    ensures GroupSettled(j, d)
  {
    NamedGroup(j);
    var name := JournalGroup(j);
    forall k | 0 <= k < |d.partitions| && d.partitions[k].content.Pv?
      ensures d.partitions[k].content.group == name <==> d.partitions[k].content.uuid in MemberPvs(j.members)
    {
      assert d.partitions[k] in d.partitions;
      assert k !in Additional(d, j.members);
    }
  }

  lemma NotInGroup(partitions: seq<Partition>, name: string, k: nat)
    requires GroupMembers(partitions, name) == {} && k < |partitions|
    ensures partitions[k].content.Pv? ==> partitions[k].content.group != name
  {
    var p := partitions[k];
    if p.content.Pv? {
      var uuid := p.content.uuid;
      assert p.content.group == name ==> uuid in GroupMembers(partitions, name);
    }
  }

  lemma CreatedGroup(j: Journal, d: Durable, e: Durable, k: nat)
    requires Sound(d, j) && MembersReady(j, j.members, d)
    requires Effect(CreateGroup(JournalGroup(j), JournalTags(j), Located(d, j.members)), d) == Ok(e)
    requires k < |e.partitions| && e.partitions[k].content.Pv?
    ensures e.partitions[k].content.group == JournalGroup(j) <==> e.partitions[k].content.uuid in MemberPvs(j.members)
  {
    assert d.partitions[k] in d.partitions;
    NotInGroup(d.partitions, JournalGroup(j), k);
    if k in Located(d, j.members) {
      LocatedExpected(j, d, k);
    } else if e.partitions[k].content.uuid in MemberPvs(j.members) {
      ReadyOnly(j, d, k);
    }
  }

  lemma ExtendedGroup(j: Journal, d: Durable, e: Durable, k: nat)
    requires !SomeoneElses(d, j.members, JournalGroup(j))
    requires Effect(ExtendGroup(JournalGroup(j), Additional(d, j.members)), d) == Ok(e)
    requires k < |e.partitions| && e.partitions[k].content.Pv?
    ensures e.partitions[k].content.group == JournalGroup(j) <==> e.partitions[k].content.uuid in MemberPvs(j.members)
  {
    NamedGroup(j);
    assert d.partitions[k] in d.partitions;
    assert k in Additional(d, j.members) <==>
      d.partitions[k].content.uuid in MemberPvs(j.members) && d.partitions[k].content.group == "";
  }

  lemma GroupEffect(j: Journal, d: Durable, e: Durable)
    requires Settle(BuildGroup(j), d) == Ok(e)
    ensures DecideGroup(j, d).Ok? && Effect(DecideGroup(j, d).value, d) == Ok(e)
    ensures
      var c := DecideGroup(j, d).value;
      || (c == Nothing && e == d)
      || (c == CreateGroup(JournalGroup(j), JournalTags(j), Located(d, j.members)) &&
          e.disks == d.disks && e.partitions == JoinAll(d.partitions, c.ks, JournalGroup(j)))
      || (c == ExtendGroup(JournalGroup(j), Additional(d, j.members)) &&
          e.disks == d.disks && e.partitions == JoinAll(d.partitions, c.ks, JournalGroup(j)))
  {
  }

  lemma GroupDone(j: Journal, d: Durable, e: Durable)
    requires Sound(d, j) && MembersReady(j, j.members, d)
    requires Settle(BuildGroup(j), d) == Ok(e)
    ensures Sound(e, j) && MembersReady(j, j.members, e) && GroupSettled(j, e)
  {
    GroupEffect(j, d, e);
    var c := DecideGroup(j, d).value;
    if c.Nothing? {
      GroupNothingSettled(j, d);
    } else {
      JoinKeeps(d, e, c.ks, JournalGroup(j));
      JoinSeparate(d, e, j);
      MembersKeep(j, j.members, d, e);
      JoinedSettled(j, c, d, e);
    }
  }

  lemma JoinSeparate(d: Durable, e: Durable, j: Journal)
    requires Separate(d.partitions, j.members) && LabelsOnly(d, e)
    ensures Separate(e.partitions, j.members)
  {
  }

  lemma JoinedSettled(j: Journal, c: Command, d: Durable, e: Durable)
    requires Sound(d, j) && MembersReady(j, j.members, d)
    requires DecideGroup(j, d) == Ok(c) && Effect(c, d) == Ok(e) && !c.Nothing?
    ensures GroupSettled(j, e)
  {
    forall k | 0 <= k < |e.partitions| && e.partitions[k].content.Pv?
      ensures e.partitions[k].content.group == JournalGroup(j) <==> e.partitions[k].content.uuid in MemberPvs(j.members)
    {
      if c.CreateGroup? {
        CreatedGroup(j, d, e, k);
      } else {
        ExtendedGroup(j, d, e, k);
      }
    }
  }

  // --------------------------------------------------- the steps of the build

  /** All build steps before the n-th are done. */
  ghost predicate Built(j: Journal, n: nat, d: Durable)
    requires n <= |BuildSteps(j)|
  {
    var name := JournalGroup(j);
    && (n > 0 ==> GroupSettled(j, d))
    && (n > 1 ==> DecideVolume(j, d) == Ok(Nothing))
    && (n > 2 ==> JournalLvm(j, d) && FreeBytes(d, name) <= 0)
    && (n > 4 ==> DecideFilesystem(j, d) == Ok(Nothing))
    && (n > 5 ==> Settle(FitFilesystem(j), d) == Ok(d))
    && (n > 6 ==> d.serviceInstalled)
    && (n > 7 ==> OneVolume(d, name) && d.state == Some(NextState(j, d)))
  }

  lemma BuiltAt(j: Journal, n: nat, i: nat, d: Durable)
    requires i < n <= |BuildSteps(j)| && Built(j, n, d)
    ensures Settle(BuildSteps(j)[i], d) == Ok(d)
  {
    if i == 0 {
      GroupSettledQuiet(j, d);
    } else if i == 3 {
      MappedQuiet(j, d);
    } else if i == 7 {
      CommitQuiet(j, d);
    }
  }

  lemma MappedQuiet(j: Journal, d: Durable)
    requires JournalLvm(j, d)
    ensures Settle(BuildSteps(j)[3], d) == Ok(d)
  {
  }

  lemma CommitQuiet(j: Journal, d: Durable)
    requires OneVolume(d, JournalGroup(j)) && d.state == Some(NextState(j, d))
    ensures Settle(BuildSteps(j)[7], d) == Ok(d)
  {
  }

  lemma BuiltQuiet(j: Journal, n: nat, d: Durable)
    requires n <= |BuildSteps(j)| && Built(j, n, d)
    ensures Quiet(BuildSteps(j)[..n], d)
  {
    hide Settle, Built;
    forall s | s in BuildSteps(j)[..n]
      ensures Settle(s, d) == Ok(d)
    {
      var i :| 0 <= i < n && BuildSteps(j)[i] == s;
      BuiltAt(j, n, i, d);
    }
  }

  /** The pool's single volume, changed in size or filesystem only. */
  ghost predicate SameVolume(d: Durable, e: Durable, name: string) {
    && OneVolume(d, name) && OneVolume(e, name)
    && e == d.(groups := e.groups)
    && e.groups[name] == d.groups[name].(volumes := e.groups[name].volumes)
    && e.groups[name].volumes[0] == d.groups[name].volumes[0].(sizeBytes := e.groups[name].volumes[0].sizeBytes,
                                                               fs := e.groups[name].volumes[0].fs)
  }

  lemma SameVolumeKeeps(j: Journal, d: Durable, e: Durable)
    requires SameVolume(d, e, JournalGroup(j))
    ensures GroupSettled(j, d) ==> GroupSettled(j, e)
    ensures DecideVolume(j, d) == Ok(Nothing) ==> DecideVolume(j, e) == Ok(Nothing)
    ensures JournalLvm(j, d) ==> JournalLvm(j, e)
  {
  }

  lemma SameVolumeFree(d: Durable, e: Durable, name: string)
    requires SameVolume(d, e, name)
    ensures FreeBytes(e, name) + e.groups[name].volumes[0].sizeBytes ==
            FreeBytes(d, name) + d.groups[name].volumes[0].sizeBytes
  {
    OneVolumeBytes(d.groups[name].volumes);
    OneVolumeBytes(e.groups[name].volumes);
  }

  lemma OneVolumeBytes(volumes: seq<Volume>)
    requires |volumes| == 1
    ensures VolumeBytes(volumes) == volumes[0].sizeBytes
  {
    assert volumes[1..] == [];
  }

  lemma VolumeDone(j: Journal, d: Durable, e: Durable)
    requires GroupSettled(j, d) && Settle(BuildVolume(j), d) == Ok(e)
    ensures Built(j, 2, e) && e.partitions == d.partitions && e.disks == d.disks
  {
  }

  lemma FillDone(j: Journal, d: Durable, e: Durable)
    requires Built(j, 2, d) && Settle(FillVolume(j), d) == Ok(e)
    ensures Built(j, 3, e) && e.partitions == d.partitions && e.disks == d.disks
  {
    if DecideFill(j, d) != Ok(Nothing) {
      SameVolumeKeeps(j, d, e);
      SameVolumeFree(d, e, JournalGroup(j));
    }
  }

  lemma FilesystemDone(j: Journal, d: Durable, e: Durable)
    requires Built(j, 4, d) && Settle(BuildFilesystem(j), d) == Ok(e)
    ensures Built(j, 5, e) && e.partitions == d.partitions && e.disks == d.disks
  {
    if DecideFilesystem(j, d) != Ok(Nothing) {
      SameVolumeKeeps(j, d, e);
      SameVolumeFree(d, e, JournalGroup(j));
    }
  }

  lemma FitFilesystemDone(j: Journal, d: Durable, e: Durable)
    requires Built(j, 5, d) && Settle(FitFilesystem(j), d) == Ok(e)
    ensures Built(j, 6, e) && e.partitions == d.partitions && e.disks == d.disks
  {
    var name := JournalGroup(j);
    assert SameVolume(d, e, name);
    SameVolumeKeeps(j, d, e);
    SameVolumeFree(d, e, name);
    assert DecideFilesystem(j, e) == Ok(Nothing);
    FittedQuiet(j, e);
  }

  lemma FittedQuiet(j: Journal, e: Durable)
    requires OneVolume(e, JournalGroup(j))
    requires
      var v := e.groups[JournalGroup(j)].volumes[0];
      v.fs.Some? && v.fs.value.sizeBytes == v.sizeBytes
    ensures Settle(FitFilesystem(j), e) == Ok(e)
  {
    var name := JournalGroup(j);
    var v := e.groups[name].volumes[0];
    assert e.groups[name].volumes == [v];
    assert e.groups[name := e.groups[name].(volumes := [v])] == e.groups;
  }

  lemma BuildDone(j: Journal, n: nat, d: Durable, e: Durable)
    requires n < |BuildSteps(j)| && Built(j, n, d)
    requires Sound(d, j) && MembersReady(j, j.members, d)
    requires Settle(BuildSteps(j)[n], d) == Ok(e)
    ensures Built(j, n + 1, e) && Sound(e, j) && MembersReady(j, j.members, e)
  {
    if n == 0 {
      GroupDone(j, d, e);
    } else {
      if n == 1 {
        VolumeDone(j, d, e);
      } else if n == 2 {
        FillDone(j, d, e);
      } else if n == 4 {
        FilesystemDone(j, d, e);
      } else if n == 5 {
        FitFilesystemDone(j, d, e);
      } else {
        OtherDone(j, n, d, e);
      }
      MembersKeep(j, j.members, d, e);
    }
  }

  lemma FilesKeep(j: Journal, d: Durable, e: Durable)
    requires Built(j, 6, d)
    requires e == d.(serviceInstalled := e.serviceInstalled, state := e.state)
    ensures Built(j, 6, e)
  {
    var name := JournalGroup(j);
    assert DecideVolume(j, e) == DecideVolume(j, d);
    assert FreeBytes(e, name) == FreeBytes(d, name);
    assert JournalLvm(j, e);
    assert DecideFilesystem(j, e) == DecideFilesystem(j, d);
    FittedSize(j, d);
    FittedQuiet(j, e);
  }

  lemma FittedSize(j: Journal, d: Durable)
    requires Settle(FitFilesystem(j), d) == Ok(d)
    ensures OneVolume(d, JournalGroup(j))
    ensures
      var v := d.groups[JournalGroup(j)].volumes[0];
      v.fs.Some? && v.fs.value.sizeBytes == v.sizeBytes
  {
    var name := JournalGroup(j);
    assert d.groups[name] == WithVolume(d, name, d.groups[name].volumes[0].(fs :=
      Some(d.groups[name].volumes[0].fs.value.(sizeBytes := d.groups[name].volumes[0].sizeBytes)))).groups[name];
  }

  lemma CommitDone(j: Journal, d: Durable, e: Durable)
    requires Built(j, 7, d) && Settle(Commit(j), d) == Ok(e)
    ensures Built(j, 8, e)
  {
    hide GroupSettled, DecideVolume, DecideFilesystem, JournalLvm;
    FilesKeep(j, d, e);
    assert SettledAll(e, j.members) == SettledAll(d, j.members);
    assert NextState(j, e) == NextState(j, d);
  }

  lemma SettleDone(j: Journal, d: Durable, e: Durable)
    requires Built(j, 3, d) && Settle(BuildSteps(j)[3], d) == Ok(e)
    ensures Built(j, 4, e) && e.partitions == d.partitions && e.disks == d.disks
  {
    hide GroupSettled, DecideVolume, JournalLvm;
  }

  lemma InstallDone(j: Journal, d: Durable, e: Durable)
    requires Built(j, 6, d) && Settle(BuildSteps(j)[6], d) == Ok(e)
    ensures Built(j, 7, e) && e.partitions == d.partitions && e.disks == d.disks
  {
    hide GroupSettled, DecideVolume, DecideFilesystem, JournalLvm;
    FilesKeep(j, d, e);
  }

  lemma CommitFiles(j: Journal, d: Durable, e: Durable)
    requires Settle(BuildSteps(j)[7], d) == Ok(e)
    ensures e.partitions == d.partitions && e.disks == d.disks
  {
    hide NextState, OneVolume;
  }

  lemma OtherDone(j: Journal, n: nat, d: Durable, e: Durable)
    requires (n == 3 || n == 6 || n == 7) && Built(j, n, d)
    requires Settle(BuildSteps(j)[n], d) == Ok(e)
    ensures Built(j, n + 1, e) && e.partitions == d.partitions && e.disks == d.disks
  {
    if n == 3 {
      SettleDone(j, d, e);
    } else if n == 6 {
      InstallDone(j, d, e);
    } else {
      CommitDone(j, d, e);
      CommitFiles(j, d, e);
    }
  }
}
