/** A run of the journal's steps, cut after any step and started over, reaches the same disks. */
module PoolResume {
  import opened Outcomes
  import opened PoolModel
  import opened PoolSteps
  import opened PoolConvergence
  import opened PoolBuild

  /** Every step up to and including the write of the state file. */
  function Prepare(j: Journal): (r: seq<Step>)
    ensures |r| == 3 * |j.members| + 8
  {
    MemberSteps(j, j.members) + BuildSteps(j)
  }

  lemma {:induction false} MemberStepAt(j: Journal, members: seq<Member>, n: nat)
    requires n < 3 * |members|
    ensures
      MemberSteps(j, members)[n] ==
      var m := members[n / 3];
      if n % 3 == 0 then PreparePartition(j, m) else if n % 3 == 1 then PreparePv(j, m) else FitPv(j, m)
  {
    var last := |members| - 1;
    if n < 3 * last {
      MemberStepAt(j, members[..last], n);
    }
  }

  ghost predicate PartlyReady(j: Journal, m: Member, r: nat, d: Durable) {
    && (r > 0 ==> Settle(PreparePartition(j, m), d) == Ok(d))
    && (r > 1 ==> Settle(PreparePv(j, m), d) == Ok(d))
  }

  /** The first n steps of Prepare are done. */
  ghost predicate Ready(j: Journal, n: nat, d: Durable)
    requires n <= |Prepare(j)|
  {
    var count := 3 * |j.members|;
    if n < count then MembersReady(j, j.members[..n / 3], d) && PartlyReady(j, j.members[n / 3], n % 3, d)
    else MembersReady(j, j.members, d) && Built(j, n - count, d)
  }

  lemma EarlierStay(j: Journal, i: nat, d: Durable, e: Durable)
    requires i < |j.members| && Sound(d, j)
    requires MembersReady(j, j.members[..i], d) && MemberFrame(d, e, j.members[i].partitionUuid)
    ensures MembersReady(j, j.members[..i], e)
  {
    var m := j.members[i];
    forall n <- j.members[..i]
      ensures Settle(PreparePartition(j, n), e) == Ok(e) && Settle(PreparePv(j, n), e) == Ok(e)
      ensures Settle(FitPv(j, n), e) == Ok(e)
    {
      var k :| 0 <= k < i && j.members[k] == n;
      OtherPartitionStays(j, n, m, d, e);
      OtherPvStays(j, n, m, d, e);
      OtherFitStays(j, n, m, d, e);
    }
  }

  lemma OwnStepReady(j: Journal, m: Member, r: nat, s: Step, d: Durable, e: Durable)
    requires KeepsIdentities(j) && m in j.members && r < 3
    requires s == if r == 0 then PreparePartition(j, m) else if r == 1 then PreparePv(j, m) else FitPv(j, m)
    requires PartlyReady(j, m, r, d) && Settle(s, d) == Ok(e)
    ensures PartlyReady(j, m, r + 1, e)
    ensures r == 2 ==> Settle(FitPv(j, m), e) == Ok(e)
  {
    if r == 0 {
      PartitionDone(j, m, d, e);
    } else if r == 1 {
      PvDone(j, m, d, e);
    } else {
      FitDone(j, m, d, e);
    }
  }

  lemma MemberStepReady(j: Journal, n: nat, d: Durable, e: Durable)
    requires n < 3 * |j.members| && Ready(j, n, d) && Sound(d, j)
    requires Settle(MemberSteps(j, j.members)[n], d) == Ok(e)
    ensures Ready(j, n + 1, e) && Sound(e, j)
  {
    var i, r := n / 3, n % 3;
    var m := j.members[i];
    MemberStepAt(j, j.members, n);
    MemberStepFrame(MemberSteps(j, j.members)[n], j, m, d, e);
    EarlierStay(j, i, d, e);
    OwnStepReady(j, m, r, MemberSteps(j, j.members)[n], d, e);
    MemberReady(j, n, e);
  }

  lemma MemberReady(j: Journal, n: nat, e: Durable)
    requires n < 3 * |j.members|
    requires MembersReady(j, j.members[..n / 3], e) && PartlyReady(j, j.members[n / 3], n % 3 + 1, e)
    requires n % 3 == 2 ==> Settle(FitPv(j, j.members[n / 3]), e) == Ok(e)
    ensures Ready(j, n + 1, e)
  {
    var i := n / 3;
    if n % 3 < 2 {
      assert (n + 1) / 3 == i && (n + 1) % 3 == n % 3 + 1;
    } else {
      assert (n + 1) / 3 == i + 1 && (n + 1) % 3 == 0;
      assert j.members[..i + 1] == j.members[..i] + [j.members[i]];
      assert i + 1 == |j.members| ==> j.members[..i + 1] == j.members;
    }
  }

  lemma StepReady(j: Journal, n: nat, d: Durable, e: Durable)
    requires n < |Prepare(j)| && Ready(j, n, d) && Sound(d, j)
    requires Settle(Prepare(j)[n], d) == Ok(e)
    ensures Ready(j, n + 1, e) && Sound(e, j)
  {
    hide Settle, Sound, Built, MembersReady, PartlyReady;
    var count := 3 * |j.members|;
    if n < count {
      assert Prepare(j)[n] == MemberSteps(j, j.members)[n];
      MemberStepReady(j, n, d, e);
    } else {
      assert Prepare(j)[n] == BuildSteps(j)[n - count];
      BuildDone(j, n - count, d, e);
    }
  }

  lemma ReadyAt(j: Journal, n: nat, i: nat, d: Durable)
    requires i < n <= |Prepare(j)| && i < 3 * |j.members| && Ready(j, n, d)
    ensures Settle(Prepare(j)[i], d) == Ok(d)
  {
    hide Settle, Built;
    MemberStepAt(j, j.members, i);
    var m := j.members[i / 3];
    if i / 3 < n / 3 {
      assert m in j.members;
      if n < 3 * |j.members| {
        assert m in j.members[..n / 3];
      }
    }
  }

  lemma ReadyQuiet(j: Journal, n: nat, d: Durable)
    requires n <= |Prepare(j)| && Ready(j, n, d)
    ensures Quiet(Prepare(j)[..n], d)
  {
    hide Settle, Built, MembersReady, PartlyReady;
    var count := 3 * |j.members|;
    forall i | 0 <= i < n
      ensures Settle(Prepare(j)[i], d) == Ok(d)
    {
      if i < count {
        ReadyAt(j, n, i, d);
      } else {
        BuiltQuiet(j, n - count, d);
        assert Prepare(j)[i] == BuildSteps(j)[..n - count][i - count];
      }
    }
  }

  lemma NothingReady(j: Journal, d: Durable)
    ensures Ready(j, 0, d)
  {
  }

  /** Whatever prefix a run completed, it left every step of that prefix a no-op. */
  lemma {:induction false} WalkReady(j: Journal, n: nat, d: Durable)
    requires n <= |Prepare(j)| && Sound(d, j)
    requires Walk(Prepare(j)[..n], d).1
    ensures Ready(j, n, Walk(Prepare(j)[..n], d).0) && Sound(Walk(Prepare(j)[..n], d).0, j)
  {
    hide Settle, Prepare, Sound;
    if n == 0 {
      NothingReady(j, d);
    } else {
      var before := Prepare(j)[..n - 1];
      assert Prepare(j)[..n] == before + [Prepare(j)[n - 1]];
      WalkSplit(before, [Prepare(j)[n - 1]], d);
      WalkReady(j, n - 1, d);
      var x := Walk(before, d).0;
      assert [Prepare(j)[n - 1]][1..] == [];
      StepReady(j, n - 1, x, Settle(Prepare(j)[n - 1], x).value);
    }
  }

  /** Starting over from the world a cut run left behind ends exactly where the uncut run ends. */
  lemma WalkResumes(j: Journal, n: nat, rest: seq<Step>, d: Durable)
    requires n <= |Prepare(j)| && Sound(d, j)
    requires Walk(Prepare(j)[..n], d).1
    ensures Walk(Prepare(j) + rest, Walk(Prepare(j)[..n], d).0) == Walk(Prepare(j) + rest, d)
  {
    var e := Walk(Prepare(j)[..n], d).0;
    var tail := Prepare(j)[n..] + rest;
    assert Prepare(j) + rest == Prepare(j)[..n] + tail;
    WalkReady(j, n, d);
    ReadyQuiet(j, n, e);
    WalkQuiet(Prepare(j)[..n], e);
    WalkSplit(Prepare(j)[..n], tail, e);
    WalkSplit(Prepare(j)[..n], tail, d);
  }
}
