/**
 Crash convergence of the storage pool: however often apply_request is cut short, and
 whether it is re-run directly or by activate_pool at boot, the pool ends the same.
 */
module PoolConverges {
  import opened Outcomes
  import opened PoolModel
  import opened PoolSteps
  import opened PoolConvergence
  import opened PoolBuild
  import opened PoolResume

  // ------------------------------------------------------- runs against walks

  lemma {:induction false} RunSplit(a: seq<Step>, b: seq<Step>, w: World, fuel: nat)
    ensures Run(a, w, fuel).1 == Done ==> |a| <= fuel
    ensures Run(a + b, w, fuel) ==
      var (x, s) := Run(a, w, fuel);
      if s == Done then Run(b, x, fuel - |a|) else (x, s)
  {
    hide Perform;
    if a == [] {
      assert a + b == b;
    } else if fuel > 0 {
      assert (a + b)[1..] == a[1..] + b;
      var next := Perform(a[0], w);
      if next.Ok? {
        RunSplit(a[1..], b, next.value, fuel - 1);
      }
    }
  }

  /** The volume is active whenever a step needs it, and nothing is mounted yet. */
  ghost predicate Ordered(steps: seq<Step>, active: bool) {
    steps == [] ||
    match steps[0]
    case ActivateBuilt(_) => Ordered(steps[1..], true)
    case BuildFilesystem(_) => active && Ordered(steps[1..], active)
    case FitFilesystem(_) => active && Ordered(steps[1..], active)
    case Activate => false
    case AttachMount => false
    case _ => Ordered(steps[1..], active)
  }

  lemma {:induction false} OrderedPrepend(a: seq<Step>, b: seq<Step>, active: bool)
    requires forall s <- a :: s.PreparePartition? || s.PreparePv? || s.FitPv?
    requires Ordered(b, active)
    ensures Ordered(a + b, active)
  {
    if a == [] {
      assert a + b == b;
    } else {
      assert (a + b)[1..] == a[1..] + b && a[0] in a;
      OrderedPrepend(a[1..], b, active);
    }
  }

  lemma OrderedPrepare(j: Journal, active: bool)
    ensures Ordered(Prepare(j), active)
  {
    var b := BuildSteps(j);
    assert b[1..] == [BuildVolume(j), FillVolume(j), ActivateBuilt(j), BuildFilesystem(j), FitFilesystem(j), Install,
      Commit(j)];
    assert b[1..][1..] == [FillVolume(j), ActivateBuilt(j), BuildFilesystem(j), FitFilesystem(j), Install, Commit(j)];
    assert b[1..][1..][1..] == [ActivateBuilt(j), BuildFilesystem(j), FitFilesystem(j), Install, Commit(j)];
    var c: seq<Step> := [BuildFilesystem(j), FitFilesystem(j), Install, Commit(j)];
    assert b[1..][1..][1..][1..] == c;
    assert c[1..] == [FitFilesystem(j), Install, Commit(j)];
    assert c[1..][1..] == [Install, Commit(j)];
    assert c[1..][1..][1..] == [Commit(j)];
    assert c[1..][1..][1..][1..] == [];
    assert Ordered(c[1..][1..], true);
    assert Ordered(c, true);
    assert Ordered(b[1..][1..], active);
    forall s <- MemberSteps(j, j.members)
      ensures s.PreparePartition? || s.PreparePv? || s.FitPv?
    {
      var n :| 0 <= n < 3 * |j.members| && MemberSteps(j, j.members)[n] == s;
      MemberStepAt(j, j.members, n);
    }
    OrderedPrepend(MemberSteps(j, j.members), b, active);
  }

  /** In the running guest a step does to the disks what it does to them in the walk. */
  lemma PerformSettles(s: Step, w: World)
    requires !s.Activate? && !s.AttachMount? && (s.BuildFilesystem? || s.FitFilesystem? ==> w.volatile.active)
    ensures Perform(s, w).Ok? <==> Settle(s, w.durable).Ok?
    ensures Perform(s, w).Ok? ==>
      var x := Perform(s, w).value;
      && Settle(s, w.durable) == Ok(x.durable) && x.volatile.mount == w.volatile.mount
      && x.volatile.active == (w.volatile.active || s.ActivateBuilt?)
  {
    hide DecidePartition, DecidePv, DecideFit, DecideGroup, DecideVolume, DecideFill, DecideFilesystem, NextState;
  }

  /** A run completes some number of steps of the durable walk; the volatile state does not matter. */
  lemma {:induction false} RunWalk(steps: seq<Step>, w: World, fuel: nat) returns (n: nat)
    requires Ordered(steps, w.volatile.active)
    ensures n <= |steps| && n <= fuel
    ensures
      var (x, s) := Run(steps, w, fuel);
      && Walk(steps[..n], w.durable) == (x.durable, true)
      && x.volatile.mount == w.volatile.mount
      && (s == Done ==> n == |steps|)
      && (s == Rejected ==> n < |steps| && Settle(steps[n], x.durable).Refused?)
      && (s == Crashed ==> n == fuel < |steps|)
  {
    hide Perform, Settle;
    n := 0;
    if steps != [] && fuel > 0 {
      PerformSettles(steps[0], w);
      var next := Perform(steps[0], w);
      if next.Ok? {
        var m := RunWalk(steps[1..], next.value, fuel - 1);
        n := m + 1;
        assert steps[..n][1..] == steps[1..][..m];
      }
    }
  }

  lemma WalkStops(steps: seq<Step>, n: nat, d: Durable)
    requires n < |steps| && Walk(steps[..n], d).1
    requires Settle(steps[n], Walk(steps[..n], d).0).Refused?
    ensures Walk(steps, d) == (Walk(steps[..n], d).0, false)
  {
    assert steps == steps[..n] + steps[n..];
    WalkSplit(steps[..n], steps[n..], d);
  }

  // ------------------------------------------------------------------ attempts

  /** What one invocation finds: boot or a direct call, whether the worker is stopped, when power fails. */
  datatype Attempt = Attempt(boot: bool, stopped: bool, fuel: nat, before: Volatile)

  function Try(d: Durable, request: Request, a: Attempt): (World, Status) {
    if a.boot then Boot(World(d, a.before), a.stopped, a.fuel)
    else Apply(World(d, a.before), request, a.stopped, IdleDraw(request), a.fuel)
  }

  function Tries(d: Durable, request: Request, attempts: seq<Attempt>): Durable {
    if attempts == [] then d
    else
      var before := Tries(d, request, attempts[..|attempts| - 1]);
      Try(before, request, attempts[|attempts| - 1]).0.durable
  }

  /** The attempt is neither refused for a running worker nor for an unknown request member, nor cut. */
  ghost predicate Complete(a: Attempt, j: Journal) {
    a.stopped && (a.boot ==> j.request.extra == map[]) && a.fuel >= |Program(j)|
  }

  /** A journal that apply_request wrote and has not yet carried out. */
  ghost predicate Started(d: Durable, j: Journal) {
    && d.pending == Some(j) && j.requestDigest == j.request
    && ValidRequest(j.request, d.owner)
    && (d.state.Some? ==> ValidState(d.state.value, d.owner))
    && !Applied(d, j.request)
    && Sound(d, j)
    && d.poolDirectoryEmpty
  }

  /** Where the journal leads, as a function of the disks it started from. */
  function Target(d: Durable, j: Journal): (Durable, Status) {
    var (c, ok) := Walk(Prepare(j), d);
    if !ok then (c, Rejected)
    else if Activatable(c) then (c.(pending := None), Done)
    else (c, Rejected)
  }

  ghost predicate Reached(d0: Durable, j: Journal, d: Durable) {
    || (exists n :: 0 <= n <= |Prepare(j)| && Walk(Prepare(j)[..n], d0) == (d, true))
    || (Target(d0, j) == (d, Done))
  }

  // ----------------------------------------------------------- files untouched

  ghost predicate SameFiles(d: Durable, e: Durable) {
    e.pending == d.pending && e.state == d.state && e.owner == d.owner && e.poolDirectoryEmpty == d.poolDirectoryEmpty
  }

  lemma SettleFiles(s: Step, d: Durable, e: Durable)
    requires Settle(s, d) == Ok(e)
    requires !s.SaveJournal? && !s.Commit? && !s.Finish?
    ensures SameFiles(d, e)
  {
    DecideFiles(s, d);
    EffectFiles(Decide(s, d).value, d, e);
  }

  lemma DecideFiles(s: Step, d: Durable)
    requires !s.SaveJournal? && !s.Commit? && !s.Finish? && Decide(s, d).Ok?
    ensures !Decide(s, d).value.WriteJournal? && !Decide(s, d).value.WriteState? && !Decide(s, d).value.DropJournal?
  {
  }

  lemma EffectFiles(c: Command, d: Durable, e: Durable)
    requires Effect(c, d) == Ok(e)
    requires !c.WriteJournal? && !c.WriteState? && !c.DropJournal?
    ensures SameFiles(d, e)
  {
  }

  lemma StepFiles(j: Journal, n: nat, d: Durable, e: Durable)
    requires n < |Prepare(j)| && Settle(Prepare(j)[n], d) == Ok(e)
    ensures n < |Prepare(j)| - 1 ==> SameFiles(d, e)
    ensures n == |Prepare(j)| - 1 ==> e == d.(state := e.state) && CommittedBy(j, e)
  {
    var count := 3 * |j.members|;
    if n < count {
      MemberStepAt(j, j.members, n);
      assert Prepare(j)[n] == MemberSteps(j, j.members)[n];
      SettleFiles(Prepare(j)[n], d, e);
    } else {
      assert Prepare(j)[n] == BuildSteps(j)[n - count];
      if n < |Prepare(j)| - 1 {
        SettleFiles(Prepare(j)[n], d, e);
      } else {
        assert Prepare(j)[n] == Commit(j);
      }
    }
  }

  ghost predicate CommittedBy(j: Journal, d: Durable) {
    d.state.Some? && d.state.value.applied == Some(j.requestDigest) && d.state.value.filesystemUuid == j.filesystemUuid
  }

  lemma {:induction false} WalkFiles(j: Journal, n: nat, d: Durable)
    requires n <= |Prepare(j)| && Walk(Prepare(j)[..n], d).1
    ensures
      var e := Walk(Prepare(j)[..n], d).0;
      && e.pending == d.pending && e.owner == d.owner && e.poolDirectoryEmpty == d.poolDirectoryEmpty
      && (n < |Prepare(j)| ==> e.state == d.state)
      && (n == |Prepare(j)| ==> CommittedBy(j, e))
  {
    if n > 0 {
      var before := Prepare(j)[..n - 1];
      assert Prepare(j)[..n] == before + [Prepare(j)[n - 1]];
      WalkSplit(before, [Prepare(j)[n - 1]], d);
      WalkFiles(j, n - 1, d);
      var x := Walk(before, d).0;
      assert [Prepare(j)[n - 1]][1..] == [];
      StepFiles(j, n - 1, x, Settle(Prepare(j)[n - 1], x).value);
    }
  }

  // ---------------------------------------------------------------- activation

  /** The state the journal commits, with every step of Prepare done. */
  ghost predicate Committed(j: Journal, c: Durable) {
    Ready(j, |Prepare(j)|, c) && CommittedBy(j, c) && c.poolDirectoryEmpty
  }

  /** What activation finds once a state is committed: its filesystem, ready to mount over an empty directory. */
  ghost predicate Attachable(d: Durable, mount: Mount) {
    d.state.Some? && PoolMount(d.state.value) == mount && d.poolDirectoryEmpty && Mountable(d) && d.serviceInstalled
  }

  function ExpectedMount(j: Journal): Mount { Mount("ext4", j.filesystemUuid, true) }

  lemma CommittedAttachable(j: Journal, c: Durable)
    requires Committed(j, c)
    ensures Attachable(c, ExpectedMount(j))
  {
    assert Built(j, 8, c);
    assert c.state.value.poolId == j.request.poolId;
  }

  lemma RunFirst(s: Step, rest: seq<Step>, w: World, fuel: nat)
    ensures Run([s] + rest, w, fuel) ==
      if fuel == 0 then (w, Crashed)
      else if Perform(s, w).Refused? then (w, Rejected)
      else Run(rest, Perform(s, w).value, fuel - 1)
  {
    hide Perform;
    assert ([s] + rest)[1..] == rest;
  }

  function Warm(w: World): World { w.(volatile := w.volatile.(active := true)) }

  function Attached(w: World, mount: Mount): World { w.(volatile := Volatile(true, Some(mount))) }

  lemma PerformActivate(w: World)
    ensures Perform(Activate, w) == if Activatable(w.durable) then Ok(Warm(w)) else Refused
  {
    hide Activatable;
  }

  lemma PerformAttach(w: World, mount: Mount)
    requires Attachable(w.durable, mount) && w.volatile.active
    requires w.volatile.mount.Some? ==> w.volatile.mount.value == mount
    ensures Perform(AttachMount, w) == Ok(Attached(w, mount))
  {
  }

  lemma PerformFinish(w: World)
    ensures Perform(Finish, w) == Ok(w.(durable := w.durable.(pending := None)))
  {
  }

  lemma PerformInstall(w: World)
    requires w.durable.serviceInstalled
    ensures Perform(Install, w) == Ok(w)
  {
    assert w.durable.(serviceInstalled := true) == w.durable;
  }

  lemma RunFinish(w: World, last: seq<Step>, fuel: nat)
    requires last == [] || last == [Finish]
    ensures
      var (x, s) := Run(last, w, fuel);
      && s != Rejected
      && (s == Crashed ==> x == w && fuel == 0)
      && (s == Done ==> x == if last == [] then w else w.(durable := w.durable.(pending := None)))
  {
    if last == [Finish] {
      assert [Finish] + [] == [Finish];
      RunFirst(Finish, [], w, fuel);
      PerformFinish(w);
    }
  }

  /** Activation of a committed state succeeds exactly when the saved pool passes its inspection. */
  lemma RunActivation(w: World, mount: Mount, last: seq<Step>, fuel: nat)
    requires Attachable(w.durable, mount) && (last == [] || last == [Finish])
    requires w.volatile.mount.Some? ==> w.volatile.mount.value == mount
    ensures
      var (x, s) := Run(ACTIVATION + last, w, fuel);
      && (s == Rejected ==> x.durable == w.durable && !Activatable(w.durable))
      && (s == Crashed ==> x.durable == w.durable && fuel < 3)
      && (s == Done ==>
           && Activatable(w.durable)
           && x.durable == (if last == [] then w.durable else w.durable.(pending := None))
           && x.volatile == Volatile(true, Some(mount)))
  {
    hide Perform, Activatable, Mountable;
    assert ACTIVATION + last == [Activate] + ([AttachMount] + last);
    RunFirst(Activate, [AttachMount] + last, w, fuel);
    PerformActivate(w);
    if fuel > 0 && Activatable(w.durable) {
      var warm := Warm(w);
      RunFirst(AttachMount, last, warm, fuel - 1);
      PerformAttach(warm, mount);
      if fuel > 1 {
        RunFinish(Attached(warm, mount), last, fuel - 2);
      }
    }
  }

  lemma InstallFirst(w: World, rest: seq<Step>, fuel: nat)
    requires w.durable.serviceInstalled && fuel > 0
    ensures Run([Install] + rest, w, fuel) == Run(rest, w, fuel - 1)
  {
    PerformInstall(w);
    RunFirst(Install, rest, w, fuel);
  }
}
