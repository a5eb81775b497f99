/** The main results about re-running the storage journal. */
module PoolTheorem {
  import opened Outcomes
  import opened PoolModel
  import opened PoolSteps
  import opened PoolConvergence
  import opened PoolBuild
  import opened PoolResume
  import opened PoolConverges

  /** After a cut in Prepare the rest of the journal leads to the same target. */
  lemma CutTarget(j: Journal, n: nat, d0: Durable)
    requires n <= |Prepare(j)| && Sound(d0, j) && Walk(Prepare(j)[..n], d0).1
    ensures Target(Walk(Prepare(j)[..n], d0).0, j) == Target(d0, j)
  {
    WalkResumes(j, n, [], d0);
    assert Prepare(j) + [] == Prepare(j);
  }

  /** A further walk from a cut world is a walk from the start. */
  lemma CutReached(j: Journal, n: nat, k: nat, d0: Durable)
    requires n <= |Prepare(j)| && k <= |Prepare(j)| && Sound(d0, j) && Walk(Prepare(j)[..n], d0).1
    requires Walk(Prepare(j)[..k], Walk(Prepare(j)[..n], d0).0).1
    ensures
      var m := if n < k then k else n;
      Walk(Prepare(j)[..m], d0) == Walk(Prepare(j)[..k], Walk(Prepare(j)[..n], d0).0)
  {
    var d := Walk(Prepare(j)[..n], d0).0;
    WalkReady(j, n, d0);
    ReadyQuiet(j, n, d);
    if n < k {
      assert Prepare(j)[..k] == Prepare(j)[..n] + Prepare(j)[n..k];
      WalkQuiet(Prepare(j)[..n], d);
      WalkSplit(Prepare(j)[..n], Prepare(j)[n..k], d);
      WalkSplit(Prepare(j)[..n], Prepare(j)[n..k], d0);
    } else {
      assert forall s <- Prepare(j)[..k] :: s in Prepare(j)[..n];
      WalkQuiet(Prepare(j)[..k], d);
    }
  }

  ghost predicate MountSane(v: Volatile, j: Journal) {
    v.mount.Some? ==> v.mount.value == ExpectedMount(j)
  }

  /** What any run may leave behind, and what it must have achieved when it was not cut. */
  ghost predicate Outcome(d0: Durable, j: Journal, x: World, s: Status) {
    && Reached(d0, j, x.durable)
    && (s == Done ==> Target(d0, j) == (x.durable, Done) && x.volatile == Volatile(true, Some(ExpectedMount(j))))
    && (s == Rejected ==> Target(d0, j) == (x.durable, Rejected))
  }

  lemma CommittedAt(j: Journal, d0: Durable)
    requires Started(d0, j) && Walk(Prepare(j), d0).1
    ensures Attachable(Walk(Prepare(j), d0).0, ExpectedMount(j))
    ensures Walk(Prepare(j), d0).0.pending == Some(j) && CommittedBy(j, Walk(Prepare(j), d0).0)
    ensures Walk(Prepare(j), d0).0.owner == d0.owner
  {
    var c := Walk(Prepare(j), d0).0;
    assert Prepare(j)[..|Prepare(j)|] == Prepare(j);
    WalkReady(j, |Prepare(j)|, d0);
    WalkFiles(j, |Prepare(j)|, d0);
    CommittedAttachable(j, c);
  }

  lemma CutOutcome(j: Journal, n: nat, d0: Durable, x: World, s: Status)
    requires n <= |Prepare(j)| && Walk(Prepare(j)[..n], d0) == (x.durable, true)
    requires s == Crashed || (s == Rejected && Target(d0, j) == (x.durable, Rejected))
    ensures Outcome(d0, j, x, s)
  {
  }

  lemma RejectedTarget(j: Journal, d: Durable, k: nat)
    requires k < |Prepare(j)| && Walk(Prepare(j)[..k], d).1
    requires Settle(Prepare(j)[k], Walk(Prepare(j)[..k], d).0).Refused?
    ensures Target(d, j) == (Walk(Prepare(j)[..k], d).0, Rejected)
  {
    WalkStops(Prepare(j), k, d);
  }

  /** What activation makes of a committed state is what the journal's target says. */
  lemma CommittedOutcome(j: Journal, d0: Durable, x: World, s: Status)
    requires Walk(Prepare(j), d0).1
    requires
      var c := Walk(Prepare(j), d0).0;
      && (s == Rejected ==> x.durable == c && !Activatable(c))
      && (s == Crashed ==> x.durable == c)
      && (s == Done ==>
           && Activatable(c)
           && x.durable == c.(pending := None)
           && x.volatile == Volatile(true, Some(ExpectedMount(j))))
    ensures Outcome(d0, j, x, s)
  {
    hide Activatable;
    assert Prepare(j)[..|Prepare(j)|] == Prepare(j);
    if s != Done {
      assert Walk(Prepare(j)[..|Prepare(j)|], d0) == (x.durable, true);
    }
  }

  /** The full program, run from a world that a cut run of the same journal left behind. */
  lemma RunProgram(j: Journal, n: nat, d0: Durable, w: World, fuel: nat)
    requires Started(d0, j) && n <= |Prepare(j)| && Walk(Prepare(j)[..n], d0) == (w.durable, true)
    requires MountSane(w.volatile, j)
    ensures
      var (x, s) := Run(Program(j), w, fuel);
      Outcome(d0, j, x, s) && (s == Crashed ==> fuel < |Program(j)|)
  {
    hide Perform, Settle, Walk, Run, Prepare, Outcome, Attachable, Activatable, Target, Reached, Sound;
    OrderedPrepare(j, w.volatile.active);
    var k := RunWalk(Prepare(j), w, fuel);
    var (x, s) := Run(Prepare(j), w, fuel);
    CutReached(j, n, k, d0);
    var m := if n < k then k else n;
    CutTarget(j, n, d0);
    var last := ACTIVATION + [Finish];
    ProgramParts(j);
    RunSplit(Prepare(j), last, w, fuel);
    if s == Rejected {
      RejectedTarget(j, w.durable, k);
      CutOutcome(j, m, d0, x, s);
    } else if s == Crashed {
      CutOutcome(j, m, d0, x, s);
    } else {
      PrepareWhole(j, m, d0);
      CommittedAt(j, d0);
      RunActivation(x, ExpectedMount(j), [Finish], fuel - |Prepare(j)|);
      var (y, t) := Run(last, x, fuel - |Prepare(j)|);
      CommittedOutcome(j, d0, y, t);
    }
  }

  lemma ProgramParts(j: Journal)
    ensures Program(j) == Prepare(j) + (ACTIVATION + [Finish])
    ensures |Program(j)| == |Prepare(j)| + 3
  {
    assert Program(j) == Prepare(j) + (ACTIVATION + [Finish]);
  }

  lemma PrepareWhole(j: Journal, m: nat, d: Durable)
    requires m == |Prepare(j)|
    ensures Prepare(j)[..m] == Prepare(j)
  {
  }

  // ------------------------------------------------------------ one invocation

  /** The steps a direct call takes when it finds the journal part-way, committed or finished. */
  lemma EarlySteps(d0: Durable, j: Journal, n: nat, d: Durable, stopped: bool, draw: Draw)
    requires Started(d0, j) && n < |Prepare(j)| && Walk(Prepare(j)[..n], d0) == (d, true)
    requires |draw.members| == |j.request.disks|
    ensures Steps(d, j.request, stopped, draw) == if stopped then Ok(Program(j)) else Refused
    ensures d.pending == Some(j) && d.owner == d0.owner
  {
    hide Settle, ValidState, Sound, Program;
    WalkFiles(j, n, d0);
  }

  lemma CommittedSteps(d0: Durable, j: Journal, d: Durable, stopped: bool, draw: Draw)
    requires Started(d0, j) && Walk(Prepare(j), d0) == (d, true)
    requires |draw.members| == |j.request.disks|
    ensures d.state.Some?
    ensures Steps(d, j.request, stopped, draw) ==
      if stopped && ValidState(d.state.value, d.owner) then Ok([Install] + ACTIVATION + [Finish]) else Refused
    ensures d.pending == Some(j) && d.owner == d0.owner
  {
    hide Settle, ValidState, Sound, Program, Attachable;
    CommittedAt(j, d0);
  }

  lemma FinishedSteps(d0: Durable, j: Journal, d: Durable, stopped: bool, draw: Draw)
    requires Started(d0, j) && Target(d0, j) == (d, Done)
    requires |draw.members| == |j.request.disks|
    ensures Steps(d, j.request, stopped, draw) == if stopped then Ok([Install] + ACTIVATION) else Refused
    ensures d.pending == None && Attachable(d, ExpectedMount(j)) && Activatable(d)
  {
    hide Settle, ValidRequest, ValidState, Sound, Program, PlanDevices, ValidLvm, Mountable;
    CommittedAt(j, d0);
    var c := Walk(Prepare(j), d0).0;
    SameActivation(c, d);
  }

  lemma SameActivation(c: Durable, d: Durable)
    requires d == c.(pending := None)
    ensures Activatable(d) == Activatable(c) && Mountable(d) == Mountable(c)
  {
    if c.state.Some? {
      var s := c.state.value;
      SamePlans(c, d, AsRequest(s).disks, s.disks, {});
    }
  }

  lemma {:induction false} SamePlans(c: Durable, d: Durable, disks: seq<DiskRequest>, members: seq<Member>,
      used: set<string>)
    requires d == c.(pending := None)
    ensures PlanDisks(d, disks, members, used) == PlanDisks(c, disks, members, used)
  {
    if disks != [] {
      var known := FindMember(members, disks[0].id);
      assert PlanDisk(d, disks[0], known, used) == PlanDisk(c, disks[0], known, used);
      if PlanDisk(c, disks[0], known, used).Ok? {
        SamePlans(c, d, disks[1..], members, used + {PlanDisk(c, disks[0], known, used).value.device});
      }
    }
  }

  /** What a direct call does from a world this journal has reached. */
  lemma ApplyReached(d0: Durable, j: Journal, d: Durable, v: Volatile, stopped: bool, draw: Draw, fuel: nat)
    requires Started(d0, j) && Reached(d0, j, d) && MountSane(v, j)
    requires |draw.members| == |j.request.disks|
    ensures
      var (x, s) := Apply(World(d, v), j.request, stopped, draw, fuel);
      if stopped then Outcome(d0, j, x, s) && (s == Crashed ==> fuel < |Program(j)|)
      else x == World(d, v) && s == Rejected
  {
    hide Settle, Perform, ValidRequest, Sound, Attachable, PlanDevices, Mountable, Outcome, Run, Program, Activatable;
    ProgramParts(j);
    var w := World(d, v);
    if Target(d0, j) == (d, Done) {
      FinishedSteps(d0, j, d, stopped, draw);
      if stopped {
        ApplyFinished(d0, j, w, fuel);
      }
    } else {
      var n :| 0 <= n <= |Prepare(j)| && Walk(Prepare(j)[..n], d0) == (d, true);
      if n < |Prepare(j)| {
        EarlySteps(d0, j, n, d, stopped, draw);
        if stopped {
          RunProgram(j, n, d0, w, fuel);
        }
      } else {
        PrepareWhole(j, n, d0);
        CommittedSteps(d0, j, d, stopped, draw);
        if stopped {
          ApplyCommitted(d0, j, w, fuel);
        }
      }
    }
  }

  lemma ApplyFinished(d0: Durable, j: Journal, w: World, fuel: nat)
    requires Started(d0, j) && Target(d0, j) == (w.durable, Done) && MountSane(w.volatile, j)
    ensures
      var (x, s) := Run([Install] + ACTIVATION, w, fuel);
      Outcome(d0, j, x, s) && (s == Crashed ==> fuel < 4)
    ensures
      var (x, s) := Run(ACTIVATION, w, fuel);
      Outcome(d0, j, x, s) && (s == Crashed ==> fuel < 3)
  {
    hide Settle, Perform, Run, Started, Target, Activatable, Mountable;
    FinishedSteps(d0, j, w.durable, true, IdleDraw(j.request));
    assert ACTIVATION + [] == ACTIVATION;
    RunActivation(w, ExpectedMount(j), [], fuel);
    RunFirst(Install, ACTIVATION, w, fuel);
    if fuel > 0 {
      InstallFirst(w, ACTIVATION, fuel);
      RunActivation(w, ExpectedMount(j), [], fuel - 1);
    }
  }

  lemma ApplyCommitted(d0: Durable, j: Journal, w: World, fuel: nat)
    requires Started(d0, j) && Walk(Prepare(j), d0) == (w.durable, true) && MountSane(w.volatile, j)
    ensures
      var (x, s) := Run([Install] + ACTIVATION + [Finish], w, fuel);
      Outcome(d0, j, x, s) && (s == Crashed ==> fuel < 4)
    ensures w.durable.state.Some?
    ensures !ValidState(w.durable.state.value, w.durable.owner) ==> Outcome(d0, j, w, Rejected)
  {
    hide Settle, Perform, Run, Outcome, ValidState, Mountable, Prepare, Started, Walk, Target;
    CommittedAt(j, d0);
    CommittedRun(d0, j, w, fuel);
    if !ValidState(w.durable.state.value, w.durable.owner) {
      CommittedOutcome(j, d0, w, Rejected);
    }
  }

  lemma CommittedRun(d0: Durable, j: Journal, w: World, fuel: nat)
    requires Started(d0, j) && Walk(Prepare(j), d0) == (w.durable, true) && MountSane(w.volatile, j)
    ensures
      var (x, s) := Run([Install] + ACTIVATION + [Finish], w, fuel);
      Outcome(d0, j, x, s) && (s == Crashed ==> fuel < 4)
  {
    hide Settle, Perform, Run, Outcome, ValidState, Mountable, Prepare, Started, Walk, Target, Activatable;
    CommittedAt(j, d0);
    var rest := ACTIVATION + [Finish];
    assert [Install] + ACTIVATION + [Finish] == [Install] + rest;
    RunFirst(Install, rest, w, fuel);
    if fuel > 0 {
      InstallFirst(w, rest, fuel);
      RunActivation(w, ExpectedMount(j), [Finish], fuel - 1);
      var (x, s) := Run(rest, w, fuel - 1);
      CommittedOutcome(j, d0, x, s);
    } else {
      CommittedOutcome(j, d0, w, Crashed);
    }
  }

  // -------------------------------------------------------------- main results

  /** activate_pool at boot resumes the journal only if the original request had no member it does not know. */
  lemma BootReached(d0: Durable, j: Journal, d: Durable, v: Volatile, stopped: bool, fuel: nat)
    requires Started(d0, j) && Reached(d0, j, d) && MountSane(v, j)
    ensures
      var (x, s) := Boot(World(d, v), stopped, fuel);
      if d.pending.None? || (stopped && j.request.extra == map[])
      then Outcome(d0, j, x, s) && (s == Crashed ==> fuel < |Program(j)|)
      else x == World(d, v) && s == Rejected
  {
    hide Settle, Perform, Sound, Attachable, PlanDevices, Mountable, Outcome, Run, Program, Activatable, Walk, Prepare;
    hide ValidState;
    ProgramParts(j);
    ReachedPending(d0, j, d);
    if d.pending.None? {
      ApplyFinished(d0, j, World(d, v), fuel);
    } else if Rebuilt(j) == j.request {
      ApplyReached(d0, j, d, v, stopped, IdleDraw(j.request), fuel);
    }
  }

  lemma ReachedPending(d0: Durable, j: Journal, d: Durable)
    requires Started(d0, j) && Reached(d0, j, d)
    ensures d.owner == d0.owner
    ensures if d.pending.Some? then d.pending == Some(j) else Target(d0, j) == (d, Done)
  {
    hide Settle, ValidRequest, ValidState, Sound, Activatable;
    if Target(d0, j) == (d, Done) {
      CommittedAt(j, d0);
    } else {
      var n :| 0 <= n <= |Prepare(j)| && Walk(Prepare(j)[..n], d0) == (d, true);
      WalkFiles(j, n, d0);
    }
  }

  lemma TryReached(d0: Durable, j: Journal, d: Durable, a: Attempt)
    requires Started(d0, j) && Reached(d0, j, d) && MountSane(a.before, j)
    ensures Reached(d0, j, Try(d, j.request, a).0.durable)
    ensures Complete(a, j) ==>
      Outcome(d0, j, Try(d, j.request, a).0, Try(d, j.request, a).1) && Try(d, j.request, a).1 != Crashed
  {
    hide Apply, Boot, Started, Program, Target, Walk;
    if a.boot {
      BootReached(d0, j, d, a.before, a.stopped, a.fuel);
    } else {
      ApplyReached(d0, j, d, a.before, a.stopped, IdleDraw(j.request), a.fuel);
    }
  }

  lemma {:induction false} TriesReached(d0: Durable, j: Journal, attempts: seq<Attempt>)
    requires Started(d0, j) && (forall a <- attempts :: MountSane(a.before, j))
    ensures Reached(d0, j, Tries(d0, j.request, attempts))
  {
    hide Started, Try;
    if attempts == [] {
      StartReached(d0, j);
    } else {
      var last := |attempts| - 1;
      TriesReached(d0, j, attempts[..last]);
      TryReached(d0, j, Tries(d0, j.request, attempts[..last]), attempts[last]);
    }
  }

  lemma StartReached(d0: Durable, j: Journal)
    ensures Reached(d0, j, d0)
  {
    assert Walk(Prepare(j)[..0], d0) == (d0, true);
  }

  /**
   Crash convergence. Cut the journal after any durable step, any number of times, in any mix of
   direct calls and boots: the next complete attempt ends with the very disks, identities, state
   file and verdict of the run that is never cut, and with the pool mounted if that run succeeds.
   */
  lemma Convergence(d0: Durable, j: Journal, attempts: seq<Attempt>, last: Attempt, uncut: Attempt)
    requires Started(d0, j)
    requires MountSane(last.before, j) && MountSane(uncut.before, j) && (forall a <- attempts :: MountSane(a.before, j))
    requires Complete(last, j) && Complete(uncut, j)
    ensures
      var (x, s) := Try(Tries(d0, j.request, attempts), j.request, last);
      var (y, t) := Try(d0, j.request, uncut);
      && s == t && x.durable == y.durable
      && (s == Done ==> x.volatile == Volatile(true, Some(ExpectedMount(j))) && x.durable.pending == None)
  {
    hide Started, Try, Tries, Reached;
    TriesReached(d0, j, attempts);
    TryReached(d0, j, Tries(d0, j.request, attempts), last);
    StartReached(d0, j);
    TryReached(d0, j, d0, uncut);
  }
}
