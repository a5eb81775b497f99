/** Every command that any history of the guest issues, and what must be true of its target. */
module PoolCommands {
  import opened Outcomes
  import opened PoolModel
  import opened PoolSteps
  import opened PoolConvergence
  import opened PoolBuild
  import opened PoolResume
  import opened PoolConverges
  import opened PoolRuns
  import opened PoolSafety

  /** A command, and the disks as they are when it is issued. */
  datatype Issue = Issue(command: Command, at: Durable)

  /** The commands a run issues; the last may be one whose tool fails, or one cut by the power loss. */
  function Issues(steps: seq<Step>, w: World, fuel: nat): seq<Issue> {
    if steps == [] || Decide(steps[0], w.durable).Refused? then []
    else
      var first := [Issue(Decide(steps[0], w.durable).value, w.durable)];
      var next := Perform(steps[0], w);
      if fuel == 0 || next.Refused? then first else first + Issues(steps[1..], next.value, fuel - 1)
  }

  /** What one event issues. Retirement and the migration mark touch files only. */
  function IssuedBy(d: Durable, e: Event): seq<Issue>
    requires e.Call? ==> |e.draw.members| == |e.request.disks|
  {
    match e
    case Call(request, stopped, draw, fuel, before) => CallIssues(World(d, before), request, stopped, draw, fuel)
    case BootUp(stopped, fuel, before) =>
      if d.pending.None? then Issues(ACTIVATION, World(d, before), fuel)
      else
        var request := Rebuilt(d.pending.value);
        if !stopped || !ValidRequest(request, d.owner) || request != d.pending.value.requestDigest then []
        else CallIssues(World(d, before), request, stopped, IdleDraw(request), fuel)
    case Retire(_, _, _) => []
    case MarkMigrated => []
  }

  function CallIssues(w: World, request: Request, stopped: bool, draw: Draw, fuel: nat): seq<Issue>
    requires |draw.members| == |request.disks|
  {
    var steps := Steps(w.durable, request, stopped, draw);
    if steps.Refused? then [] else Issues(steps.value, w, fuel)
  }

  predicate Destructive(c: Command) { c.PartitionDisk? || c.CreatePv? || c.MakeFilesystem? }

  /** A destructive command is issued only for the journal that is pending, and meets its guard. */
  ghost predicate Allowed(x: Issue) {
    Destructive(x.command) ==> x.at.pending.Some? && Guarded(x.at.pending.value, x.command, x.at)
  }

  ghost predicate AllAllowed(xs: seq<Issue>) {
    forall i :: 0 <= i < |xs| ==> Allowed(xs[i])
  }

  /** Steps outside the preparation destroy nothing. */
  predicate Harmless(s: Step) {
    s.SaveJournal? || s.Install? || s.Activate? || s.AttachMount? || s.Finish?
  }

  lemma {:induction false} HarmlessAllowed(steps: seq<Step>, w: World, fuel: nat)
    requires forall s <- steps :: Harmless(s)
    ensures AllAllowed(Issues(steps, w, fuel))
  {
    hide Perform, Activatable, Mountable, Guarded;
    if steps != [] && Decide(steps[0], w.durable).Ok? {
      assert steps[0] in steps;
      var next := Perform(steps[0], w);
      if fuel > 0 && next.Ok? {
        HarmlessAllowed(steps[1..], next.value, fuel - 1);
      }
    }
  }

  lemma AllowedFirst(first: Issue, rest: seq<Issue>)
    requires Allowed(first) && AllAllowed(rest)
    ensures AllAllowed([first] + rest)
  {
    hide Allowed;
  }

  /** The journal's remaining steps, from wherever a run of it stands. */
  lemma {:induction false} ProgramAllowed(j: Journal, n: nat, d: Durable, w: World, fuel: nat)
    requires d.pending == Some(j) && Sound(d, j) && n <= |Prepare(j)|
    requires Walk(Prepare(j)[..n], d) == (w.durable, true) && Ordered(Prepare(j)[n..], w.volatile.active)
    ensures AllAllowed(Issues(Prepare(j)[n..] + ACTIVATION + [Finish], w, fuel))
    decreases |Prepare(j)| - n
  {
    hide Perform, Settle, Decide, Sound, Prepare, Guarded, Allowed, AllAllowed, Walk;
    var steps := Prepare(j)[n..] + ACTIVATION + [Finish];
    if n == |Prepare(j)| {
      assert steps == ACTIVATION + [Finish];
      HarmlessAllowed(steps, w, fuel);
    } else {
      var s := Prepare(j)[n];
      assert steps[0] == s && steps[1..] == Prepare(j)[n + 1..] + ACTIVATION + [Finish];
      assert Prepare(j)[n..][0] == s && Prepare(j)[n..][1..] == Prepare(j)[n + 1..];
      if Decide(s, w.durable).Ok? {
        NextAllowed(j, n, d, w.durable);
        var next := Perform(s, w);
        PerformSettles(s, w);
        NoIssues();
        if fuel > 0 && next.Ok? {
          OneMore(j, n, d, w.durable, next.value.durable);
          ProgramAllowed(j, n + 1, d, next.value, fuel - 1);
          AllowedFirst(Issue(Decide(s, w.durable).value, w.durable), Issues(steps[1..], next.value, fuel - 1));
        } else {
          AllowedFirst(Issue(Decide(s, w.durable).value, w.durable), []);
          assert [Issue(Decide(s, w.durable).value, w.durable)] + [] == [Issue(Decide(s, w.durable).value, w.durable)];
        }
      } else {
        NoIssues();
      }
    }
  }

  lemma NoIssues()
    ensures AllAllowed([])
  {
  }

  lemma NextAllowed(j: Journal, n: nat, d: Durable, x: Durable)
    requires d.pending == Some(j) && Sound(d, j) && n < |Prepare(j)| && Walk(Prepare(j)[..n], d) == (x, true)
    requires Decide(Prepare(j)[n], x).Ok?
    ensures Allowed(Issue(Decide(Prepare(j)[n], x).value, x))
  {
    hide Decide, Settle, Sound, Prepare, Guarded, Walk;
    EveryCommandGuarded(j, n, d);
    WalkFiles(j, n, d);
  }

  lemma OneMore(j: Journal, n: nat, d: Durable, x: Durable, y: Durable)
    requires n < |Prepare(j)| && Walk(Prepare(j)[..n], d) == (x, true) && Settle(Prepare(j)[n], x) == Ok(y)
    ensures Walk(Prepare(j)[..n + 1], d) == (y, true)
  {
    hide Settle, Prepare;
    assert Prepare(j)[..n + 1] == Prepare(j)[..n] + [Prepare(j)[n]];
    WalkSplit(Prepare(j)[..n], [Prepare(j)[n]], d);
    assert [Prepare(j)[n]][1..] == [];
  }

  lemma WholeAllowed(j: Journal, w: World, fuel: nat)
    requires w.durable.pending == Some(j) && Sound(w.durable, j)
    ensures AllAllowed(Issues(Program(j), w, fuel))
  {
    hide Perform, Settle, Decide, Sound, Guarded, Allowed, AllAllowed, Issues, Ordered;
    OrderedPrepare(j, w.volatile.active);
    assert Prepare(j)[0..] == Prepare(j);
    assert Prepare(j)[..0] == [];
    ProgramAllowed(j, 0, w.durable, w, fuel);
    assert Program(j) == Prepare(j) + ACTIVATION + [Finish];
  }

  lemma SavedAllowed(j: Journal, w: World, fuel: nat)
    requires Sound(w.durable.(pending := Some(j)), j)
    ensures AllAllowed(Issues([SaveJournal(j)] + Program(j), w, fuel))
  {
    hide Sound, Guarded, Issues, Program;
    var x := w.(durable := w.durable.(pending := Some(j)));
    var first := Issue(WriteJournal(j), w.durable);
    assert ([SaveJournal(j)] + Program(j))[1..] == Program(j);
    FirstIssue([SaveJournal(j)] + Program(j), w, fuel);
    if fuel > 0 {
      WholeAllowed(j, x, fuel - 1);
      AllowedFirst(first, Issues(Program(j), x, fuel - 1));
    }
  }

  lemma FirstIssue(steps: seq<Step>, w: World, fuel: nat)
    requires steps != [] && Decide(steps[0], w.durable).Ok?
    ensures
      var first := [Issue(Decide(steps[0], w.durable).value, w.durable)];
      Issues(steps, w, fuel) ==
        if fuel == 0 || Perform(steps[0], w).Refused? then first
        else first + Issues(steps[1..], Perform(steps[0], w).value, fuel - 1)
  {
  }

  lemma CallAllowed(w: World, request: Request, stopped: bool, draw: Draw, fuel: nat)
    requires |draw.members| == |request.disks| && Invariant(w.durable)
    requires w.durable.pending.None? ==> FreshDraw(w.durable, draw)
    ensures AllAllowed(CallIssues(w, request, stopped, draw, fuel))
  {
    hide Issues, Program, PlanDevices, ValidRequest, ValidState, FreshDraw, Sound, Allowed, AllAllowed;
    var d := w.durable;
    var steps := Steps(d, request, stopped, draw);
    if steps.Refused? {
      NoIssues();
    } else if d.pending.Some? && !Applied(d, request) {
      WholeAllowed(d.pending.value, w, fuel);
    } else if d.pending.Some? || Applied(d, request) {
      HarmlessAllowed(steps.value, w, fuel);
    } else {
      var plans := PlanDevices(d, request, d.state).value;
      var j := NewJournal(d, request, plans, draw);
      assert Planned(d, request, plans, draw);
      BeginsSound(d, request, plans, draw);
      SavedAllowed(j, w, fuel);
    }
  }

  /**
   Over every history of requests, boots, retirements and power losses, every destructive command
   any event issues is issued for the pending journal, to a target the source allows: a blank whole
   disk, a signature-free partition of a new member, or the owned, empty volume of a pool without a state.
   */
  lemma HistoryGuarded(d0: Durable, events: seq<Event>, d: Durable, e: Event)
    requires Invariant(d0) && Follows(d0, events, d) && Admissible(d, e)
    ensures AllAllowed(IssuedBy(d, e))
  {
    hide Issues, ValidRequest, FreshDraw, CallIssues, AllAllowed, Follows, Invariant;
    HistoryInvariant(d0, events, d);
    match e
    case Call(request, stopped, draw, fuel, before) => CallAllowed(World(d, before), request, stopped, draw, fuel);
    case BootUp(stopped, fuel, before) =>
      NoIssues();
      if d.pending.None? {
        HarmlessAllowed(ACTIVATION, World(d, before), fuel);
      } else {
        var request := Rebuilt(d.pending.value);
        CallAllowed(World(d, before), request, stopped, IdleDraw(request), fuel);
      }
    case _ => NoIssues();
  }
}
