/**
 A run in which a replacement is asked for during a resize, and the node goes on reporting the
 allocation the VM had before it.
 */
module RemoteReplacement {
  import opened Outcomes
  import opened RemoteModel
  import opened RemoteController
  import opened RemoteSystem
  import opened RemoteAgreement

  const SMALL := Resources(1, 1024, 20)
  const LARGE := Resources(2, 1024, 20)
  const BEFORE := Policy(true, false, SMALL, 0)
  const EDIT := Edit(None, "a", 0, Policy(true, false, LARGE, 0), true)
  const SAVED := Saved(BEFORE, true, 0, 0, false, false)
  const MACHINE := Machine(false, false, Some(SMALL), true, true, true, false, false, NoWork, false)
  const NODE := Config(0, SAVED, Remote(None, None, false, []), MACHINE)
  const REPORT := Report(true, 0, Some(BEFORE), [])
  const START := Sys(NODE, NoJob, SMALL, map[0 := SAVED], [], [], None, [], false, None)

  lemma Extend(s0: Sys, events: seq<Event>, m: Sys, e: Event)
    requires Reachable(s0, events, m) && Enabled(m, e)
    ensures Reachable(s0, events + [e], Next(m, e))
  {
    hide Enabled, Next;
    assert (events + [e])[..|events|] == events;
  }

  /** The node reports, and the answer is lost. */
  const REPORTED := START.(sent := [REPORT], outstanding := true)
  const LEARNED := START.(sent := [REPORT], stored := Some(REPORT))
  /** An edit is asked for, and issued in answer to the next report. */
  const ASKED := LEARNED.(rows := [Row(EDIT, RowRequested, false)])
  const SENT := ASKED.(sent := [REPORT, REPORT], outstanding := true)
  const ISSUED := SENT.(reply := Some(EDIT))

  const HEARD := REPORTED.(stored := Some(REPORT), reply := None)

  lemma Heard()
    ensures Next(REPORTED, Process(0)) == HEARD && Next(HEARD, Lose) == LEARNED
  {
    assert AcknowledgeAll([], []) == [] && Settled([], REPORT) == [] && CommandFor([], REPORT) == None;
    assert Exchange([], None, REPORT) == Ok(Exchanged([], Some(REPORT), None));
  }

  lemma Reported()
    ensures Next(START, Send) == REPORTED
  {
    hide Exchange, Requested, OwnerUpdated, Claimed, Committed, Failed, Recovered, Delivered;
    hide StorageWritten, StorageFinished, StorageFailed, StoragePaused;
    assert ReportOf(NODE) == REPORT;
  }

  lemma Learned()
    ensures Reachable(START, [Send] + [Process(0)] + [Lose], LEARNED)
  {
    hide Reachable, Next, Exchange, Requested;
    Reported();
    Heard();
    Nowhere(START);
    Extend(START, [], START, Send);
    assert [] + [Send] == [Send];
    Extend(START, [Send], REPORTED, Process(0));
    Extend(START, [Send] + [Process(0)], HEARD, Lose);
  }

  lemma Nowhere(s: Sys)
    ensures Reachable(s, [], s)
  {
  }

  lemma Asked()
    ensures Next(LEARNED, Ask(EDIT, true)) == ASKED && Next(ASKED, Send) == SENT
  {
    assert FindRow([], EDIT.requestId) == None;
    assert ValidEdit(EDIT, BEFORE, true, 0, true);
  }

  lemma Answered()
    ensures Next(SENT, Process(1)) == ISSUED
  {
    var rows := [Row(EDIT, RowRequested, false)];
    assert AcknowledgeAll(rows, []) == rows;
    assert Settled(rows, REPORT) == rows;
    assert CommandFor(rows, REPORT) == Some(EDIT);
    assert Exchange(rows, Some(REPORT), REPORT) == Ok(Exchanged(rows, Some(REPORT), Some(EDIT)));
  }

  /** The controller learns of the node, and an edit is asked for and issued. */
  lemma Issued() returns (events: seq<Event>)
    ensures Reachable(START, events, ISSUED)
  {
    hide Reachable, Next;
    Learned();
    Asked();
    Answered();
    events := [Send] + [Process(0)] + [Lose];
    Extend(START, events, LEARNED, Ask(EDIT, true));
    Extend(START, events + [Ask(EDIT, true)], ASKED, Send);
    Extend(START, events + [Ask(EDIT, true)] + [Send], SENT, Process(1));
    events := events + [Ask(EDIT, true)] + [Send] + [Process(1)];
  }

  /** The node takes the edit up and starts to resize the VM. */
  lemma Started() returns (events: seq<Event>, s: Sys)
    ensures Reachable(START, events, s)
    ensures s.job == Resizing(EDIT) && s.vm == SMALL && s.node.saved == SAVED && s.node.revision == 0
    ensures s.node.machine == MACHINE.(applying := true, repairRequired := true)
  {
    hide Reachable;
    var before := Issued();
    var taken := Next(ISSUED, Deliver(true));
    Extend(START, before, ISSUED, Deliver(true));
    assert ValidId(EDIT.requestId);
    assert Received(NODE, EDIT, true).Ok?;
    assert taken.node.remote.pending == Some(EDIT) && taken.node.machine == MACHINE;
    s := Next(taken, Claim(true));
    Extend(START, before + [Deliver(true)], taken, Claim(true));
    events := before + [Deliver(true)] + [Claim(true)];
  }

  /** From an initial state, a run ends with a reported allocation the VM does not have. */
  lemma ReplacementReportsOld() returns (events: seq<Event>, s: Sys)
    ensures Initial(START) && Reachable(START, events, s)
    ensures s.node.machine.created && Effective(s.node.machine) == Some(SMALL) && s.vm == LARGE
    ensures !Honest(s) && !CarefulRun(START, events, s)
  {
    hide Reachable, CarefulRun;
    var before, started := Started();
    var ask := Owner(Replace(started.node));
    LostMark(started, LARGE);
    var asked := Next(started, ask);
    Extend(START, before, started, ask);
    s := Next(asked, Resize(LARGE, true));
    Extend(START, before + [ask], asked, Resize(LARGE, true));
    events := before + [ask] + [Resize(LARGE, true)];
    if CarefulRun(START, events, s) {
      EffectiveIsReal(START, events, s);
    }
  }
}
