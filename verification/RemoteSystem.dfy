/**
 A node and its controller together: owner changes, crashes, heartbeats that are answered
 late or never, and the supervisor's one task that delivers and carries out edits.
 */
module RemoteSystem {
  import opened Outcomes
  import opened RemoteModel
  import opened RemoteController

  /**
   What the supervisor is doing between two durable writes. A crash forgets it, and so does the
   end of a turn that leaves a storage change to the next one.
   */
  datatype Job =
    | NoJob
    | Resizing(edit: Edit)
    | Ready(edit: Edit)
    | Broken(edit: Edit)
    | Storing(edit: Edit)

  /** A committed policy edit: the policy it replaced and the revisions before and after. */
  datatype Entry = Entry(edit: Edit, from: Policy, at: nat, to: nat)

  /**
   `vm` is the allocation the hypervisor really has; `past` records what was saved under each
   revision and `log` every committed edit. Only the last report sent can still be answered.
   */
  datatype Sys = Sys(node: Config, job: Job, vm: Resources, past: map<nat, Saved>, log: seq<Entry>,
                     rows: seq<Row>, stored: Option<Report>,
                     sent: seq<Report>, outstanding: bool, reply: Option<Edit>)

  datatype Event =
    | Owner(change: OwnerChange)
    | Claim(allowed: bool)
    | Resize(vm: Resources, ok: bool)
    | Interrupt(vm: Resources)
    | Commit
    | GiveUp
    | StorageStart
    | StorageStep(storage: StorageChange)
    | StoragePause
    | StorageDone(result: Option<nat>)
    | StorageGiveUp
    | Crash
    | Recover
    | Send
    | Process(i: nat)
    | Deliver(allowed: bool)
    | Lose
    | Ask(edit: Edit, usable: bool)

  function Saves(s: Sys, c: Config): Sys {
    s.(node := c, past := s.past[c.revision := c.saved])
  }

  function ReportOf(c: Config): Report {
    Report(c.saved.consent, c.revision, Some(c.saved.policy), c.remote.receipts)
  }

  /** The supervisor acts only between heartbeats, and sends only between jobs. */
  predicate Enabled(s: Sys, e: Event) {
    match e
    case Owner(_) => true
    case Claim(_) => s.job.NoJob? && !s.outstanding && s.node.remote.pending.Some? &&
      s.node.remote.pending.value.operation.None?
    case Resize(vm, ok) => s.job.Resizing? && (ok ==> vm == s.job.edit.policy.resources)
    case Interrupt(_) => s.job.Resizing?
    case Commit => s.job.Ready?
    case GiveUp => s.job.Broken?
    case StorageStart => s.job.NoJob? && !s.outstanding && s.node.remote.pending.Some? &&
      s.node.remote.pending.value.operation.Some?
    case StorageStep(_) => s.job.Storing?
    case StoragePause => s.job.Storing?
    case StorageDone(_) => s.job.Storing?
    case StorageGiveUp => s.job.Storing?
    case Crash => true
    case Recover => s.job.NoJob? && !s.outstanding
    case Send => s.job.NoJob? && !s.outstanding
    case Process(i) => i < |s.sent|
    case Deliver(_) => s.job.NoJob? && s.outstanding && s.reply.Some?
    case Lose => s.outstanding
    case Ask(_, _) => true
  }

  function Next(s: Sys, e: Event): Sys
    requires Enabled(s, e)
  {
    match e
    case Owner(change) =>
      var c := OwnerUpdated(s.node, change);
      if c.Ok? then Saves(s, c.value) else s
    case Claim(allowed) =>
      var edit := s.node.remote.pending.value;
      var c := Claimed(s.node, edit, allowed);
      if c.Refused? then s.(job := Broken(edit))
      else Saves(s, c.value).(job := if c.value.machine.repairRequired then Resizing(edit) else Ready(edit))
    case Resize(vm, ok) => s.(vm := vm, job := if ok then Ready(s.job.edit) else Broken(s.job.edit))
    case Interrupt(vm) => s.(vm := vm, job := Broken(s.job.edit))
    case Commit =>
      var edit := s.job.edit;
      var c := Committed(s.node, edit);
      if c.Refused? then s.(job := Broken(edit))
      else Saves(s, c.value).(job := NoJob,
        log := s.log + [Entry(edit, s.node.saved.policy, s.node.revision, c.value.revision)])
    case GiveUp => Saves(s, Failed(s.node, s.job.edit)).(job := NoJob)
    case StorageStart => s.(job := Storing(s.node.remote.pending.value))
    case StorageStep(storage) =>
      var c := StorageWritten(s.node, s.job.edit, storage);
      if c.Ok? then Saves(s, c.value) else s
    case StoragePause => Saves(s, StoragePaused(s.node, s.job.edit))
    case StorageDone(result) =>
      var c := StorageFinished(s.node, s.job.edit, result);
      if c.Ok? then Saves(s, c.value).(job := NoJob) else s
    case StorageGiveUp => Saves(s, StorageFailed(s.node, s.job.edit)).(job := NoJob)
    case Crash => s.(job := NoJob, outstanding := false, reply := None)
    case Recover => Saves(s, Recovered(s.node))
    case Send => s.(sent := s.sent + [ReportOf(s.node)], outstanding := true, reply := None)
    case Process(i) =>
      var x := Exchange(s.rows, s.stored, s.sent[i]);
      if x.Refused? then s
      else
        var t := s.(rows := x.value.rows, stored := x.value.stored);
        if s.outstanding && i == |s.sent| - 1 then t.(reply := x.value.command) else t
    case Deliver(allowed) => Saves(s, Delivered(s.node, s.reply.value, allowed)).(outstanding := false, reply := None)
    case Lose => s.(outstanding := false, reply := None)
    case Ask(edit, usable) =>
      var rows := Requested(s.rows, s.stored, edit, usable);
      if rows.Ok? then s.(rows := rows.value) else s
  }

  /** The allocation believed in effect is the one the hypervisor has. */
  ghost predicate Verified(s: Sys) {
    s.node.machine.created && s.node.machine.allocation.Some? && !s.node.machine.repairRequired ==>
      s.vm == s.node.machine.allocation.value
  }

  /** An enrolled node that has never seen a remote edit. */
  ghost predicate Initial(s: Sys) {
    && s.node.remote == Remote(None, None, false, []) && !s.node.machine.applying && s.job == NoJob && s.log == []
    && s.past == map[s.node.revision := s.node.saved]
    && s.rows == [] && s.stored == None && s.sent == [] && !s.outstanding && s.reply == None
    && Verified(s)
  }

  /** The worker has a recorded allocation that is marked as unverified: a resize may have changed it. */
  predicate Unsettled(m: Machine) {
    m.created && m.repairRequired && m.allocation.Some?
  }

  /** Not a request for a replacement that is granted while a recorded allocation is unverified. */
  predicate Careful(s: Sys, e: Event) {
    e.Owner? && e.change.recreate && OwnerUpdated(s.node, e.change).Ok? ==> !Unsettled(s.node.machine)
  }

  ghost predicate Reachable(s0: Sys, events: seq<Event>, s: Sys)
    decreases |events|
  {
    if events == [] then s == s0
    else
      var last := |events| - 1;
      exists m :: Reachable(s0, events[..last], m) && Enabled(m, events[last]) && s == Next(m, events[last])
  }

  /** A run in which no replacement was granted while a recorded allocation was unverified. */
  ghost predicate CarefulRun(s0: Sys, events: seq<Event>, s: Sys)
    decreases |events|
  {
    if events == [] then s == s0
    else
      var last := |events| - 1;
      exists m :: CarefulRun(s0, events[..last], m) && Enabled(m, events[last]) && Careful(m, events[last]) &&
        s == Next(m, events[last])
  }
}
