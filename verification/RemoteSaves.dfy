/** The write path said exactly: which writes are saved, and what each one saves beside the change itself. */
module RemoteSaves {
  import opened Outcomes
  import opened RemoteModel
  import opened RemoteController
  import opened RemoteSystem
  import opened RemoteWrites
  import opened RemoteInvariant
  import opened RemoteOutcome
  import opened RemoteUptake
  import RemoteAgreement

  /** Nothing that the revision stands for has moved. */
  ghost predicate Unmoved(a: Config, b: Config) {
    a.revision == b.revision && a.saved == b.saved
  }

  /** The request is the one pending, with consent, at the revision of its last write or the one it was made for. */
  ghost predicate Granted(c: Config, edit: Edit) {
    && c.saved.consent && c.remote.pending == Some(edit)
    && match c.remote.execution
       case Some(revision) => c.revision == revision
       case None => c.revision == edit.expectedRevision
  }

  /** The first pending receipt alone is at another revision. */
  ghost predicate Restamped(a: seq<Receipt>, b: seq<Receipt>, revision: nat) {
    if exists r <- a :: r.status == Pending then
      exists k: nat :: FirstPending(a, k) && b == a[k := a[k].(revision := revision)]
    else b == a
  }

  ghost predicate FirstPending(a: seq<Receipt>, k: nat) {
    k < |a| && a[k].status == Pending && forall l :: 0 <= l < k ==> a[l].status != Pending
  }

  lemma {:induction false} StampAt(before: seq<Receipt>, r: Receipt, after: seq<Receipt>, revision: nat)
    requires r.status == Pending && forall i :: 0 <= i < |before| ==> before[i].status != Pending
    ensures StampPending(before + [r] + after, revision) == before + [r.(revision := revision)] + after
  {
    var all := before + [r] + after;
    if before == [] {
      assert all[0] == r && all[1..] == after;
    } else {
      assert all[0] == before[0] && all[1..] == before[1..] + [r] + after;
      StampAt(before[1..], r, after, revision);
      assert [before[0]] + (before[1..] + [r.(revision := revision)] + after) ==
        before + [r.(revision := revision)] + after;
    }
  }

  lemma {:induction false} StampNone(a: seq<Receipt>, revision: nat)
    requires forall i :: 0 <= i < |a| ==> a[i].status != Pending
    ensures StampPending(a, revision) == a
  {
    if a != [] {
      StampNone(a[1..], revision);
      assert a == [a[0]] + a[1..];
    }
  }

  lemma {:induction false} FirstOf(a: seq<Receipt>) returns (k: nat)
    ensures k <= |a| && (forall l :: 0 <= l < k ==> a[l].status != Pending)
    ensures k < |a| ==> a[k].status == Pending
  {
    k := 0;
    if a != [] && a[0].status != Pending {
      k := FirstOf(a[1..]);
      k := k + 1;
    }
  }

  lemma StampIs(a: seq<Receipt>, revision: nat)
    ensures Restamped(a, StampPending(a, revision), revision)
  {
    hide StampPending;
    var k := FirstOf(a);
    if k < |a| {
      assert FirstPending(a, k) && a[k] in a;
      StampAt(a[..k], a[k], a[k + 1..], revision);
      assert a[..k] + [a[k]] + a[k + 1..] == a;
      assert a[..k] + [a[k].(revision := revision)] + a[k + 1..] == a[k := a[k].(revision := revision)];
    } else {
      StampNone(a, revision);
    }
  }

  /** A request's own write: it stays pending, and the new revision is the one it goes on from. */
  ghost predicate Carried(before: Config, after: Config, d: Config) {
    && d == after.(revision := before.revision + 1, remote := d.remote)
    && d.remote.pending == after.remote.pending && d.remote.execution == Some(before.revision + 1)
    && (d.remote.storageStarted <==>
         after.remote.storageStarted || before.saved.storageRevision != after.saved.storageRevision)
    && Restamped(after.remote.receipts, d.remote.receipts, before.revision + 1)
  }

  /** Anyone else's write: whatever was pending is rejected in it, and a phase it had begun is paused. */
  ghost predicate Overtaken(before: Config, after: Config, d: Config) {
    && d == after.(revision := before.revision + 1, remote := d.remote, machine := d.machine)
    && if after.remote.pending.None? then d.remote == after.remote && d.machine == after.machine
       else
         && d.machine == after.machine.(work := d.machine.work)
         && d.remote.pending.None? && d.remote.execution.None? && !d.remote.storageStarted
         && (!after.remote.storageStarted ==> d.machine.work == after.machine.work)
         && (after.remote.storageStarted && after.machine.work.Running? ==> d.machine.work == Running(true))
         && (after.remote.storageStarted && !after.machine.work.Running? ==> d.machine.work == NoWork)
         && exists r: Receipt :: Recorded(after.remote.receipts, r, d.remote.receipts) &&
              Rejection(r, after.remote.pending.value.requestId, d)
  }

  ghost predicate Rejection(r: Receipt, id: string, d: Config) {
    && r.requestId == id && r.status == Rejected && r.revision == d.revision && r.result == None
    && r.effectivePolicy == d.saved.policy
    && r.effectiveResources == if d.machine.applying || !d.machine.work.NoWork? then None else d.machine.allocation
  }

  /**
   Every write: a request's only while it is granted; unstamped exactly when nothing the revision stands
   for has moved; refused when the revision is used up; and otherwise at the next revision, either
   carrying the request on or overtaking it.
   */
  lemma UpdateIs(before: Config, scope: Option<Edit>, after: Config)
    requires Listed(after.remote.receipts)
    ensures
      var r := Update(before, scope, after);
      if scope.Some? && !Granted(before, scope.value) then r.Refused?
      else if Unmoved(before, after) then r == Ok(after)
      else if before.revision + 1 < 18446744073709551616 then
        r.Ok? && if scope.Some? then Carried(before, after, r.value) else Overtaken(before, after, r.value)
      else r.Refused?
  {
    hide Recorded, Record, Restamped, StampPending;
    if !Unmoved(before, after) && before.revision + 1 < 18446744073709551616 {
      StampIs(after.remote.receipts, before.revision + 1);
      if scope.None? && after.remote.pending.Some? {
        var stamped := after.(revision := before.revision + 1);
        var id := after.remote.pending.value.requestId;
        var receipt := CancelReceipt(stamped, id, Interrupted(stamped.machine, after.remote.storageStarted));
        RecordIs(after.remote.receipts, receipt);
        assert Rejection(receipt, id, Update(before, None, after).value);
      }
    }
  }

  /** Receiving an edit again changes nothing; while another is pending, or once it was answered, it is refused. */
  lemma ReceivedIs(c: Config, edit: Edit, allowed: bool)
    ensures
      var r := Received(c, edit, allowed);
      if c.remote.pending == Some(edit) then r == Ok(c)
      else if c.remote.pending.Some? || HasReceipt(c.remote.receipts, edit.requestId) then r.Refused?
      else r.Ok? <==> MayTakeUp(c, edit, allowed)
  {
    hide ValidEdit, ValidRuntime, MayTakeUp, HasReceipt, Record, Effective;
    UptakeIs(c, edit, allowed);
  }

  /** And it is answered at most once. */
  lemma AnsweredOnce(c: Config, edit: Edit, allowed: bool)
    requires NodeReceipts(c)
    ensures
      var d := Delivered(c, edit, allowed);
      if c.remote.pending == Some(edit) || HasReceipt(c.remote.receipts, edit.requestId) then d == c
      else if c.remote.pending.Some? then
        && d == c.(remote := c.remote.(receipts := d.remote.receipts))
        && Recorded(c.remote.receipts, NewReceipt(c, edit.requestId, Rejected), d.remote.receipts)
      else d.remote.pending == if MayTakeUp(c, edit, allowed) then Some(edit) else None
  {
    hide ValidEdit, ValidRuntime, MayTakeUp, HasReceipt, Record, Effective, Recorded, ReceiptsSound;
    ReceivedIs(c, edit, allowed);
    UptakeIs(c, edit, allowed);
    PendingHas(c.remote.receipts, c.remote.pending, c.revision);
    RecordIs(c.remote.receipts, NewReceipt(c, edit.requestId, Rejected));
  }

  // ---------------------------------------------------------- each write of a run

  /** The edit is pending, with consent, at the revision it was made for. */
  predicate Current(c: Config, edit: Edit) {
    c.saved.consent && c.remote.pending == Some(edit) && c.revision == edit.expectedRevision
  }

  /** The next revision can still be counted. */
  predicate Room(c: Config) { c.revision < 18446744073709551615 }

  /**
   The committing write is made exactly while the edit is pending, with consent, at the revision it was
   made for. It replaces the policy, settles the machine on the edit's resources if there is one, and
   changes nothing else but the request's own bookkeeping.
   */
  lemma CommitIs(c: Config, edit: Edit)
    requires NodeReceipts(c)
    ensures
      var r := Committed(c, edit);
      && (r.Ok? <==> Current(c, edit) && (c.saved.policy == edit.policy || Room(c)))
      && (r.Ok? ==>
           && r.value == Config(r.value.revision, c.saved.(policy := edit.policy), r.value.remote, r.value.machine)
           && r.value.revision == (if c.saved.policy == edit.policy then c.revision else c.revision + 1)
           && r.value.remote == c.remote.(pending := None, receipts := r.value.remote.receipts)
           && r.value.machine == c.machine.(applying := false, repairRequired := false,
                allocation := if c.machine.created then Some(edit.policy.resources) else c.machine.allocation))
  {
    hide Record, ReceiptsSound, Effective;
  }

  /** A failure forgets an allocation that is in doubt, and nothing of the edit is saved. */
  lemma FailIs(c: Config, edit: Edit)
    ensures
      var d := Failed(c, edit);
      && d == c.(remote := c.remote.(pending := None, receipts := d.remote.receipts), machine := d.machine)
      && d.machine == c.machine.(applying := false, allocation := if c.machine.repairRequired then None
           else c.machine.allocation)
  {
    hide Record, Effective;
  }

  /** Recovery is for an application that was cut: the allocation is forgotten and the request rejected. */
  lemma RecoverIs(c: Config)
    ensures
      var d := Recovered(c);
      if !c.machine.applying then d == c
      else
        && d.machine == c.machine.(applying := false, repairRequired := true, allocation := None)
        && d == c.(remote := c.remote.(pending := None, receipts := d.remote.receipts), machine := d.machine)
        && (c.remote.pending.None? ==> d.remote == c.remote)
  {
    hide Record;
  }

  /** Before the VM is touched the application is marked, and the allocation with it if it will change. */
  lemma ClaimIs(c: Config, edit: Edit, allowed: bool)
    requires MayTakeUp(c, edit, allowed)
    ensures Claimed(c, edit, allowed) == Ok(c.(machine := c.machine.(applying := true,
      repairRequired := c.machine.created && c.machine.allocation != Some(edit.policy.resources))))
  {
    hide ValidEdit, ValidRuntime;
    UptakeIs(c, edit, allowed);
  }

  /** A storage request ends by its own receipt; it takes its bookkeeping with it only if it is still pending. */
  lemma FinishIs(c: Config, edit: Edit, status: ReceiptStatus, result: Option<nat>)
    ensures
      var d := FinishAfter(c, edit, status, result);
      && d == c.(remote := d.remote)
      && d.remote == if c.remote.pending == Some(edit) then Remote(None, None, false, d.remote.receipts)
           else c.remote.(receipts := d.remote.receipts)
  {
    hide Record, Effective;
  }

  /** A storage step is saved while its request is granted, and saves the step and no other setting. */
  lemma StepIs(c: Config, edit: Edit, s: StorageChange)
    requires NodeReceipts(c)
    ensures
      var r := StorageWritten(c, edit, s);
      var saved := Saved(s.policy, c.saved.consent, s.choices, s.storageRevision, c.saved.recreation, c.saved.updating);
      && (r.Ok? <==> Granted(c, edit) && (saved == c.saved || Room(c)))
      && (r.Ok? ==> r.value.saved == saved && r.value.revision == (if saved == c.saved then c.revision
           else c.revision + 1))
      && (r.Ok? ==> r.value.machine == c.machine.(work := s.work, storageDown := s.storageDown))
      && (r.Ok? && saved != c.saved && s.storageRevision != c.saved.storageRevision ==> r.value.remote.storageStarted)
  {
    hide Restamped, StampPending, ReceiptsSound;
    assert Listed(c.remote.receipts) by { PendingHas(c.remote.receipts, c.remote.pending, c.revision); }
    UpdateIs(c, Some(edit), StorageAfter(c, s));
  }

  /** What the owner's change makes of the worker, before anything is cancelled. */
  ghost predicate OwnersWorker(m: Machine, o: OwnerChange, n: Machine) {
    n == Machine(if o.recreate then false else m.applying, if o.recreate then false else m.repairRequired, m.allocation,
      m.created, m.configured, m.lima, m.pooled, o.busy, o.work, o.storageDown)
  }

  lemma AfterIs(c: Config, o: OwnerChange)
    ensures
      var after := OwnerAfter(c, o);
      var saved := o.saved.(recreation := c.saved.recreation || o.recreate);
      && after.saved == saved && after.remote == c.remote && after.revision == (if o.bump then c.revision + 1 else
        c.revision)
      && OwnersWorker(c.machine, o, after.machine) && after.machine.work == o.work
      && (Unmoved(c, after) <==> !o.bump && saved == c.saved)
  {
  }

  lemma WorkApart(m: Machine, o: OwnerChange, n: Machine, w: Machine)
    requires OwnersWorker(m, o, n) && w == n.(work := w.work)
    ensures OwnersWorker(m, o, w.(work := o.work))
  {
  }

  /** An owner's change is always saved, but that a second replacement is refused and a used-up revision stays. */
  lemma OwnerIs(c: Config, o: OwnerChange)
    requires NodeReceipts(c)
    ensures
      var r := OwnerUpdated(c, o);
      var replaced := c.saved.recreation || o.recreate;
      var moved := o.bump || o.saved.(recreation := replaced) != c.saved;
      && (r.Ok? <==> !(o.recreate && c.saved.recreation) && (moved ==> Room(c)))
      && (r.Ok? ==> r.value.saved == o.saved.(recreation := replaced))
      && (r.Ok? ==> r.value.revision == if moved then c.revision + 1 else c.revision)
      && (r.Ok? ==> OwnersWorker(c.machine, o, r.value.machine.(work := o.work)))
      && (r.Ok? && !moved ==> r.value.remote == c.remote && r.value.machine.work == o.work)
      && (r.Ok? && moved ==> r.value.remote.pending.None?)
  {
    hide Recorded, ReceiptsSound, Update, OwnerAfter, OwnersWorker, Rejection, Unmoved;
    assert Listed(c.remote.receipts) by { PendingHas(c.remote.receipts, c.remote.pending, c.revision); }
    AfterIs(c, o);
    var after := OwnerAfter(c, o);
    UpdateIs(c, None, after);
    if OwnerUpdated(c, o).Ok? {
      WorkApart(c.machine, o, after.machine, OwnerUpdated(c, o).value.machine);
    }
  }

  // ------------------------------------------------------ what the controller shows

  lemma PastShape(s: Sys, e: Event)
    requires Enabled(s, e)
    ensures Next(s, e).past == s.past || Next(s, e).past == s.past[Next(s, e).node.revision := Next(s, e).node.saved]
    ensures Next(s, e).sent == s.sent || (e.Send? && Next(s, e).sent == s.sent + [ReportOf(s.node)])
    ensures e.Process? || Next(s, e).stored == s.stored
  {
    hide OwnerUpdated, Claimed, Committed, Failed, Recovered, Delivered, StorageWritten, StorageFinished, StorageFailed;
    hide StoragePaused, Exchange, Requested, ReportOf;
  }

  /** What a revision stood for is never rewritten. */
  lemma PastStays(s: Sys, e: Event)
    requires Sound(s) && Enabled(s, e)
    ensures forall k <- s.past :: k in Next(s, e).past && Next(s, e).past[k] == s.past[k]
  {
    hide Next, Enabled, NetSound, LogSound, ReceiptsSound;
    PastShape(s, e);
    RemoteAgreement.RevisionStep(s, e);
  }

  /** A report shows the policy its revision stands for. */
  ghost predicate Shows(h: Report, past: map<nat, Saved>) {
    h.revision in past && h.consent == past[h.revision].consent && h.policy == Some(past[h.revision].policy)
  }

  /** All reports sent do, and so does the one kept, unless consent is missing: then no policy is kept. */
  ghost predicate ShowsTrue(s: Sys) {
    && (forall h <- s.sent :: Shows(h, s.past))
    && (s.stored.Some? ==>
         if s.stored.value.consent then Shows(s.stored.value, s.past) else s.stored.value.policy == None)
  }

  lemma ShowsStill(s: Sys, e: Event)
    requires Sound(s) && Enabled(s, e) && ShowsTrue(s) && !e.Process?
    ensures ShowsTrue(Next(s, e))
  {
    hide Next, Enabled, NetSound, LogSound, ReceiptsSound;
    PastShape(s, e);
    PastStays(s, e);
  }

  lemma ShowsProcessed(s: Sys, i: nat)
    requires ShowsTrue(s) && Enabled(s, Process(i))
    ensures ShowsTrue(Next(s, Process(i)))
  {
    hide AcknowledgeAll, CommandFor, Settled, Readable;
  }

  /** In every run the controller shows the settings its revision stands for, and nothing without consent. */
  lemma {:induction false} SettingsShown(s0: Sys, events: seq<Event>, s: Sys)
    requires Initial(s0) && Reachable(s0, events, s)
    ensures ShowsTrue(s)
    decreases |events|
  {
    hide Sound, Next, Enabled;
    if events != [] {
      var last := |events| - 1;
      var m :| Reachable(s0, events[..last], m) && Enabled(m, events[last]) && s == Next(m, events[last]);
      SettingsShown(s0, events[..last], m);
      hide ShowsTrue;
      RemoteAgreement.SoundInitially(s0);
      RemoteAgreement.SoundAlways(s0, events[..last], m);
      if events[last].Process? {
        ShowsProcessed(m, events[last].i);
      } else {
        ShowsStill(m, events[last]);
      }
    }
  }
}
