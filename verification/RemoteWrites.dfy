/** What each durable write of the node does to the saved receipts, the pending edit and the revision. */
module RemoteWrites {
  import opened Outcomes
  import opened RemoteModel
  import opened RemoteController
  import opened RemoteSystem

  ghost predicate UniqueReceipts(receipts: seq<Receipt>) {
    forall i, k :: 0 <= i < k < |receipts| ==> receipts[i].requestId != receipts[k].requestId
  }

  ghost predicate HasPending(receipts: seq<Receipt>, id: string) {
    exists r <- receipts :: r.requestId == id && r.status == Pending
  }

  // ------------------------------------------------------------ receipt lists

  lemma {:induction false} WithoutFacts(receipts: seq<Receipt>, id: string)
    requires UniqueReceipts(receipts)
    ensures UniqueReceipts(Without(receipts, id))
    ensures HasReceipt(receipts, id) ==> |Without(receipts, id)| < |receipts|
  {
    if receipts != [] {
      var rest := receipts[1..];
      WithoutFacts(rest, id);
      if receipts[0].requestId != id {
        forall k | 0 <= k < |Without(rest, id)|
          ensures Without(rest, id)[k].requestId != receipts[0].requestId
        {
          assert Without(rest, id)[k] in rest;
        }
        assert HasReceipt(receipts, id) ==> HasReceipt(rest, id);
      }
    }
  }

  /** Recording never repeats an id; it forgets another request only when the id is new. */
  lemma RecordFacts(receipts: seq<Receipt>, receipt: Receipt)
    requires UniqueReceipts(receipts) && |receipts| <= MAX_RECEIPTS
    ensures UniqueReceipts(Record(receipts, receipt)) && |Record(receipts, receipt)| <= MAX_RECEIPTS
    ensures receipt in Record(receipts, receipt) && HasReceipt(Record(receipts, receipt), receipt.requestId)
    ensures forall r <- Record(receipts, receipt) :: r == receipt || (r in receipts && r.requestId != receipt.requestId)
    ensures HasReceipt(receipts, receipt.requestId) ==>
      forall r <- receipts :: r.requestId != receipt.requestId ==> r in Record(receipts, receipt)
  {
    var rest := Without(receipts, receipt.requestId);
    WithoutFacts(receipts, receipt.requestId);
    var all := rest + [receipt];
    forall i | 0 <= i < |rest|
      ensures rest[i].requestId != receipt.requestId
    {
      assert rest[i] in rest;
    }
    assert UniqueReceipts(all);
    assert all[|all| - 1] == receipt;
    if |all| > MAX_RECEIPTS {
      assert all[1..][|all| - 2] == receipt;
    } else {
      forall r <- receipts | r.requestId != receipt.requestId
        ensures r in all
      {
        assert r in rest;
      }
    }
  }


  // ----------------------------------------------------- what one write changes

  /** Bounded, one receipt a request. */
  ghost predicate Listed(receipts: seq<Receipt>) {
    UniqueReceipts(receipts) && |receipts| <= MAX_RECEIPTS
  }

  /** The receipts between writes: pending only for what is pending now, at the current revision. */
  ghost predicate ReceiptsSound(receipts: seq<Receipt>, pending: Option<Edit>, revision: nat) {
    && Listed(receipts)
    && (pending.Some? ==> HasPending(receipts, pending.value.requestId))
    && (forall r <- receipts :: r.status == Pending ==>
         pending.Some? && r.requestId == pending.value.requestId && r.revision == revision)
  }

  ghost predicate NodeReceipts(c: Config) {
    ReceiptsSound(c.remote.receipts, c.remote.pending, c.revision)
  }

  /** Only this request's receipt was rewritten, to this status at this revision; none was forgotten. */
  ghost predicate Acts(a: seq<Receipt>, b: seq<Receipt>, id: string, status: ReceiptStatus, revision: nat) {
    && Listed(b)
    && (forall r <- a :: r.requestId != id ==> r in b)
    && (HasReceipt(a, id) ==> HasReceipt(b, id))
    && (forall r <- b ::
         r in a || (r.requestId == id && HasReceipt(a, id) && r.status == status && r.revision == revision))
  }

  /** The revision stays when nothing saved under it moved, and otherwise moves by exactly one. */
  ghost predicate Advances(c: Config, d: Config) {
    (d.revision == c.revision && d.saved == c.saved) || d.revision == c.revision + 1
  }

  lemma PendingHas(receipts: seq<Receipt>, pending: Option<Edit>, revision: nat)
    requires ReceiptsSound(receipts, pending, revision)
    ensures pending.Some? ==> HasReceipt(receipts, pending.value.requestId)
    ensures Listed(receipts)
  {
  }

  lemma SameActs(receipts: seq<Receipt>, id: string, status: ReceiptStatus, revision: nat)
    requires Listed(receipts)
    ensures Acts(receipts, receipts, id, status, revision)
  {
  }

  /** Recording over a known receipt acts on it alone. */
  lemma RecordActs(receipts: seq<Receipt>, receipt: Receipt)
    requires Listed(receipts) && HasReceipt(receipts, receipt.requestId)
    ensures Acts(receipts, Record(receipts, receipt), receipt.requestId, receipt.status, receipt.revision)
    ensures receipt in Record(receipts, receipt)
  {
    RecordFacts(receipts, receipt);
  }

  /** When the pending request's receipt becomes terminal, no pending receipt is left. */
  lemma RecordEnds(receipts: seq<Receipt>, pending: Option<Edit>, revision: nat, receipt: Receipt)
    requires ReceiptsSound(receipts, pending, revision) && HasReceipt(receipts, receipt.requestId)
    requires receipt.status != Pending && (pending.Some? ==> pending.value.requestId == receipt.requestId)
    ensures forall v :: ReceiptsSound(Record(receipts, receipt), None, v)
  {
    RecordFacts(receipts, receipt);
  }

  lemma RecordNew(receipts: seq<Receipt>, revision: nat, receipt: Receipt, edit: Edit)
    requires ReceiptsSound(receipts, None, revision) && receipt.revision == revision
    requires receipt.requestId == edit.requestId
    requires receipt.status == Pending || receipt.status == Rejected
    ensures ReceiptsSound(Record(receipts, receipt), if receipt.status == Pending then Some(edit) else None, revision)
    ensures forall r <- Record(receipts, receipt) :: r == receipt || r in receipts
    ensures HasReceipt(Record(receipts, receipt), edit.requestId)
  {
    RecordFacts(receipts, receipt);
  }

  lemma StampKept(receipts: seq<Receipt>, stamped: seq<Receipt>, revision: nat)
    requires stamped == StampPending(receipts, revision)
    ensures forall r <- receipts :: r.status != Pending ==> r in stamped
    ensures forall r <- receipts :: r.status == Pending ==> HasPending(stamped, r.requestId)
    ensures forall r <- stamped :: r.status != Pending ==> r in receipts
    ensures forall r <- stamped :: r.status == Pending ==> HasPending(receipts, r.requestId)
    ensures UniqueReceipts(receipts) ==> UniqueReceipts(stamped)
  {
    forall r <- receipts
      ensures r.status != Pending ==> r in stamped
      ensures r.status == Pending ==> HasPending(stamped, r.requestId)
    {
      var i :| 0 <= i < |receipts| && receipts[i] == r;
      assert stamped[i] in stamped;
    }
    forall r <- stamped
      ensures r.status != Pending ==> r in receipts
      ensures r.status == Pending ==> HasPending(receipts, r.requestId)
    {
      var i :| 0 <= i < |stamped| && stamped[i] == r;
      assert receipts[i] in receipts;
    }
  }

  /** The first pending receipt is stamped. */
  lemma {:induction false} StampFirst(receipts: seq<Receipt>, revision: nat, i: nat)
    requires i < |receipts| && receipts[i].status == Pending
    requires forall k :: 0 <= k < i ==> receipts[k].status != Pending
    ensures StampPending(receipts, revision)[i] == receipts[i].(revision := revision)
  {
    if i > 0 {
      StampFirst(receipts[1..], revision, i - 1);
    }
  }

  lemma StampSound(receipts: seq<Receipt>, edit: Edit, before: nat, revision: nat)
    requires ReceiptsSound(receipts, Some(edit), before)
    ensures ReceiptsSound(StampPending(receipts, revision), Some(edit), revision)
    ensures Acts(receipts, StampPending(receipts, revision), edit.requestId, Pending, revision)
  {
    var stamped := StampPending(receipts, revision);
    StampKept(receipts, stamped, revision);
    forall r <- stamped | r.status == Pending
      ensures r.revision == revision && r.requestId == edit.requestId
    {
      var i :| 0 <= i < |stamped| && stamped[i] == r;
      assert receipts[i] in receipts && receipts[i].status == Pending;
      forall k | 0 <= k < i
        ensures receipts[k].status != Pending
      {
        assert receipts[k] in receipts;
      }
      StampFirst(receipts, revision, i);
    }
  }

  // ------------------------------------------------------------ write by write

  function PendingId(c: Config): string { if c.remote.pending.Some? then c.remote.pending.value.requestId else "" }

  /** An owner's write either leaves everything that is pending alone, or cancels it in the same write. */
  lemma OwnerFacts(c: Config, o: OwnerChange)
    requires NodeReceipts(c) && OwnerUpdated(c, o).Ok?
    ensures
      var d := OwnerUpdated(c, o).value;
      && Acts(c.remote.receipts, d.remote.receipts, PendingId(c), Rejected, d.revision) && Advances(c, d) &&
        NodeReceipts(d)
      && (d.remote.pending == None || (d.remote == c.remote && d.saved == c.saved && d.revision == c.revision))
      && (c.remote.pending == None ==> d.remote == c.remote)
  {
    hide Acts, ReceiptsSound, Record;
    var stamped := OwnerAfter(c, o).(revision := c.revision + 1);
    PendingHas(c.remote.receipts, c.remote.pending, c.revision);
    if c.remote.pending.Some? {
      var receipt := CancelReceipt(stamped, PendingId(c), Interrupted(stamped.machine, c.remote.storageStarted));
      RecordActs(c.remote.receipts, receipt);
      RecordEnds(c.remote.receipts, c.remote.pending, c.revision, receipt);
    } else {
      NonePending(c.remote.receipts, c.revision);
    }
    SameActs(c.remote.receipts, PendingId(c), Rejected, OwnerUpdated(c, o).value.revision);
  }

  lemma NonePending(receipts: seq<Receipt>, revision: nat)
    requires ReceiptsSound(receipts, None, revision)
    ensures forall v :: ReceiptsSound(receipts, None, v)
  {
  }

  lemma OwnerMachineFacts(c: Config, o: OwnerChange)
    requires OwnerUpdated(c, o).Ok?
    ensures
      var d := OwnerUpdated(c, o).value;
      && d.saved == OwnerAfter(c, o).saved
      && (d.machine == OwnerMachine(c.machine, o) ||
        d.machine == Interrupted(OwnerMachine(c.machine, o), c.remote.storageStarted))
  {
    hide Record, CancelReceipt, OwnerMachine, Interrupted;
  }

  /** The owner's change leaves the allocation alone, and clears its mark only for a replacement. */
  lemma OwnerAllocation(c: Config, o: OwnerChange)
    requires OwnerUpdated(c, o).Ok?
    ensures
      var d := OwnerUpdated(c, o).value;
      && d.machine.created == c.machine.created && d.machine.allocation == c.machine.allocation
      && d.machine.repairRequired == (c.machine.repairRequired && !o.recreate)
  {
    hide Update;
    OwnerMachineFacts(c, o);
  }

  lemma StorageFacts(c: Config, edit: Edit, change: StorageChange)
    requires NodeReceipts(c) && StorageWritten(c, edit, change).Ok?
    ensures
      var d := StorageWritten(c, edit, change).value;
      && c.remote.pending == d.remote.pending == Some(edit) && Authorized(c, edit) && Authorized(d, edit)
      && Acts(c.remote.receipts, d.remote.receipts, edit.requestId, Pending, d.revision) && Advances(c, d) &&
        NodeReceipts(d)
      && d.machine == c.machine.(work := change.work, storageDown := change.storageDown) &&
        d.saved.recreation == c.saved.recreation
  {
    hide Acts, ReceiptsSound, StampPending;
    PendingHas(c.remote.receipts, c.remote.pending, c.revision);
    SameActs(c.remote.receipts, edit.requestId, Pending, c.revision);
    StampSound(c.remote.receipts, edit, c.revision, c.revision + 1);
  }

  lemma ClaimFacts(c: Config, edit: Edit, allowed: bool)
    requires Claimed(c, edit, allowed).Ok?
    ensures
      var d := Claimed(c, edit, allowed).value;
      && d == c.(machine := c.machine.(applying := true, repairRequired := d.machine.repairRequired))
      && (d.machine.repairRequired <==> c.machine.created && c.machine.allocation != Some(edit.policy.resources))
      && !c.machine.repairRequired && !c.saved.recreation
  {
    hide ValidId, HasReceipt;
  }

  /** The write that applies an edit applies all of it, under the revision it was made for. */
  lemma CommitFacts(c: Config, edit: Edit)
    requires NodeReceipts(c) && Committed(c, edit).Ok?
    ensures
      var d := Committed(c, edit).value;
      && c.remote.pending == Some(edit) && c.saved.consent && c.revision == edit.expectedRevision
      && d.remote.pending == None && d.saved == c.saved.(policy := edit.policy)
      && d.machine == CommitMachine(c.machine, edit)
      && d.revision == c.revision + (if c.saved.policy != edit.policy then 1 else 0)
      && Receipt(edit.requestId, Applied, d.revision, None, edit.policy, Effective(d.machine)) in d.remote.receipts
      && Acts(c.remote.receipts, d.remote.receipts, edit.requestId, Applied, d.revision) && Advances(c, d) &&
        NodeReceipts(d)
  {
    hide Acts, ReceiptsSound, Record, Effective;
    var revision := c.revision + (if c.saved.policy != edit.policy then 1 else 0);
    var receipt := Receipt(edit.requestId, Applied, revision, None, edit.policy,
      Effective(CommitMachine(c.machine, edit)));
    PendingHas(c.remote.receipts, c.remote.pending, c.revision);
    RecordActs(c.remote.receipts, receipt);
    RecordEnds(c.remote.receipts, c.remote.pending, c.revision, receipt);
  }

  lemma FailFacts(c: Config, edit: Edit)
    requires NodeReceipts(c) && HasReceipt(c.remote.receipts, edit.requestId)
    requires c.remote.pending.Some? ==> c.remote.pending.value == edit
    ensures
      var d := Failed(c, edit);
      && Acts(c.remote.receipts, d.remote.receipts, edit.requestId, Rejected, d.revision) && NodeReceipts(d)
      && d.revision == c.revision && d.saved == c.saved && d.remote.pending == None &&
        d.machine == FailMachine(c.machine)
  {
    hide Acts, ReceiptsSound, Record, Effective, HasReceipt;
    PendingHas(c.remote.receipts, c.remote.pending, c.revision);
    var receipt := NewReceipt(c.(machine := FailMachine(c.machine)), edit.requestId, Rejected);
    RecordActs(c.remote.receipts, receipt);
    RecordEnds(c.remote.receipts, c.remote.pending, c.revision, receipt);
  }

  lemma RecoverFacts(c: Config)
    requires NodeReceipts(c)
    ensures
      var d := Recovered(c);
      && Acts(c.remote.receipts, d.remote.receipts, PendingId(c), Rejected, d.revision) && NodeReceipts(d)
      && d.revision == c.revision && d.saved == c.saved
      && (c.remote.pending == None ==> d.remote == c.remote)
      && (d == c || (d.remote.pending == None &&
        d.machine == c.machine.(applying := false, repairRequired := true, allocation := None)))
  {
    hide Acts, ReceiptsSound, Record, HasReceipt;
    PendingHas(c.remote.receipts, c.remote.pending, c.revision);
    SameActs(c.remote.receipts, PendingId(c), Rejected, c.revision);
    if c.remote.pending.Some? {
      var receipt := Receipt(PendingId(c), Rejected, c.revision, None, c.saved.policy, None);
      RecordActs(c.remote.receipts, receipt);
      RecordEnds(c.remote.receipts, c.remote.pending, c.revision, receipt);
    }
  }

  lemma FinishFacts(c: Config, edit: Edit, status: ReceiptStatus, result: Option<nat>)
    requires NodeReceipts(c) && HasReceipt(c.remote.receipts, edit.requestId) && status != Pending
    requires c.remote.pending.Some? ==> c.remote.pending.value == edit
    ensures
      var d := FinishAfter(c, edit, status, result);
      && Acts(c.remote.receipts, d.remote.receipts, edit.requestId, status, d.revision) && NodeReceipts(d)
      && d.revision == c.revision && d.saved == c.saved && d.remote.pending == None && d.machine == c.machine
  {
    hide Acts, ReceiptsSound, Record, HasReceipt, Effective;
    PendingHas(c.remote.receipts, c.remote.pending, c.revision);
    var receipt := NewReceipt(c, edit.requestId, status).(result := result);
    RecordActs(c.remote.receipts, receipt);
    RecordEnds(c.remote.receipts, c.remote.pending, c.revision, receipt);
  }

  /** A delivered request the node has never seen is either taken up as pending or rejected. */
  lemma DeliverFacts(c: Config, edit: Edit, allowed: bool)
    requires NodeReceipts(c) && c.remote.pending == None && !HasReceipt(c.remote.receipts, edit.requestId)
    ensures
      var d := Delivered(c, edit, allowed);
      && d.revision == c.revision && d.saved == c.saved && d.machine == c.machine && NodeReceipts(d)
      && (d.remote.pending == None || d.remote.pending == Some(edit))
      && (d.remote.pending.Some? ==>
        d.remote.execution == None && c.saved.consent && edit.expectedRevision == c.revision)
      && (forall r <- d.remote.receipts :: r in c.remote.receipts ||
           (r.requestId == edit.requestId && r.revision == d.revision && (r.status == Pending || r.status == Rejected)))
      && HasReceipt(d.remote.receipts, edit.requestId)
  {
    hide ReceiptsSound, Record, HasReceipt, ValidRuntime, ValidId, Effective;
    RecordNew(c.remote.receipts, c.revision, NewReceipt(c, edit.requestId, Pending), edit);
    RecordNew(c.remote.receipts, c.revision, NewReceipt(c, edit.requestId, Rejected), edit);
  }
}
