/**
 The node's saved settings as the agent changes them: every operation edits the loaded copy and
 lets one write path stamp the revision, cancel what the owner overtook, and save it.
 Sources: crates/agent/src/store.rs, crates/agent/src/remote.rs, crates/agent/src/remote_storage.rs.
 */
module RemoteNode {
  import opened Outcomes
  import opened RemoteModel

  lemma {:induction false} WithoutGrows(receipts: seq<Receipt>, r: Receipt, id: string)
    ensures Without(receipts + [r], id) == Without(receipts, id) + if r.requestId == id then [] else [r]
  {
    if receipts == [] {
      assert [r][1..] == [];
    } else {
      assert (receipts + [r])[1..] == receipts[1..] + [r];
      WithoutGrows(receipts[1..], r, id);
    }
  }

  lemma {:induction false} StampAt(receipts: seq<Receipt>, revision: nat, i: nat)
    requires i <= |receipts| && forall k :: 0 <= k < i ==> receipts[k].status != Pending
    requires i < |receipts| ==> receipts[i].status == Pending
    ensures StampPending(receipts, revision) ==
      if i < |receipts| then receipts[i := receipts[i].(revision := revision)] else receipts
  {
    if i > 0 {
      StampAt(receipts[1..], revision, i - 1);
    } else if receipts != [] {
      assert receipts[0 := receipts[0].(revision := revision)] == [receipts[0].(revision := revision)] + receipts[1..];
    }
  }

  class Settings {
    var revision: nat
    var saved: Saved
    var pending: Option<Edit>
    var execution: Option<nat>
    var storageStarted: bool
    var receipts: seq<Receipt>
    var machine: Machine

    function Snapshot(): Config
      reads this
    {
      Config(revision, saved, Remote(pending, execution, storageStarted, receipts), machine)
    }

    constructor (c: Config)
      ensures Snapshot() == c
    {
      revision, saved, machine := c.revision, c.saved, c.machine;
      pending, execution, storageStarted, receipts := c.remote.pending, c.remote.execution, c.remote.storageStarted,
        c.remote.receipts;
    }

    /** Keep the other requests' receipts, add this one, and let the oldest go beyond sixty-four. */
    method AddReceipt(receipt: Receipt)
      modifies this`receipts
      ensures receipts == Record(old(receipts), receipt)
    {
      var kept: seq<Receipt> := [];
      for i := 0 to |receipts|
        invariant receipts == old(receipts)
        invariant kept == Without(receipts[..i], receipt.requestId)
      {
        WithoutGrows(receipts[..i], receipts[i], receipt.requestId);
        assert receipts[..i + 1] == receipts[..i] + [receipts[i]];
        if receipts[i].requestId != receipt.requestId { kept := kept + [receipts[i]]; }
      }
      assert receipts[..|receipts|] == receipts;
      receipts := kept + [receipt];
      if |receipts| > MAX_RECEIPTS { receipts := receipts[1..]; }
    }

    /** The first pending receipt takes the revision of a write made under its own authority. */
    method StampReceipt(stamp: nat)
      modifies this`receipts
      ensures receipts == StampPending(old(receipts), stamp)
    {
      var i := 0;
      while i < |receipts| && receipts[i].status != Pending
        invariant i <= |receipts| && receipts == old(receipts)
        invariant forall k :: 0 <= k < i ==> receipts[k].status != Pending
      {
        i := i + 1;
      }
      StampAt(receipts, stamp, i);
      if i < |receipts| { receipts := receipts[i := receipts[i].(revision := stamp)]; }
    }

    method Discard(before: Config)
      modifies this
      ensures Snapshot() == before
    {
      revision, saved, machine := before.revision, before.saved, before.machine;
      pending, execution, storageStarted, receipts :=
        before.remote.pending, before.remote.execution, before.remote.storageStarted, before.remote.receipts;
    }

    /** What an owner's write does to a pending request. */
    method CancelPending()
      modifies this
      ensures Snapshot() == Cancelled(old(Snapshot()))
    {
      hide Record;
      if pending.Some? {
        var id := pending.value.requestId;
        pending := None;
        if storageStarted { machine := machine.(work := Paused(machine.work)); }
        execution := None;
        storageStarted := false;
        AddReceipt(Receipt(id, Rejected, revision, None, saved.policy,
                           if machine.applying || machine.work != NoWork then None else machine.allocation));
      }
    }

    /** The end of every update: the edited copy is stamped and saved, or dropped. */
    method Save(before: Config, scope: Option<Edit>) returns (ok: bool)
      modifies this
      ensures
        var u := Update(before, scope, old(Snapshot()));
        ok == u.Ok? && Snapshot() == if ok then u.value else before
    {
      hide Record, StampPending, Cancelled;
      if scope.Some? && !Authorized(before, scope.value) {
        Discard(before);
        return false;
      }
      if before.saved == saved && before.revision == revision { return true; }
      if before.revision + 1 >= U64 {
        Discard(before);
        return false;
      }
      revision := before.revision + 1;
      if scope.Some? {
        execution := Some(revision);
        if before.saved.storageRevision != saved.storageRevision { storageStarted := true; }
        StampReceipt(revision);
      } else {
        CancelPending();
      }
      ok := true;
    }

    method OwnerChanges(o: OwnerChange) returns (ok: bool)
      modifies this
      ensures
        var u := OwnerUpdated(old(Snapshot()), o);
        ok == u.Ok? && Snapshot() == if ok then u.value else old(Snapshot())
    {
      hide Update;
      if o.recreate && saved.recreation { return false; }
      var before := Snapshot();
      saved := o.saved.(recreation := saved.recreation || o.recreate);
      if o.bump { revision := revision + 1; }
      machine := machine.(busy := o.busy, work := o.work, storageDown := o.storageDown);
      if o.recreate { machine := machine.(repairRequired := false, applying := false); }
      ok := Save(before, None);
    }

    method Receive(edit: Edit, allowed: bool) returns (ok: bool)
      modifies this
      ensures
        var u := Received(old(Snapshot()), edit, allowed);
        ok == u.Ok? && Snapshot() == if ok then u.value else old(Snapshot())
    {
      hide Update, Record, ValidRuntime, ValidId, Effective;
      if pending.Some? { return pending.value == edit; }
      if HasReceipt(receipts, edit.requestId) { return false; }
      if !ValidEdit(edit, saved.policy, saved.consent, revision, allowed) ||
        !ValidRuntime(Snapshot(), edit) { return false; }
      var before := Snapshot();
      AddReceipt(NewReceipt(before, edit.requestId, Pending));
      execution := None;
      storageStarted := false;
      pending := Some(edit);
      ok := Save(before, None);
    }

    /** An issued edit that cannot be taken up is answered with a rejection, once. */
    method Deliver(edit: Edit, allowed: bool)
      modifies this
      ensures Snapshot() == Delivered(old(Snapshot()), edit, allowed)
    {
      hide Received, Record, Effective;
      var ok := Receive(edit, allowed);
      if !ok && !HasReceipt(receipts, edit.requestId) {
        AddReceipt(NewReceipt(Snapshot(), edit.requestId, Rejected));
      }
    }

    method Claim(edit: Edit, allowed: bool) returns (ok: bool)
      modifies this
      ensures
        var u := Claimed(old(Snapshot()), edit, allowed);
        ok == u.Ok? && Snapshot() == if ok then u.value else old(Snapshot())
    {
      hide Update, ValidRuntime, ValidId;
      if !ValidEdit(edit, saved.policy, saved.consent, revision, allowed) ||
        !ValidRuntime(Snapshot(), edit) { return false; }
      var before := Snapshot();
      machine := machine.(applying := true);
      if machine.created && machine.allocation != Some(edit.policy.resources) {
        machine := machine.(repairRequired := true);
      }
      ok := Save(before, None);
    }

    method Commit(edit: Edit) returns (ok: bool)
      modifies this
      ensures
        var u := Committed(old(Snapshot()), edit);
        ok == u.Ok? && Snapshot() == if ok then u.value else old(Snapshot())
    {
      hide Update, Record, Effective;
      if !saved.consent || revision != edit.expectedRevision || pending != Some(edit) { return false; }
      var before := Snapshot();
      var next := revision + (if saved.policy != edit.policy then 1 else 0);
      pending := None;
      machine := machine.(applying := false, repairRequired := false);
      if machine.created { machine := machine.(allocation := Some(edit.policy.resources)); }
      saved := saved.(policy := edit.policy);
      AddReceipt(Receipt(edit.requestId, Applied, next, None, saved.policy, Effective(machine)));
      ok := Save(before, None);
    }

    method Fail(edit: Edit)
      modifies this
      ensures Snapshot() == Failed(old(Snapshot()), edit)
    {
      hide Record, Effective;
      if machine.repairRequired { machine := machine.(allocation := None); }
      machine := machine.(applying := false);
      pending := None;
      AddReceipt(NewReceipt(Snapshot(), edit.requestId, Rejected));
    }

    method RecoverInterrupted()
      modifies this
      ensures Snapshot() == Recovered(old(Snapshot()))
    {
      hide Record;
      if machine.applying {
        machine := machine.(applying := false, repairRequired := true, allocation := None);
        if pending.Some? {
          var id := pending.value.requestId;
          pending := None;
          AddReceipt(Receipt(id, Rejected, revision, None, saved.policy, None));
        }
      }
    }

    /** One durable step of the storage lifecycle, made for a remote request. */
    method StorageStep(edit: Edit, s: StorageChange) returns (ok: bool)
      modifies this
      ensures
        var u := StorageWritten(old(Snapshot()), edit, s);
        ok == u.Ok? && Snapshot() == if ok then u.value else old(Snapshot())
    {
      hide Update;
      var before := Snapshot();
      saved := saved.(policy := s.policy, choices := s.choices, storageRevision := s.storageRevision);
      machine := machine.(work := s.work, storageDown := s.storageDown);
      ok := Save(before, Some(edit));
    }

    method Finish(edit: Edit, status: ReceiptStatus, result: Option<nat>)
      modifies this
      ensures Snapshot() == FinishAfter(old(Snapshot()), edit, status, result)
    {
      hide Record, Effective;
      var c := Snapshot();
      if pending == Some(edit) {
        pending := None;
        execution := None;
        storageStarted := false;
      }
      AddReceipt(NewReceipt(c, edit.requestId, status).(result := result));
    }

    method FinishStorage(edit: Edit, result: Option<nat>) returns (ok: bool)
      modifies this
      ensures
        var u := StorageFinished(old(Snapshot()), edit, result);
        ok == u.Ok? && Snapshot() == if ok then u.value else old(Snapshot())
    {
      hide Update, FinishAfter;
      var before := Snapshot();
      Finish(edit, if result.Some? then Reviewed else Applied, result);
      ok := Save(before, Some(edit));
    }

    /** A failed storage request: what it began is paused first, and the rejection is saved after. */
    method FailStorage(edit: Edit)
      modifies this
      ensures Snapshot() == StorageFailed(StoragePaused(old(Snapshot()), edit), edit)
    {
      hide FinishAfter;
      if pending == Some(edit) && storageStarted {
        machine := machine.(work := Paused(machine.work));
      }
      Finish(edit, Rejected, None);
    }
  }
}
