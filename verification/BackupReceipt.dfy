/**
 The guest's private backup of a pool: archive, manifest and partial file, cut at any point. Every
 creation, rename or removal of a file is one step; `budget` is how many happen before the crash.
 Source: guest/android_storage.py.
 */
module BackupReceipt {
  import opened Outcomes
  import opened Bytes

  datatype Outcome = Done | Declined | Crashed

  /** A receipt names the bytes it was made for: their size and digest stand for the bytes themselves. */
  datatype Receipt = Receipt(bytes: seq<byte>)

  class Work {
    var archive: Option<seq<byte>>
    var manifest: Option<Receipt>
    var partial: Option<seq<byte>>
    var budget: nat
    /** Whether a cleanup has begun to remove files. */
    ghost var cleaning: bool

    constructor ()
      ensures Safe() && archive == None && manifest == None && partial == None && !cleaning
    {
      archive, manifest, partial, budget, cleaning := None, None, None, 0, false;
    }

    /** The bytes a manifest names are in the archive or the partial file, until a cleanup removes them. */
    ghost predicate Safe()
      reads this
    {
      && (manifest.Some? && !cleaning ==>
           (archive == Some(manifest.value.bytes) && partial == None) ||
             (archive == None && partial == Some(manifest.value.bytes)))
      && (manifest.None? ==> archive == None && !cleaning)
      && (cleaning ==> manifest.Some? && archive == None && partial == None)
    }

    method Step() returns (alive: bool)
      modifies this`budget
      ensures alive == (old(budget) > 0) && budget == if alive then old(budget) - 1 else 0
    {
      alive := budget > 0;
      if alive { budget := budget - 1; }
    }

    /** verified_receipt: an interrupted commit is finished, then the archive is checked against the receipt. */
    method VerifyReceipt() returns (r: Outcome)
      requires Safe() && manifest.Some?
      modifies this`archive, this`partial, this`budget
      ensures Safe() && r.Declined? == cleaning
      ensures r.Done? ==> archive == Some(manifest.value.bytes) && partial == None && budget >= old(budget) - 1
      ensures r.Crashed? ==> old(budget) == 0 && archive == old(archive) && partial == old(partial)
      ensures r.Declined? ==> archive == old(archive) && partial == old(partial)
    {
      if archive == None && partial != None {
        if partial.value != manifest.value.bytes { return Declined; }
        var alive := Step();
        if !alive { return Crashed; }
        archive, partial := partial, None;
      }
      if archive != Some(manifest.value.bytes) { return Declined; }
      r := Done;
    }

    /**
     create_backup of a source that writes `stream`: `matches` is the verifier's verdict on a stream
     for that source, and `room` whether the guest's disk has space for it. A replay commits the
     backup it finds, if the source still matches it.
     */
    method CreateBackup(stream: seq<byte>, matches: seq<byte> -> bool, room: bool, torn: seq<byte>) returns (r: Outcome)
      requires Safe() && matches(stream)
      modifies this`archive, this`manifest, this`partial, this`budget
      ensures Safe()
      ensures r.Done? ==>
        manifest.Some? && archive == Some(manifest.value.bytes) && partial == None && matches(manifest.value.bytes)
      ensures r.Done? && old(manifest).None? ==> manifest == Some(Receipt(stream))
      ensures old(manifest).Some? ==> manifest == old(manifest)
      ensures r.Declined? ==> Unusable(old(manifest), matches, room)
      ensures r.Declined? && old(manifest).None? ==>
        manifest == None && archive == old(archive) && partial == old(partial)
      ensures old(budget) >= 5 ==> r == if Unusable(old(manifest), matches, room) then Declined else Done
    {
      var alive;
      if manifest.Some? {
        r := VerifyReceipt();
        if r.Done? && !matches(archive.value) { r := Declined; }
        return;
      }
      if archive != None { return Declined; }
      if !room { return Declined; }
      if partial != None {
        alive := Step();
        if !alive { return Crashed; }
        partial := None;
      }
      alive := Step();
      if !alive { return Crashed; }
      partial := Some(torn);
      alive := Step();
      if !alive { return Crashed; }
      partial := Some(stream);
      if !matches(partial.value) { return Declined; }
      alive := Step();
      if !alive { return Crashed; }
      manifest := Some(Receipt(stream));
      alive := Step();
      if !alive { return Crashed; }
      archive, partial := partial, None;
      r := Done;
    }

    /** A begun cleanup, a backup of another tree, or no room for a new one. */
    ghost predicate Unusable(found: Option<Receipt>, matches: seq<byte> -> bool, room: bool)
      reads this
    {
      if found.Some? then cleaning || !matches(found.value.bytes) else !room
    }

    /** cleanup: the archive goes first and the manifest last, so a replay still knows what it is removing. */
    method Cleanup() returns (r: Outcome)
      requires Safe()
      modifies this
      ensures Safe()
      ensures r.Done? ==> manifest == None && archive == None && partial == None
      ensures r.Declined? <==> old(manifest).None? && old(partial).Some?
      ensures r.Declined? ==> manifest == old(manifest) && archive == old(archive) && partial == old(partial)
      ensures old(budget) >= 3 && (old(manifest).Some? || old(partial) == None) ==> r.Done?
      ensures old(cleaning) && !r.Done? ==> cleaning
    {
      var alive;
      if manifest.Some? {
        if archive != None || partial != None {
          r := VerifyReceipt();
          if !r.Done? { return; }
        }
      } else if archive != None || partial != None {
        return Declined;
      }
      if archive != None {
        alive := Step();
        if !alive { return Crashed; }
        archive := None;
        cleaning := true;
      }
      if manifest != None {
        alive := Step();
        if !alive { return Crashed; }
        manifest := None;
        cleaning := false;
      }
      r := Done;
    }
  }
}
