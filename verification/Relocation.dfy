/**
 Creating and moving a worker's disk, and copying a whole runtime, cut at any point. Every change
 of a directory, file or link is one step; `budget` is how many of them happen before the crash.
 Sources: crates/agent/src/lima_storage.rs, crates/agent/src/runtime_storage.rs.
 */
module Relocation {
  import opened Outcomes
  import opened Bytes

  type Image = seq<byte>

  /** A storage directory: with its receipt or without, with its image or without. */
  datatype Place = Absent | Folder(receipt: bool, image: Option<Image>)

  /** What the runtime's registry holds under the disk's name. */
  datatype Registry = Missing | RuntimeDir(image: Option<Image>) | LinkOld | LinkNew

  datatype Outcome = Done | Declined | Crashed

  class DiskHome {
    var link: Registry
    /** Where the disk was, where it goes, and the hidden directory it is staged in. */
    var origin: Place
    var target: Place
    var staging: Place
    /** The mark of a creation under way, and the link prepared beside the registered one. */
    var mark: bool
    var spare: bool
    var budget: nat
    /** The image that must not be lost. */
    ghost var original: Option<Image>

    constructor ()
      ensures Safe() && link == Missing && target == Absent && staging == Absent && original == None
    {
      link, origin, target, staging, mark, spare, budget := Missing, Absent, Absent, Absent, false, false, 0;
      original := None;
    }

    ghost predicate Complete(p: Place)
      reads this
    {
      original.Some? && p == Folder(true, original)
    }

    /**
     A destination directory exists only complete; a registration only leads to a complete
     directory; and once there is an image, a complete equal one is still somewhere.
     */
    ghost predicate Safe()
      reads this
    {
      && (target != Absent ==> Complete(target))
      && (link == LinkNew ==> Complete(target)) && (link == LinkOld ==> Complete(origin))
      && (spare ==> Complete(target))
      && (link.RuntimeDir? && link.image.Some? ==> link.image == original)
      && (original.Some? ==> link == RuntimeDir(original) || Complete(target) || Complete(origin))
      && (!mark && target == Absent ==> link == Missing || link == LinkOld)
    }

    /** False when the crash comes before the next step. */
    method Step() returns (alive: bool)
      modifies this`budget
      ensures alive == (old(budget) > 0) && budget == if alive then old(budget) - 1 else 0
    {
      alive := budget > 0;
      if alive { budget := budget - 1; }
    }

    /** A staging directory that an earlier run was cut before giving a receipt. */
    predicate Unreceipted()
      reads this
    {
      target == Absent && staging != Absent && !staging.receipt
    }

    /**
     The staged copy of an image, published by one rename once it is verified. It is declined
     exactly when an earlier run was cut between making the staging directory and its receipt, and
     then nothing changes, so every later run is declined as well.
     */
    method StageCopy(source: Image, torn: Image) returns (r: Outcome)
      requires Safe() && original == Some(source) && (link == RuntimeDir(original) || link == LinkOld)
      requires link == LinkOld || mark
      modifies this`target, this`staging, this`budget
      ensures Safe()
      ensures r.Done? ==> Complete(target)
      ensures r.Declined? <==> old(Unreceipted())
      ensures r.Declined? ==> target == old(target) && staging == old(staging)
      ensures r.Done? ==> staging == if old(target) == Absent then Absent else old(staging)
      ensures if r.Crashed? then old(budget) < 5 else budget >= old(budget) - 5
    {
      if target != Absent {
        return if target.receipt && target.image == Some(source) then Done else Declined;
      }
      var alive;
      if staging != Absent {
        if !staging.receipt { return Declined; }
        if staging.image.Some? {
          alive := Step();
          if !alive { return Crashed; }
          staging := Folder(true, None);
        }
      } else {
        alive := Step();
        if !alive { return Crashed; }
        staging := Folder(false, None);
        alive := Step();
        if !alive { return Crashed; }
        staging := Folder(true, None);
      }
      alive := Step();
      if !alive { return Crashed; }
      staging := Folder(true, Some(torn));
      alive := Step();
      if !alive { return Crashed; }
      staging := Folder(true, Some(source));
      alive := Step();
      if !alive { return Crashed; }
      target, staging := staging, Absent;
      r := Done;
    }

    /** The registration is replaced by a link once the destination is complete, and the mark goes last. */
    method Register() returns (r: Outcome)
      requires Safe() && Complete(target) && (link == Missing || link == RuntimeDir(None)) && mark
      modifies this`link, this`mark, this`budget
      ensures Safe() && (r.Done? ==> link == LinkNew && !mark) && !r.Declined?
      ensures r.Crashed? ==> old(budget) < 3
    {
      var alive;
      if link == RuntimeDir(None) {
        alive := Step();
        if !alive { return Crashed; }
        link := Missing;
      }
      alive := Step();
      if !alive { return Crashed; }
      link := LinkNew;
      alive := Step();
      if !alive { return Crashed; }
      mark := false;
      r := Done;
    }

    /**
     What no later run of create gets past: a runtime disk or a destination that is not this
     creation's, a runtime disk whose own creation was cut, or a staging directory without a receipt.
     */
    predicate Stuck()
      reads this
    {
      || (!mark && (link.RuntimeDir? || (link == Missing && target != Absent)))
      || (mark && link == RuntimeDir(None) && target == Absent)
      || (Unreceipted() && (link == Missing || link.RuntimeDir?))
    }

    /** create: `blank` is the image the runtime makes for a new disk. */
    method Create(blank: Image, torn: Image) returns (r: Outcome)
      requires Safe() && link != LinkOld && origin == Absent
      modifies this`link, this`target, this`staging, this`mark, this`budget, this`original
      ensures Safe() && link != LinkOld
      ensures r.Done? ==> link == LinkNew && Complete(target) && !mark
      ensures original == old(original) || (old(original).None? && original == Some(blank))
      ensures r.Declined? ==> old(Stuck())
      ensures old(budget) >= 12 ==> r == if old(Stuck()) then Declined else Done
    {
      if link != Missing && !mark {
        return if link == LinkNew then Done else Declined;
      }
      var alive;
      if mark {
        if target != Absent && target.receipt && target.image.Some? && (link == Missing || link == RuntimeDir(None)) {
          r := Register();
          return;
        }
      } else {
        if target != Absent { return Declined; }
        alive := Step();
        if !alive { return Crashed; }
        mark := true;
      }
      if link == Missing {
        alive := Step();
        if !alive { return Crashed; }
        link := RuntimeDir(None);
        alive := Step();
        if !alive { return Crashed; }
        link, original := RuntimeDir(Some(blank)), Some(blank);
      }
      if link == LinkNew {
        alive := Step();
        if !alive { return Crashed; }
        mark := false;
        return Done;
      }
      if link.image.None? { return Declined; }
      r := StageCopy(link.image.value, torn);
      if !r.Done? { return; }
      if target == Absent || !target.receipt || target.image.None? { return Declined; }
      alive := Step();
      if !alive { return Crashed; }
      link := RuntimeDir(None);
      r := Register();
    }

    /** stage_move: the registered disk is copied to its new directory; nothing else changes. */
    method StageMove(torn: Image) returns (r: Outcome)
      requires Safe()
      modifies this`target, this`staging, this`budget
      ensures Safe() && (r.Done? ==> Complete(target) && link == LinkOld)
      ensures r.Declined? <==> link != LinkOld || old(Unreceipted())
      ensures r.Crashed? ==> old(budget) < 5
    {
      if link != LinkOld { return Declined; }
      r := StageCopy(origin.image.value, torn);
    }

    /** A directory with a receipt and an image, as the source checks it. */
    static predicate Backing(p: Place) {
      p != Absent && p.receipt && p.image.Some?
    }

    /** commit_move: one rename switches the registration from one complete directory to the other. */
    method CommitMove() returns (r: Outcome)
      requires Safe()
      modifies this`link, this`spare, this`budget
      ensures Safe()
      ensures r.Declined? <==> !(Backing(origin) && Backing(target) && (old(link) == LinkOld || old(link) == LinkNew))
      ensures r.Crashed? ==> old(budget) < 2
      ensures r.Done? ==> link == LinkNew && Complete(target) && (old(link) == LinkOld ==> !spare)
      ensures !r.Done? ==> link == old(link)
      ensures r.Declined? ==> spare == old(spare)
    {
      if !Backing(origin) || !Backing(target) { return Declined; }
      if link == LinkNew { return Done; }
      if link != LinkOld { return Declined; }
      var alive;
      if !spare {
        alive := Step();
        if !alive { return Crashed; }
        spare := true;
      }
      alive := Step();
      if !alive { return Crashed; }
      link, spare := LinkNew, false;
      r := Done;
    }
  }

  // ------------------------------------------------------------ a whole runtime

  /** A complete copy of the runtime's files. */
  ghost predicate CopyOf(copy: map<string, Image>, source: map<string, Image>) {
    copy == source
  }

  /** Some of the runtime's files, each of them whole. */
  ghost predicate PartOf(copy: map<string, Image>, source: map<string, Image>) {
    forall f <- copy :: f in source && copy[f] == source[f]
  }

  class RuntimeHome {
    /** The stopped runtime's files, which nothing here changes. */
    const source: map<string, Image>
    /** The hidden copy, and the published `worker` directory. */
    var staged: Option<map<string, Image>>
    var worker: Option<map<string, Image>>
    var budget: nat

    constructor (files: map<string, Image>)
      ensures Safe() && source == files && staged == None && worker == None
    {
      source, staged, worker, budget := files, None, None, 0;
    }

    /** The destination's worker directory exists only as a complete copy. */
    ghost predicate Safe()
      reads this
    {
      && (worker.Some? ==> CopyOf(worker.value, source) && staged == None)
      && (staged.Some? ==> PartOf(staged.value, source))
    }

    method Step() returns (alive: bool)
      modifies this`budget
      ensures alive == (old(budget) > 0) && budget == if alive then old(budget) - 1 else 0
    {
      alive := budget > 0;
      if alive { budget := budget - 1; }
    }

    /** One file put in place whole, by renaming a temporary file; a disk image there already is only compared. */
    method CopyFile(name: string, disk: bool) returns (r: Outcome)
      requires Safe() && name in source && (worker.None? ==> staged.Some?)
      modifies this`staged, this`worker, this`budget
      ensures Safe() && worker.Some? == old(worker).Some? && staged.Some? == old(staged).Some?
      ensures staged.Some? ==> old(staged).value.Keys <= staged.value.Keys && (r.Done? ==> name in staged.value)
      ensures !r.Declined? && (r.Crashed? ==> old(budget) == 0) && budget >= old(budget) - 1
    {
      var here := if worker.Some? then worker.value else staged.value;
      if disk && name in here {
        return if here[name] == source[name] then Done else Declined;
      }
      var alive := Step();
      if !alive { return Crashed; }
      if worker.Some? {
        worker := Some(worker.value[name := source[name]]);
      } else {
        staged := Some(staged.value[name := source[name]]);
      }
      r := Done;
    }

    /** copy_runtime: every file in whatever order the directory lists them, then one rename. */
    method CopyRuntime(names: seq<string>, disks: set<string>) returns (r: Outcome)
      requires Safe() && forall f :: f in names <==> f in source
      modifies this`staged, this`worker, this`budget
      ensures Safe()
      ensures r.Done? ==> worker == Some(source) && staged == None
      ensures !r.Declined? && (old(worker).Some? ==> worker == old(worker))
      ensures r.Crashed? ==> old(budget) < |names| + 2
    {
      var alive;
      if worker.None? && staged.None? {
        alive := Step();
        if !alive { return Crashed; }
        staged := Some(map[]);
      }
      for i := 0 to |names|
        invariant Safe() && worker.Some? == old(worker).Some? && (worker.None? ==> staged.Some?)
        invariant budget >= old(budget) - 1 - i
        invariant staged.Some? ==> forall k :: 0 <= k < i ==> names[k] in staged.value
      {
        r := CopyFile(names[i], names[i] in disks);
        if !r.Done? { return; }
      }
      if staged.Some? {
        if worker.Some? { return Declined; }
        alive := Step();
        if !alive { return Crashed; }
        assert staged.value == source;
        worker, staged := staged, None;
      }
      r := Done;
    }
  }
}
