/** restore_backup as it changes the destination, record by record. */
module BackupGuest {
  import opened Outcomes
  import opened Bytes
  import opened BackupTree
  import opened BackupExtents
  import opened BackupRecords
  import opened BackupStream
  import opened BackupRestore
  import opened BackupIO
  import opened BackupConfined

  lemma OverwriteJoins(base: seq<byte>, at: nat, a: seq<byte>, b: seq<byte>)
    requires at + |a| + |b| <= |base|
    ensures Overwrite(Overwrite(base, at, a), at + |a|, b) == Overwrite(base, at, a + b)
  {
  }

  /** A new file: its full size in zeros, then every extent sought and written as the stream hands it out. */
  method FillFile(size: nat, extents: seq<Extent>, stream: ByteStream) returns (ok: bool, content: seq<byte>)
    requires Fits(extents, size) && stream.Valid()
    modifies stream`at
    ensures stream.Valid() && ok == (|old(stream.Rest())| >= Total(extents)) && |content| == size
    ensures ok ==> content == Scatter(Zeros(size), extents, old(stream.Rest())[..Total(extents)])
    ensures ok ==> stream.Rest() == old(stream.Rest())[Total(extents)..]
  {
    hide Overwrite;
    ghost var b := stream.Rest();
    content := Zeros(size);
    var i := 0;
    while i < |extents|
      invariant stream.Valid() && i <= |extents| && |content| == size
      invariant |b| - Total(extents) == |stream.Rest()| - Total(extents[i..]) && Total(extents[i..]) <= Total(extents)
      invariant |b| >= Total(extents) ==> stream.Rest() == b[Total(extents) - Total(extents[i..])..]
      invariant |b| >= Total(extents) ==>
        Scatter(Zeros(size), extents, b[..Total(extents)]) ==
          Scatter(content, extents[i..], stream.Rest()[..Total(extents[i..])])
    {
      var e := extents[i];
      assert extents[i..][0] == e && extents[i..][1..] == extents[i + 1..];
      ghost var r := stream.Rest();
      ghost var t := Total(extents[i..]);
      var whole, filled := FillExtent(content, e, stream);
      content := filled;
      if !whole { return false, content; }
      assert |r| >= t ==> r[..t][..e.length] == r[..e.length] && r[..t][e.length..] == stream.Rest()[..t - e.length];
      i := i + 1;
    }
    assert extents[i..] == [];
    ok := true;
  }

  method FillExtent(base: seq<byte>, e: Extent, stream: ByteStream) returns (ok: bool, content: seq<byte>)
    requires End(e) <= |base| && stream.Valid()
    modifies stream`at
    ensures stream.Valid() && ok == (|old(stream.Rest())| >= e.length) && |content| == |base|
    ensures ok ==> content == Overwrite(base, e.start, old(stream.Rest())[..e.length])
    ensures ok ==> stream.Rest() == old(stream.Rest())[e.length..]
  {
    hide Overwrite;
    ghost var r := stream.Rest();
    content := base;
    var at, left: nat := e.start, e.length;
    ghost var taken: seq<byte> := [];
    OverwriteNothing(base, e.start, taken);
    while left > 0
      invariant stream.Valid() && at == e.start + |taken| && at + left == End(e)
      invariant r == taken + stream.Rest() && content == Overwrite(base, e.start, taken) && |content| == |base|
    {
      var count := Min(CHUNK, left);
      var whole, chunk := stream.Exact(count);
      if !whole { return false, content; }
      Filled(base, e.start, taken, chunk, stream.Rest());
      content := Overwrite(content, at, chunk);
      taken := taken + chunk;
      at := at + count;
      left := left - count;
    }
    Taken(taken, stream.Rest());
    ok := true;
  }

  /** One more chunk of an extent, written after those before it. */
  lemma Filled(base: seq<byte>, start: nat, taken: seq<byte>, chunk: seq<byte>, rest: seq<byte>)
    requires start + |taken| + |chunk| <= |base|
    ensures Overwrite(Overwrite(base, start, taken), start + |taken|, chunk) == Overwrite(base, start, taken + chunk)
    ensures taken + (chunk + rest) == (taken + chunk) + rest
  {
    OverwriteJoins(base, start, taken, chunk);
  }

  lemma Taken(taken: seq<byte>, rest: seq<byte>)
    ensures (taken + rest)[..|taken|] == taken && (taken + rest)[|taken|..] == rest
  {
  }

  lemma OverwriteNothing(base: seq<byte>, at: nat, nothing: seq<byte>)
    requires at <= |base| && nothing == []
    ensures Overwrite(base, at, nothing) == base
  {
  }

  // ------------------------------------------------------- records, as they come

  function Directories(items: seq<Item>): seq<Record> {
    if items == [] then []
    else
      var r := items[|items| - 1].record;
      Directories(items[..|items| - 1]) + if r.kind.DirectoryKind? then [r] else []
  }

  /** The last pass over the directories alone. */
  function FinishList(v: Volume, directories: seq<Record>): Volume
    decreases |directories|
  {
    if directories == [] then v
    else
      var r := directories[|directories| - 1];
      FinishList(ApplyMetadata(v, r.path, r.meta), directories[..|directories| - 1])
  }

  lemma {:induction false} FinishDirectories(v: Volume, items: seq<Item>)
    ensures FinishDirs(v, items) == FinishList(v, Directories(items))
    decreases |items|
  {
    hide ApplyMetadata;
    if items != [] {
      var r := items[|items| - 1].record;
      FinishDirectories(if r.kind.DirectoryKind? then ApplyMetadata(v, r.path, r.meta) else v, items[..|items| - 1]);
      var before, all := Directories(items[..|items| - 1]), Directories(items);
      assert r.kind.DirectoryKind? ==> all == before + [r] && all[..|all| - 1] == before && all[|all| - 1] == r;
      assert !r.kind.DirectoryKind? ==> all == before;
    }
  }

  lemma {:induction false} DirectoriesFront(item: Item, rest: seq<Item>)
    ensures Directories([item] + rest) ==
      (if item.record.kind.DirectoryKind? then [item.record] else []) + Directories(rest)
    decreases |rest|
  {
    var items := [item] + rest;
    if rest == [] {
      assert items[..|items| - 1] == [];
    } else {
      assert items[..|items| - 1] == [item] + rest[..|rest| - 1];
      DirectoriesFront(item, rest[..|rest| - 1]);
    }
  }

  function DirectoriesIn(c: Codec, b: seq<byte>): seq<Record> {
    var items := ReadItems(c, b);
    if items.Ok? then Directories(items.value) else []
  }

  /** What is left of a stream, restored from where the destination stands. */
  function RestoreRest(c: Codec, v: Volume, seen: set<Path>, b: seq<byte>, limits: Option<seq<Path>>): Result<Volume> {
    var items := ReadItems(c, b);
    if items.Refused? then Refused else RestoreItems(v, seen, items.value, limits)
  }

  lemma RestStep(c: Codec, v: Volume, seen: set<Path>, b: seq<byte>, limits: Option<seq<Path>>)
    ensures
      var r := ReadItem(c, b);
      RestoreRest(c, v, seen, b, limits) ==
        if r.Done? then Ok(v)
        else if r.Bad? || RestoreItem(v, seen, r.item, limits).Refused? then Refused
        else RestoreRest(c, RestoreItem(v, seen, r.item, limits).value, seen + {r.item.record.path}, r.rest, limits)
  {
    hide ReadItem, RestoreItem;
    var r := ReadItem(c, b);
    if r.Next? && ReadItems(c, r.rest).Ok? {
      var rest := ReadItems(c, r.rest).value;
      assert ([r.item] + rest)[1..] == rest && ([r.item] + rest)[0] == r.item;
    }
  }

  lemma DirectoriesStep(c: Codec, b: seq<byte>)
    ensures
      var r := ReadItem(c, b);
      && (r.Done? ==> ReadItems(c, b) == Ok([]) && DirectoriesIn(c, b) == [])
      && (r.Bad? ==> ReadItems(c, b).Refused?)
      && (r.Next? ==> (ReadItems(c, b).Ok? <==> ReadItems(c, r.rest).Ok?))
      && (r.Next? && ReadItems(c, b).Ok? ==>
           DirectoriesIn(c, b) ==
             (if r.item.record.kind.DirectoryKind? then [r.item.record] else []) + DirectoriesIn(c, r.rest))
  {
    hide ReadItem;
    var r := ReadItem(c, b);
    if r.Next? && ReadItems(c, r.rest).Ok? {
      DirectoriesFront(r.item, ReadItems(c, r.rest).value);
    }
  }

  /** A record cut short has changed its own path and the directories above it, and no inode that was there. */
  ghost predicate Around(v: Volume, w: Volume, p: Path) {
    ChangedAt(v.tree.names, w.tree.names, p) && InodesKept(v.tree, w.tree, v.next) && w.next >= v.next
  }

  ghost predicate Abandoned(v: Volume, w: Volume, p: Path, limits: Option<seq<Path>>) {
    w == v || (SafePath(v.tree, p, limits) && Around(v, w, p))
  }

  lemma OpenedAround(v: Volume, p: Path)
    requires p != []
    ensures Around(v, v, p)
    ensures MakeDirs(v, Parent(p)).Ok? ==>
      var made := MakeDirs(v, Parent(p)).value;
      Around(v, made, p) && Around(v, Unlinked(made, p), p)
  {
    hide MakeDirs, Unlinked;
    if MakeDirs(v, Parent(p)).Ok? {
      var made := MakeDirs(v, Parent(p)).value;
      MakeDirsAt(v, Parent(p));
      AncestryChanged(v.tree.names, made.tree.names, p);
      UnlinkedAt(made, p);
      ChangedTwice(v.tree.names, made.tree.names, Unlinked(made, p).tree.names, p);
    }
  }

  /** A file whose data ran out is there, as far as it was written. */
  lemma PartialAround(v: Volume, free: Volume, p: Path, file: Inode)
    requires p != [] && Around(v, free, p)
    ensures Around(v, Created(free, p, file), p)
  {
    hide Created;
    CreatedAt(free, p, file, v.next);
    ChangedTwice(v.tree.names, free.tree.names, Created(free, p, file).tree.names, p);
  }

  lemma AbandonedUntouched(v: Volume, w: Volume, p: Path, limits: Option<seq<Path>>)
    requires Abandoned(v, w, p, limits)
    ensures Untouched(v, w, limits, v.next)
  {
    hide NamesConfined, ChangedAt, SafePath;
    NothingHeld(v, limits, {}, v.next);
    if w != v {
      PlainSome(v.tree, p, limits);
      if limits.Some? { ChangedConfined(v.tree.names, w.tree.names, p, limits.value); }
    }
  }

  lemma HeldUntouched(v: Volume, w: Volume, limits: Option<seq<Path>>, seen: set<Path>, n: nat)
    requires Held(v, w, limits, seen, n)
    ensures Untouched(v, w, limits, n) && Own(w.tree, seen, n)
  {
  }

  lemma NextHeld(start: Volume, v: Volume, seen: set<Path>, item: Item, limits: Option<seq<Path>>)
    requires Readable(item.record) && |item.data| == DataSize(item.record)
    requires Held(start, v, limits, seen, start.next) && RestoreItem(v, seen, item, limits).Ok?
    ensures Held(start, RestoreItem(v, seen, item, limits).value, limits, seen + {item.record.path}, start.next)
  {
    hide RestoreItem, NamesConfined, Readable;
    var w := RestoreItem(v, seen, item, limits).value;
    HeldUntouched(start, v, limits, seen, start.next);
    ItemHeld(v, seen, item, limits, start.next);
    HeldTwice(start, v, w, limits, seen, seen + {item.record.path}, start.next);
  }

  /** The destination's filesystem. */
  class Destination {
    var names: map<Path, Entry>
    var inodes: map<nat, Inode>
    var next: nat
    const now: int

    function Snapshot(): Volume
      reads this
    {
      Volume(Tree(names, inodes), next, now)
    }

    constructor (v: Volume)
      ensures Snapshot() == v
    {
      names, inodes, next, now := v.tree.names, v.tree.inodes, v.next, v.now;
    }

    /** An entry comes or goes: its directory's time changes. */
    method Touch(p: Path)
      modifies this`names
      ensures names == Touched(old(names), p, now)
    {
      if |p| > 1 && Parent(p) in names && names[Parent(p)].DirEntry? {
        names := names[Parent(p) := DirEntry(names[Parent(p)].meta.(mtime := now))];
      }
    }

    method MakeDirectories(p: Path) returns (ok: bool)
      modifies this
      ensures
        var r := MakeDirs(old(Snapshot()), p);
        ok == r.Ok? && (ok ==> Snapshot() == r.value) && (!ok ==> Snapshot() == old(Snapshot()))
      decreases |p|
    {
      hide Touched;
      if p == [] { return true; }
      if p in names { return names[p].DirEntry?; }
      ok := MakeDirectories(Parent(p));
      if ok {
        Touch(p);
        names := names[p := DirEntry(FreshMeta(now))];
      }
    }

    method Unlink(p: Path)
      modifies this`names
      ensures Snapshot() == Unlinked(old(Snapshot()), p)
    {
      Touch(p);
      names := names - {p};
    }

    method Create(p: Path, inode: Inode)
      modifies this
      ensures Snapshot() == Created(old(Snapshot()), p, inode)
    {
      hide Touched;
      Touch(p);
      names := names[p := LeafEntry(next)];
      inodes := inodes[next := inode];
      next := next + 1;
    }

    method Link(p: Path, ino: nat)
      modifies this`names
      ensures Snapshot() == Hardlinked(old(Snapshot()), p, ino)
    {
      Touch(p);
      names := names[p := LeafEntry(ino)];
    }

    method SetMetadata(p: Path, meta: Meta)
      modifies this
      ensures Snapshot() == ApplyMetadata(old(Snapshot()), p, meta)
    {
      if p in names {
        match names[p] {
          case DirEntry(_) => names := names[p := DirEntry(meta)];
          case LeafEntry(ino) =>
            if ino in inodes {
              var inode := inodes[ino];
              inodes := inodes[ino :=
                inode.(meta := if inode.body.LinkBody? then meta.(mode := inode.meta.mode) else meta)];
            }
        }
      }
    }

    /** A symbolic link in the way: removed when a replay made it, refused otherwise. */
    method Clear(seen: set<Path>, r: Record, limits: Option<seq<Path>>) returns (ok: bool)
      modifies this
      ensures
        var c := Cleared(old(Snapshot()), seen, r, limits);
        ok == c.Ok? && (ok ==> Snapshot() == c.value) && (!ok ==> Snapshot() == old(Snapshot()))
    {
      hide SafePath, Touched;
      var tree := Tree(names, inodes);
      if !SymlinkAt(tree, r.path) { return true; }
      ok := (r.kind.SymlinkKind? && inodes[names[r.path].ino].body.target == r.kind.target) ||
        (r.kind.HardlinkKind? && r.kind.symlink && r.kind.link in seen && SafePath(tree, r.kind.link, limits) &&
          SameFile(tree, r.kind.link, r.path));
      if ok { Unlink(r.path); }
    }

    /** Everything that is not a directory, with its data read from the stream. */
    method Put(seen: set<Path>, r: Record, limits: Option<seq<Path>>, stream: ByteStream) returns (ok: bool)
      requires r.path != [] && Readable(r) && !r.kind.DirectoryKind? && stream.Valid()
      modifies this, stream`at
      ensures stream.Valid()
      ensures
        var b := old(stream.Rest());
        var size := DataSize(r);
        && ok == (|b| >= size && PutLeaf(old(Snapshot()), seen, Item(r, b[..size]), limits).Ok?)
        && (ok ==> Snapshot() == PutLeaf(old(Snapshot()), seen, Item(r, b[..size]), limits).value)
        && (ok ==> stream.Rest() == b[size..])
        && (!ok ==> Around(old(Snapshot()), Snapshot(), r.path))
    {
      hide SafePath, Touched, MakeDirs, Scatter, Mapped, Unlinked, Created, Hardlinked, Around;
      var p := r.path;
      ok := MakeDirectories(Parent(p));
      OpenedAround(old(Snapshot()), p);
      if !ok { return; }
      if p in names && names[p].DirEntry? { return false; }
      if p in names { Unlink(p); }
      ghost var free := Snapshot();
      match r.kind {
        case SymlinkKind(target) => Create(p, Inode(LinkBody(target), FreshMeta(now).(mode := LINK_MODE)));
        case FifoKind => Create(p, Inode(FifoBody, FreshMeta(now)));
        case DeviceKind(block, device) => Create(p, Inode(DeviceBody(block, device), FreshMeta(now)));
        case HardlinkKind(link, _, _) =>
          if link !in seen || !SafePath(Tree(names, inodes), link, limits) { return false; }
          if link !in names || names[link].DirEntry? { return false; }
          Link(p, names[link].ino);
        case FileKind(size, extents) =>
          AcceptedFits(extents, 0, size);
          var whole, content := FillFile(size, extents, stream);
          var file := Inode(FileBody(Content(content, Mapped(size, extents))), FreshMeta(now));
          Create(p, file);
          PartialAround(old(Snapshot()), free, p, file);
          if !whole { return false; }
        case DirectoryKind =>
      }
    }

    method Restore(seen: set<Path>, r: Record, limits: Option<seq<Path>>, stream: ByteStream) returns (ok: bool)
      requires Readable(r) && stream.Valid()
      modifies this, stream`at
      ensures stream.Valid()
      ensures
        var b := old(stream.Rest());
        var size := DataSize(r);
        && ok == (|b| >= size && RestoreItem(old(Snapshot()), seen, Item(r, b[..size]), limits).Ok?)
        && (ok ==> Snapshot() == RestoreItem(old(Snapshot()), seen, Item(r, b[..size]), limits).value)
        && (ok ==> stream.Rest() == b[size..])
        && (!ok ==> Abandoned(old(Snapshot()), Snapshot(), r.path, limits))
    {
      hide Cleared, MakeDirs, PutLeaf, ApplyMetadata;
      if !SafePath(Tree(names, inodes), r.path, limits) || r.path in seen { return false; }
      ok := Clear(seen, r, limits);
      if !ok { return; }
      ClearedAt(old(Snapshot()), seen, r, limits);
      ghost var cleared := Snapshot();
      if r.kind.DirectoryKind? {
        ok := MakeDirectories(r.path);
      } else {
        ok := Put(seen, r, limits, stream);
        if ok {
          SetMetadata(r.path, r.meta);
        } else {
          ChangedTwice(old(names), cleared.tree.names, names, r.path);
        }
      }
    }

    /** The next record, if there is one and it can be restored. */
    method RestoreNext(c: Codec, seen: set<Path>, limits: Option<seq<Path>>, stream: ByteStream) returns (r: Header)
      requires stream.Valid()
      modifies this, stream`at
      ensures stream.Valid()
      ensures
        var x := ReadItem(c, old(stream.Rest()));
        && (r.EndOfBackup? ==> x.Done? && Snapshot() == old(Snapshot()))
        && (r.Malformed? ==> x.Bad? || (x.Next? && RestoreItem(old(Snapshot()), seen, x.item, limits).Refused?))
        && (r.Entry? ==> x.Next? && r.record == x.item.record && stream.Rest() == x.rest)
        && (r.Entry? ==> RestoreItem(old(Snapshot()), seen, x.item, limits) == Ok(Snapshot()))
        && (r.Malformed? ==> Untouched(old(Snapshot()), Snapshot(), limits, old(next)))
    {
      hide RestoreItem, ReadItem, Readable, NamesConfined, InodesKept;
      AbandonedUntouched(Snapshot(), Snapshot(), [], limits);
      HeadFirst(c, stream.Rest());
      r := ReadRecord(c, stream);
      if r.Entry? {
        var restored := Restore(seen, r.record, limits, stream);
        if !restored {
          AbandonedUntouched(old(Snapshot()), Snapshot(), r.record.path, limits);
          r := Malformed;
        }
      }
    }

    /** The records in turn; the directories are remembered for the end. */
    method RestoreRecords(c: Codec, limits: Option<seq<Path>>,
        stream: ByteStream) returns (ok: bool, directories: seq<Record>)
      requires stream.Valid()
      modifies this, stream`at
      ensures
        var r := RestoreRest(c, old(Snapshot()), {}, old(stream.Rest()), limits);
        ok == r.Ok? && (ok ==> Snapshot() == r.value && directories == DirectoriesIn(c, old(stream.Rest())))
      ensures !ok ==> Untouched(old(Snapshot()), Snapshot(), limits, old(next))
    {
      hide RestoreItem, ReadItem, RestoreRest, DirectoriesIn, ReadItems, Readable, DataSize, NamesConfined, InodesKept;
      hide Own, Held;
      ghost var start, first := Snapshot(), stream.Rest();
      directories := [];
      var seen: set<Path> := {};
      NothingHeld(start, limits, seen, start.next);
      while true
        invariant stream.Valid() && Held(start, Snapshot(), limits, seen, start.next)
        invariant RestoreRest(c, start, {}, first, limits) == RestoreRest(c, Snapshot(), seen, stream.Rest(), limits)
        invariant ReadItems(c, first).Ok? == ReadItems(c, stream.Rest()).Ok?
        invariant ReadItems(c, first).Ok? ==> DirectoriesIn(c, first) == directories + DirectoriesIn(c, stream.Rest())
        decreases |stream.data| - stream.at
      {
        RestStep(c, Snapshot(), seen, stream.Rest(), limits);
        DirectoriesStep(c, stream.Rest());
        ghost var was, x := Snapshot(), ReadItem(c, stream.Rest());
        HeldUntouched(start, was, limits, seen, start.next);
        var r := RestoreNext(c, seen, limits, stream);
        if r.Malformed? {
          UntouchedTwice(start, was, Snapshot(), limits, start.next, was.next);
          return false, [];
        }
        if r.EndOfBackup? { return true, directories; }
        if r.record.kind.DirectoryKind? { directories := directories + [r.record]; }
        NextHeld(start, was, seen, x.item, limits);
        seen := seen + {r.record.path};
      }
    }

    method Finish(directories: seq<Record>)
      modifies this
      ensures Snapshot() == FinishList(old(Snapshot()), directories)
    {
      hide ApplyMetadata;
      var i := |directories|;
      assert directories[..i] == directories;
      while i > 0
        invariant 0 <= i <= |directories|
        invariant FinishList(Snapshot(), directories[..i]) == FinishList(old(Snapshot()), directories)
      {
        i := i - 1;
        assert directories[..i + 1][..i] == directories[..i];
        SetMetadata(directories[i].path, directories[i].meta);
      }
    }

    /** restore_backup: the records, then the directories' metadata, deepest first. */
    method RestoreBackup(c: Codec, limits: Option<seq<Path>>, stream: ByteStream) returns (ok: bool)
      requires stream.Valid()
      modifies this, stream`at
      ensures
        var items := Parsed(c, old(stream.Rest()));
        && ok == (items.Ok? && Restored(old(Snapshot()), items.value, limits).Ok?)
        && (ok ==> Snapshot() == Restored(old(Snapshot()), items.value, limits).value)
      ensures Untouched(old(Snapshot()), Snapshot(), limits, old(next))
    {
      hide RestoreItems, FinishDirs, FinishList, Directories, ReadItems, NamesConfined, InodesKept, Streamable;
      AbandonedUntouched(Snapshot(), Snapshot(), [], limits);
      var begun, magic := stream.Exact(|MAGIC|);
      if !begun || magic != MAGIC { return false; }
      ghost var items := ReadItems(c, stream.Rest());
      var directories;
      ok, directories := RestoreRecords(c, limits, stream);
      if ok {
        FinishDirectories(Snapshot(), items.value);
        Finish(directories);
        RestoredHeld(old(Snapshot()), items.value, limits);
      }
    }
  }

  /** What the header says of the item it begins. */
  lemma HeadFirst(c: Codec, b: seq<byte>)
    ensures ReadHead(c, b).NoMore? <==> ReadItem(c, b).Done?
    ensures ReadHead(c, b).BadHead? ==> ReadItem(c, b).Bad?
    ensures ReadHead(c, b).Head? ==>
      var r := ReadHead(c, b);
      if |r.rest| < DataSize(r.record) then ReadItem(c, b).Bad?
      else ReadItem(c, b) == Next(Item(r.record, r.rest[..DataSize(r.record)]), r.rest[DataSize(r.record)..])
  {
    hide ReadHead;
  }
}
