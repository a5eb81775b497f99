/**
 What a restore may touch: any stream at all, accepted into any destination, changes nothing outside
 the paths it is allowed, and no file that was there before; and exactly when a record is refused.
 */
module BackupConfined {
  import opened Outcomes
  import opened Bytes
  import opened BackupTree
  import opened BackupExtents
  import opened BackupRecords
  import opened BackupStream
  import opened BackupRestore

  /** At a root, or below one. */
  ghost predicate Inside(roots: seq<Path>, p: Path) {
    exists i :: 0 <= i < |roots| && |p| >= |roots[i]| && p[..|roots[i]|] == roots[i]
  }

  /** A directory on the way to a root. */
  ghost predicate OnTheWay(roots: seq<Path>, p: Path) {
    exists i :: 0 <= i < |roots| && p < roots[i]
  }

  lemma InsideIs(roots: seq<Path>, p: Path)
    ensures Covered(roots, p) <==> Inside(roots, p)
  {
  }

  /** The same directory at another time. */
  predicate Retimed(a: Entry, b: Entry) {
    a.DirEntry? && b.DirEntry? && b.meta == a.meta.(mtime := b.meta.mtime)
  }

  // ----------------------------------------------------------- one operation

  /** Directories at and above p may be new or retimed; everything else stays. */
  ghost predicate Ancestry(a: map<Path, Entry>, b: map<Path, Entry>, p: Path) {
    && (forall q <- a :: q in b && (b[q] == a[q] || (q <= p && Retimed(a[q], b[q]))))
    && (forall q <- b :: q in a || (q <= p && b[q].DirEntry?))
  }

  /** So with p itself changed in any way. */
  ghost predicate ChangedAt(a: map<Path, Entry>, b: map<Path, Entry>, p: Path) {
    && (forall q <- a :: q == p || (q in b && (b[q] == a[q] || (q < p && Retimed(a[q], b[q])))))
    && (forall q <- b :: q == p || q in a || (q < p && b[q].DirEntry?))
  }

  lemma ChangedTwice(a: map<Path, Entry>, b: map<Path, Entry>, c: map<Path, Entry>, p: Path)
    requires ChangedAt(a, b, p) && ChangedAt(b, c, p)
    ensures ChangedAt(a, c, p)
  {
  }

  lemma TouchedAt(names: map<Path, Entry>, p: Path, now: int)
    requires p != []
    ensures ChangedAt(names, Touched(names, p, now), p)
    ensures Ancestry(names, Touched(names, p, now), Parent(p)) && Touched(names, p, now).Keys == names.Keys
  {
  }

  lemma {:induction false} MakeDirsAt(v: Volume, p: Path)
    requires MakeDirs(v, p).Ok?
    ensures
      var w := MakeDirs(v, p).value;
      Ancestry(v.tree.names, w.tree.names, p) && w == WithNames(v, w.tree.names)
    decreases |p|
  {
    hide Touched;
    if p != [] && p !in v.tree.names {
      MakeDirsAt(v, Parent(p));
      var above := MakeDirs(v, Parent(p)).value;
      TouchedAt(above.tree.names, p, v.now);
      AncestryGrows(v.tree.names, above.tree.names, Touched(above.tree.names, p, v.now), p, FreshMeta(v.now));
    }
  }

  lemma AncestryGrows(a: map<Path, Entry>, b: map<Path, Entry>, c: map<Path, Entry>, p: Path, meta: Meta)
    requires p != [] && Ancestry(a, b, Parent(p)) && Ancestry(b, c, Parent(p)) && p !in a
    ensures Ancestry(a, c[p := DirEntry(meta)], p)
  {
  }

  lemma AncestryChanged(a: map<Path, Entry>, b: map<Path, Entry>, p: Path)
    requires p != [] && Ancestry(a, b, Parent(p))
    ensures ChangedAt(a, b, p)
  {
  }

  lemma AncestryHere(a: map<Path, Entry>, b: map<Path, Entry>, p: Path)
    requires Ancestry(a, b, p)
    ensures ChangedAt(a, b, p)
  {
  }

  lemma UnlinkedAt(v: Volume, p: Path)
    requires p != []
    ensures ChangedAt(v.tree.names, Unlinked(v, p).tree.names, p)
    ensures Unlinked(v, p) == WithNames(v, Unlinked(v, p).tree.names)
  {
    hide Touched;
    TouchedAt(v.tree.names, p, v.now);
  }

  // ------------------------------------------------------------- one record

  /** No inode numbered below n is gone or different. */
  ghost predicate InodesKept(v: Tree, w: Tree, n: nat) {
    forall i <- v.inodes :: i < n ==> i in w.inodes && w.inodes[i] == v.inodes[i]
  }

  /** The names already restored stand for inodes of this restore. */
  ghost predicate Own(t: Tree, seen: set<Path>, n: nat) {
    forall p <- seen :: p in t.names && t.names[p].LeafEntry? ==> t.names[p].ino >= n
  }

  lemma OwnStays(t: Tree, w: Tree, seen: set<Path>, n: nat, p: Path)
    requires Own(t, seen, n) && ChangedAt(t.names, w.names, p)
    ensures Own(w, seen - {p}, n)
  {
  }

  lemma ClearedAt(v: Volume, seen: set<Path>, r: Record, limits: Option<seq<Path>>)
    requires r.path != [] && Cleared(v, seen, r, limits).Ok?
    ensures
      var w := Cleared(v, seen, r, limits).value;
      ChangedAt(v.tree.names, w.tree.names, r.path) && w == WithNames(v, w.tree.names)
  {
    hide Unlinked, SafePath;
    UnlinkedAt(v, r.path);
    if !SymlinkAt(v.tree, r.path) {
      assert Cleared(v, seen, r, limits).value == v;
    }
  }

  lemma CreatedAt(v: Volume, p: Path, inode: Inode, n: nat)
    requires p != [] && v.next >= n
    ensures
      var w := Created(v, p, inode);
      && ChangedAt(v.tree.names, w.tree.names, p) && InodesKept(v.tree, w.tree, n) && w.next >= v.next
      && p in w.tree.names && w.tree.names[p].LeafEntry? && w.tree.names[p].ino >= n
  {
    hide Touched;
    TouchedAt(v.tree.names, p, v.now);
  }

  lemma LinkedAt(v: Volume, p: Path, ino: nat, n: nat)
    requires p != [] && ino >= n
    ensures
      var w := Hardlinked(v, p, ino);
      && ChangedAt(v.tree.names, w.tree.names, p) && w.tree.inodes == v.tree.inodes && w.next == v.next
      && p in w.tree.names && w.tree.names[p].LeafEntry? && w.tree.names[p].ino >= n
  {
    hide Touched;
    TouchedAt(v.tree.names, p, v.now);
  }

  lemma MetadataAt(v: Volume, p: Path, meta: Meta, n: nat)
    requires p in v.tree.names && v.tree.names[p].LeafEntry? ==> v.tree.names[p].ino >= n
    ensures
      var w := ApplyMetadata(v, p, meta);
      && ChangedAt(v.tree.names, w.tree.names, p) && InodesKept(v.tree, w.tree, n) && w.next == v.next
      && (p in w.tree.names && w.tree.names[p].LeafEntry? ==> w.tree.names[p].ino >= n)
  {
  }

  /** A record changes its own path and the directories above it, and writes only inodes of this restore. */
  ghost predicate Changes(v: Volume, w: Volume, p: Path, n: nat) {
    && ChangedAt(v.tree.names, w.tree.names, p) && InodesKept(v.tree, w.tree, n) && w.next >= v.next
    && (p in w.tree.names && w.tree.names[p].LeafEntry? ==> w.tree.names[p].ino >= n)
  }

  lemma PutLeafAt(v: Volume, seen: set<Path>, item: Item, limits: Option<seq<Path>>, n: nat)
    requires item.record.path != [] && Readable(item.record) && |item.data| == DataSize(item.record)
    requires PutLeaf(v, seen, item, limits).Ok? && v.next >= n
    requires Own(v.tree, seen, n) && item.record.path !in seen
    ensures Changes(v, PutLeaf(v, seen, item, limits).value, item.record.path, n)
  {
    hide SafePath, Readable, Mapped, NewBody, MakeDirs, Created, Hardlinked, Unlinked;
    var p := item.record.path;
    MakeDirsAt(v, Parent(p));
    var w := MakeDirs(v, Parent(p)).value;
    AncestryChanged(v.tree.names, w.tree.names, p);
    UnlinkedAt(w, p);
    var free := if p in w.tree.names then Unlinked(w, p) else w;
    ChangedTwice(v.tree.names, w.tree.names, free.tree.names, p);
    OwnStays(v.tree, free.tree, seen, n, p);
    assert seen - {p} == seen;
    var put := PutLeaf(v, seen, item, limits).value;
    var body := NewBody(item);
    if body.Some? {
      CreatedAt(free, p, Inode(body.value, if body.value.LinkBody? then FreshMeta(v.now).(mode := LINK_MODE)
        else FreshMeta(v.now)), n);
    } else {
      assert item.record.kind.DirectoryKind? || item.record.kind.HardlinkKind? by { NoBody(item); }
      LinkedAt(free, p, free.tree.names[item.record.kind.link].ino, n);
    }
    ChangedTwice(v.tree.names, free.tree.names, put.tree.names, p);
  }

  lemma NoBody(item: Item)
    requires Readable(item.record) && |item.data| == DataSize(item.record)
    ensures NewBody(item).None? <==> item.record.kind.DirectoryKind? || item.record.kind.HardlinkKind?
  {
  }

  lemma RestoreItemAt(v: Volume, seen: set<Path>, item: Item, limits: Option<seq<Path>>, n: nat)
    requires Readable(item.record) && |item.data| == DataSize(item.record)
    requires RestoreItem(v, seen, item, limits).Ok? && v.next >= n && Own(v.tree, seen, n)
    ensures Changes(v, RestoreItem(v, seen, item, limits).value, item.record.path, n)
  {
    hide Readable, PutLeaf, MakeDirs, Cleared, ApplyMetadata;
    var r := item.record;
    assert r.path != [] by { PlainSome(v.tree, r.path, limits); }
    ClearedAt(v, seen, r, limits);
    var cleared := Cleared(v, seen, r, limits).value;
    OwnStays(v.tree, cleared.tree, seen, n, r.path);
    assert seen - {r.path} == seen;
    if r.kind.DirectoryKind? {
      MakeDirsAt(cleared, r.path);
      AncestryHere(cleared.tree.names, MakeDirs(cleared, r.path).value.tree.names, r.path);
      ChangedTwice(v.tree.names, cleared.tree.names, MakeDirs(cleared, r.path).value.tree.names, r.path);
      assert !(r.path in MakeDirs(cleared, r.path).value.tree.names &&
        MakeDirs(cleared, r.path).value.tree.names[r.path].LeafEntry?) by { DirMade(cleared, r.path); }
    } else {
      PutLeafAt(cleared, seen, item, limits, n);
      var put := PutLeaf(cleared, seen, item, limits).value;
      ChangedTwice(v.tree.names, cleared.tree.names, put.tree.names, r.path);
      MetadataAt(put, r.path, r.meta, n);
      ChangedTwice(v.tree.names, put.tree.names, ApplyMetadata(put, r.path, r.meta).tree.names, r.path);
    }
  }

  lemma PlainSome(t: Tree, p: Path, limits: Option<seq<Path>>)
    requires SafePath(t, p, limits)
    ensures p != [] && (limits.Some? ==> Inside(limits.value, p))
  {
    if limits.Some? { InsideIs(limits.value, p); }
  }

  lemma DirMade(v: Volume, p: Path)
    requires p != [] && MakeDirs(v, p).Ok?
    ensures p in MakeDirs(v, p).value.tree.names && MakeDirs(v, p).value.tree.names[p].DirEntry?
  {
  }

  // ------------------------------------------------------------ the whole stream

  /** Nothing outside the roots is gone, new or different, but for directories on the way to one. */
  ghost predicate NamesConfined(a: map<Path, Entry>, b: map<Path, Entry>, roots: seq<Path>) {
    && (forall q <- a :: Inside(roots, q) || (q in b && (b[q] == a[q] || (OnTheWay(roots, q) && Retimed(a[q], b[q])))))
    && (forall q <- b :: Inside(roots, q) || q in a || (OnTheWay(roots, q) && b[q].DirEntry?))
  }

  /** What lies above a path under a root is itself under it, or on the way to it. */
  lemma AboveInside(roots: seq<Path>, q: Path, p: Path)
    requires Inside(roots, p) && q < p
    ensures Inside(roots, q) || OnTheWay(roots, q)
  {
    var i :| 0 <= i < |roots| && |p| >= |roots[i]| && p[..|roots[i]|] == roots[i];
    if |q| >= |roots[i]| {
      assert q[..|roots[i]|] == p[..|roots[i]|];
    } else {
      assert q < roots[i];
    }
  }

  lemma ChangedConfined(a: map<Path, Entry>, b: map<Path, Entry>, p: Path, roots: seq<Path>)
    requires ChangedAt(a, b, p) && Inside(roots, p)
    ensures NamesConfined(a, b, roots)
  {
    hide Inside, OnTheWay;
    forall q <- a
      ensures Inside(roots, q) || (q in b && (b[q] == a[q] || (OnTheWay(roots, q) && Retimed(a[q], b[q]))))
    {
      if q < p { AboveInside(roots, q, p); }
    }
    forall q <- b
      ensures Inside(roots, q) || q in a || (OnTheWay(roots, q) && b[q].DirEntry?)
    {
      if q < p { AboveInside(roots, q, p); }
    }
  }

  lemma ConfinedTwice(a: map<Path, Entry>, b: map<Path, Entry>, c: map<Path, Entry>, roots: seq<Path>)
    requires NamesConfined(a, b, roots) && NamesConfined(b, c, roots)
    ensures NamesConfined(a, c, roots)
  {
    hide Inside, OnTheWay;
  }

  ghost function PathsOf(items: seq<Item>): set<Path> {
    set i | 0 <= i < |items| :: items[i].record.path
  }

  /** Every record is for a path inside the limits that no other record names. */
  ghost predicate Proper(items: seq<Item>, seen: set<Path>, limits: Option<seq<Path>>) {
    && (forall i :: 0 <= i < |items| ==> items[i].record.path !in seen)
    && (forall i :: 0 <= i < |items| && limits.Some? ==> Inside(limits.value, items[i].record.path))
    && forall i, k :: 0 <= i < k < |items| ==> items[i].record.path != items[k].record.path
  }

  /** Nothing outside the limits is changed, and no inode numbered below n. */
  ghost predicate Untouched(v: Volume, w: Volume, limits: Option<seq<Path>>, n: nat) {
    && (limits.Some? ==> NamesConfined(v.tree.names, w.tree.names, limits.value))
    && InodesKept(v.tree, w.tree, n) && w.next >= v.next
  }

  /** So of the volumes before and after, and the restored names are this restore's own. */
  ghost predicate Held(v: Volume, w: Volume, limits: Option<seq<Path>>, seen: set<Path>, n: nat) {
    Untouched(v, w, limits, n) && Own(w.tree, seen, n)
  }

  lemma HeldTwice(u: Volume, v: Volume, w: Volume, limits: Option<seq<Path>>, some: set<Path>, seen: set<Path>, n: nat)
    requires Held(u, v, limits, some, n) && Held(v, w, limits, seen, n)
    ensures Held(u, w, limits, seen, n)
  {
    hide NamesConfined;
    if limits.Some? {
      ConfinedTwice(u.tree.names, v.tree.names, w.tree.names, limits.value);
    }
  }

  lemma ItemHeld(v: Volume, seen: set<Path>, item: Item, limits: Option<seq<Path>>, n: nat)
    requires Readable(item.record) && |item.data| == DataSize(item.record)
    requires RestoreItem(v, seen, item, limits).Ok? && v.next >= n && Own(v.tree, seen, n)
    ensures item.record.path !in seen && (limits.Some? ==> Inside(limits.value, item.record.path))
    ensures Held(v, RestoreItem(v, seen, item, limits).value, limits, seen + {item.record.path}, n)
  {
    hide Readable, Cleared, PutLeaf, MakeDirs, ApplyMetadata, NamesConfined, ChangedAt, Inside;
    var p := item.record.path;
    RestoreItemAt(v, seen, item, limits, n);
    PlainSome(v.tree, p, limits);
    var w := RestoreItem(v, seen, item, limits).value;
    OwnStays(v.tree, w.tree, seen, n, p);
    if limits.Some? {
      ChangedConfined(v.tree.names, w.tree.names, p, limits.value);
    }
  }

  lemma NothingHeld(v: Volume, limits: Option<seq<Path>>, seen: set<Path>, n: nat)
    requires Own(v.tree, seen, n)
    ensures Held(v, v, limits, seen, n)
  {
  }

  lemma {:induction false} ItemsHeld(v: Volume, seen: set<Path>, items: seq<Item>, limits: Option<seq<Path>>, n: nat)
    requires Streamable(items) && RestoreItems(v, seen, items, limits).Ok? && v.next >= n && Own(v.tree, seen, n)
    ensures Proper(items, seen, limits)
    ensures Held(v, RestoreItems(v, seen, items, limits).value, limits, seen + PathsOf(items), n)
    decreases |items|
  {
    hide RestoreItem, Own, Readable, DataSize, Held;
    if items == [] {
      NothingHeld(v, limits, seen, n);
      assert seen + PathsOf(items) == seen;
    } else {
      var p := items[0].record.path;
      ItemHeld(v, seen, items[0], limits, n);
      var next := RestoreItem(v, seen, items[0], limits).value;
      assert next.next >= n && Own(next.tree, seen + {p}, n) by { HeldOwn(v, next, limits, seen + {p}, n); }
      ItemsHeld(next, seen + {p}, items[1..], limits, n);
      var w := RestoreItems(v, seen, items, limits).value;
      HeldTwice(v, next, w, limits, seen + {p}, seen + {p} + PathsOf(items[1..]), n);
      assert seen + PathsOf(items) == seen + {p} + PathsOf(items[1..]) by { FirstPath(items); }
      assert forall i :: 0 < i < |items| ==> items[i] == items[1..][i - 1];
    }
  }

  lemma FirstPath(items: seq<Item>)
    requires items != []
    ensures PathsOf(items) == {items[0].record.path} + PathsOf(items[1..])
  {
    forall p <- PathsOf(items)
      ensures p in {items[0].record.path} + PathsOf(items[1..])
    {
      var i :| 0 <= i < |items| && items[i].record.path == p;
      if i > 0 { assert items[1..][i - 1].record.path == p; }
    }
    forall p <- PathsOf(items[1..])
      ensures p in PathsOf(items)
    {
      var i :| 0 <= i < |items[1..]| && items[1..][i].record.path == p;
      assert items[i + 1].record.path == p;
    }
  }

  lemma UntouchedTwice(u: Volume, v: Volume, w: Volume, limits: Option<seq<Path>>, n: nat, m: nat)
    requires Untouched(u, v, limits, n) && Untouched(v, w, limits, m) && n <= m
    ensures Untouched(u, w, limits, n)
  {
    hide NamesConfined;
    if limits.Some? {
      ConfinedTwice(u.tree.names, v.tree.names, w.tree.names, limits.value);
    }
  }

  lemma HeldOwn(v: Volume, w: Volume, limits: Option<seq<Path>>, seen: set<Path>, n: nat)
    requires Held(v, w, limits, seen, n)
    ensures w.next >= v.next && Own(w.tree, seen, n)
  {
  }

  lemma MetadataHeld(v: Volume, p: Path, meta: Meta, limits: Option<seq<Path>>, seen: set<Path>, n: nat)
    requires p in seen && Own(v.tree, seen, n) && (limits.Some? ==> Inside(limits.value, p))
    ensures Held(v, ApplyMetadata(v, p, meta), limits, seen, n)
  {
    hide NamesConfined, ChangedAt, Inside, ApplyMetadata;
    MetadataAt(v, p, meta, n);
    var w := ApplyMetadata(v, p, meta);
    OwnStays(v.tree, w.tree, seen, n, p);
    if limits.Some? {
      ChangedConfined(v.tree.names, w.tree.names, p, limits.value);
    }
  }

  lemma {:induction false} DirsHeld(v: Volume, items: seq<Item>, limits: Option<seq<Path>>, seen: set<Path>, n: nat)
    requires Own(v.tree, seen, n)
    requires forall i :: 0 <= i < |items| ==> items[i].record.path in seen
    requires forall i :: 0 <= i < |items| && limits.Some? ==> Inside(limits.value, items[i].record.path)
    ensures Held(v, FinishDirs(v, items), limits, seen, n)
    decreases |items|
  {
    hide Held, Own, ApplyMetadata, Inside;
    if items == [] {
      NothingHeld(v, limits, seen, n);
    } else {
      var r := items[|items| - 1].record;
      var init := items[..|items| - 1];
      if r.kind.DirectoryKind? {
        var u := ApplyMetadata(v, r.path, r.meta);
        MetadataHeld(v, r.path, r.meta, limits, seen, n);
        HeldOwn(v, u, limits, seen, n);
        DirsHeld(u, init, limits, seen, n);
        HeldTwice(v, u, FinishDirs(v, items), limits, seen, seen, n);
      } else {
        DirsHeld(v, init, limits, seen, n);
      }
    }
  }

  lemma RestoredHeld(v: Volume, items: seq<Item>, limits: Option<seq<Path>>)
    requires Streamable(items) && Restored(v, items, limits).Ok?
    ensures Proper(items, {}, limits) && Untouched(v, Restored(v, items, limits).value, limits, v.next)
  {
    hide RestoreItems, FinishDirs, NamesConfined, Readable, DataSize, Inside;
    ItemsHeld(v, {}, items, limits, v.next);
    var filled := RestoreItems(v, {}, items, limits).value;
    var w := FinishDirs(filled, items);
    var seen := {} + PathsOf(items);
    forall i | 0 <= i < |items|
      ensures items[i].record.path in seen
    {
      assert items[i].record.path in PathsOf(items);
    }
    DirsHeld(filled, items, limits, seen, v.next);
    HeldTwice(v, filled, w, limits, seen, seen, v.next);
  }

  /**
   Whatever the stream says, a restore that succeeds has named only distinct paths inside the roots it
   was given; outside them no name is gone, new or different, but that directories on the way to a root
   may be new or retimed; and every inode of the destination is as it was, even where the restore put
   another file in its place.
   */
  lemma RestoreConfined(v: Volume, items: seq<Item>, limits: Option<seq<Path>>)
    requires Streamable(items) && Restored(v, items, limits).Ok?
    requires forall i <- v.tree.inodes :: i < v.next
    ensures
      var w := Restored(v, items, limits).value;
      && Proper(items, {}, limits)
      && (limits.Some? ==> NamesConfined(v.tree.names, w.tree.names, limits.value))
      && forall i <- v.tree.inodes :: i in w.tree.inodes && w.tree.inodes[i] == v.tree.inodes[i]
  {
    hide Restored, NamesConfined, Streamable;
    RestoredHeld(v, items, limits);
  }
}
