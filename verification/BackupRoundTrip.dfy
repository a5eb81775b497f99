/** Restoring what a backup wrote rebuilds the tree it was written from. */
module BackupRoundTrip {
  import opened Outcomes
  import opened Bytes
  import opened BackupTree
  import opened BackupExtents
  import opened BackupRecords
  import opened BackupStream
  import opened BackupRestore

  // ------------------------------------------------------------- equal trees

  ghost predicate BodyAlike(a: Body, b: Body) {
    a == b || (a.FileBody? && b.FileBody? && a.content.bytes == b.content.bytes)
  }

  /** The same file or directory under a path; directories up to their metadata. */
  ghost predicate Alike(t: Tree, w: Tree, p: Path) {
    && p in t.names && p in w.names && (t.names[p].DirEntry? <==> w.names[p].DirEntry?)
    && (t.names[p].LeafEntry? ==>
         t.names[p].ino in t.inodes && w.names[p].ino in w.inodes &&
         BodyAlike(t.inodes[t.names[p].ino].body, w.inodes[w.names[p].ino].body) &&
         t.inodes[t.names[p].ino].meta == w.inodes[w.names[p].ino].meta)
  }

  /** Two paths are links to one file in both trees or in neither. */
  ghost predicate SameClass(t: Tree, w: Tree, p: Path, q: Path) {
    SameFile(t, p, q) <==> SameFile(w, p, q)
  }

  /** Below the roots: the same paths, kinds, bytes and metadata, and the same hard links. */
  ghost predicate SameTree(t: Tree, w: Tree, roots: seq<Path>) {
    && (forall p :: Covered(roots, p) ==> (p in t.names <==> p in w.names))
    && (forall p <- t.names :: Covered(roots, p) ==>
      Alike(t, w, p) && (t.names[p].DirEntry? ==> w.names[p] == t.names[p]))
    && (forall p <- t.names, q <- t.names :: Covered(roots, p) && Covered(roots, q) ==> SameClass(t, w, p, q))
  }

  // ----------------------------------------------------- what a stream describes

  /** The item says what the tree holds at path `k` of the walk, however its extents are split. */
  ghost predicate ItemDescribes(t: Tree, order: seq<Path>, k: nat, item: Item)
    requires WellFormed(t) && AllNamed(t, order) && NoSockets(t, order) && k < |order|
  {
    && Readable(item.record) && |item.data| == DataSize(item.record) && SameRecord(item.record, RecordAt(t, order, k))
    && (item.record.kind.FileKind? ==> NewBody(item).value.content.bytes == BytesOf(t, order[k]))
  }

  /** One item for every path of the walk. */
  ghost predicate Describes(t: Tree, order: seq<Path>, items: seq<Item>)
    requires WellFormed(t) && AllNamed(t, order) && NoSockets(t, order)
  {
    |items| == |order| && forall k :: 0 <= k < |items| ==> ItemDescribes(t, order, k, items[k])
  }

  lemma DescribesStreamable(t: Tree, order: seq<Path>, items: seq<Item>)
    requires WellFormed(t) && AllNamed(t, order) && NoSockets(t, order) && Describes(t, order, items)
    ensures Streamable(items)
  {
    hide WellFormed, AllNamed, NoSockets, RecordAt, Readable, NewBody, SameRecord;
    assert forall k :: 0 <= k < |items| ==> ItemDescribes(t, order, k, items[k]);
  }

  lemma DescribesLength(t: Tree, order: seq<Path>, items: seq<Item>)
    requires WellFormed(t) && AllNamed(t, order) && NoSockets(t, order) && Describes(t, order, items)
    ensures |items| == |order|
  {
  }

  lemma DescribesAt(t: Tree, order: seq<Path>, items: seq<Item>, k: nat)
    requires WellFormed(t) && AllNamed(t, order) && NoSockets(t, order) && Describes(t, order, items) && k < |items|
    ensures ItemDescribes(t, order, k, items[k])
  {
  }

  /** What a restore sees of a record is the same for every item that describes the path. */
  lemma DescribedRecord(t: Tree, order: seq<Path>, k: nat, item: Item)
    requires WellFormed(t) && AllNamed(t, order) && NoSockets(t, order) && k < |order| &&
      ItemDescribes(t, order, k, item)
    ensures Readable(item.record) && |item.data| == DataSize(item.record)
    ensures item.record.path == order[k] && item.record.meta == RecordAt(t, order, k).meta
    ensures item.record.kind.DirectoryKind? <==> t.names[order[k]].DirEntry?
    ensures RecordAt(t, order, k).kind.DirectoryKind? <==> t.names[order[k]].DirEntry?
    ensures item.record.kind == RecordAt(t, order, k).kind ||
      (item.record.kind.FileKind? && RecordAt(t, order, k).kind.FileKind?)
  {
    hide RecordAt, Accepted, NewBody;
    RecordData(t, order, k);
  }

  lemma SameCleared(v: Volume, seen: set<Path>, a: Record, b: Record, limits: Option<seq<Path>>)
    requires SameRecord(a, b)
    ensures Cleared(v, seen, a, limits) == Cleared(v, seen, b, limits)
  {
  }

  // --------------------------------------------------- what a restore may find

  ghost predicate SoundVolume(v: Volume) {
    GoodNames(v.tree.names) && Linked(v.tree) && forall i <- v.tree.inodes :: i < v.next && SoundInode(v.tree.inodes[i])
  }

  /** The record makes a link to this target, or another name for a link made before. */
  predicate MakesLink(kind: Kind, target: string) {
    kind == SymlinkKind(target) || (kind.HardlinkKind? && kind.symlink)
  }

  /** A symbolic link in the destination is the very one the stream will make there. */
  ghost predicate Replayable(t: Tree, order: seq<Path>, w: Tree, q: Path)
    requires WellFormed(t) && AllNamed(t, order) && NoSockets(t, order)
  {
    SymlinkAt(w, q) ==>
      exists k :: 0 <= k < |order| && order[k] == q &&
        MakesLink(RecordAt(t, order, k).kind, w.inodes[w.names[q].ino].body.target)
  }

  /** No symbolic link stands at the path, unless its record is the first of that link. */
  predicate Free(t: Tree, order: seq<Path>, w: Tree, k: nat)
    requires WellFormed(t) && AllNamed(t, order) && NoSockets(t, order) && k < |order|
  {
    SymlinkAt(w, order[k]) ==> RecordAt(t, order, k).kind.SymlinkKind?
  }

  ghost predicate AboveRoot(roots: seq<Path>, q: Path) {
    exists i :: 0 <= i < |roots| && q < roots[i]
  }

  /** What an empty destination, or one an interrupted restore of this stream left, may hold under a name. */
  ghost predicate Leftover(t: Tree, order: seq<Path>, roots: seq<Path>, w: Tree, q: Path)
    requires WellFormed(t) && AllNamed(t, order) && NoSockets(t, order) && q in w.names
  {
    if q in order then (t.names[q].DirEntry? <==> w.names[q].DirEntry?) && Replayable(t, order, w, q)
    else if AboveRoot(roots, q) then w.names[q].DirEntry?
    else !Covered(roots, q)
  }

  /** The tree, its roots and the walk of a backup. */
  ghost predicate Backup(t: Tree, roots: seq<Path>, order: seq<Path>) {
    WellFormed(t) && Apart(roots) && order == Order(t.names, roots) && AllNamed(t, order) && NoSockets(t, order) &&
      Visits(t.names, roots, order)
  }

  /** The first `k` paths are restored, to files of their own; everything else is as it was found. */
  ghost predicate Progress(t: Tree, roots: seq<Path>, order: seq<Path>, v: Volume, k: nat)
    requires Backup(t, roots, order) && k <= |order|
  {
    && SoundVolume(v)
    && (forall j :: 0 <= j < k ==> Alike(t, v.tree, order[j]))
    && (forall i, j :: 0 <= i < k && 0 <= j < k ==> SameClass(t, v.tree, order[i], order[j]))
    && (forall q <- v.tree.names :: q in order[..k] || Leftover(t, order, roots, v.tree, q))
    && (forall i, j :: 0 <= i < k <= j < |order| ==> !SameFile(v.tree, order[i], order[j]))
  }

  ghost predicate Limits(limits: Option<seq<Path>>, roots: seq<Path>) {
    limits == None || limits == Some(roots)
  }

  // --------------------------------------------------------------- safe paths

  /** Everything above a path of the walk is a directory in the destination. */
  lemma DirAbove(t: Tree, roots: seq<Path>, order: seq<Path>, v: Volume, k: nat, q: Path, i: nat)
    requires Backup(t, roots, order) && k <= |order| && Progress(t, roots, order, v, k)
    requires q in order && 0 < i < |q| && q[..i] in v.tree.names
    ensures v.tree.names[q[..i]].DirEntry?
  {
    hide Apart, SoundVolume, Replayable, NoRepeats, Nested;
    var x := q[..i];
    assert q in t.names && Covered(roots, q);
    var r :| 0 <= r < |roots| && roots[r] <= q;
    if |x| < |roots[r]| {
      assert x < roots[r];
      assert AboveRoot(roots, x);
    } else {
      assert roots[r] <= x;
      AncestorIn(t.names, x, q);
      assert Covered(roots, x);
    }
    if x in order {
      AncestorIn(t.names, x, q);
      if x in order[..k] {
        var j :| 0 <= j < k && order[j] == x;
        assert Alike(t, v.tree, order[j]);
      }
    }
  }

  lemma SafeHere(t: Tree, roots: seq<Path>, order: seq<Path>, v: Volume, k: nat, limits: Option<seq<Path>>)
    requires Backup(t, roots, order) && k < |order| && Progress(t, roots, order, v, k) && Limits(limits, roots)
    ensures SafePath(v.tree, order[k], limits) && DirsAbove(v.tree.names, order[k]) && order[k] != []
  {
    hide Apart, SoundVolume, NoRepeats, Nested, PlainName, Progress, Leftover;
    var q := order[k];
    assert q in order;
    forall i | 0 < i < |q| && q[..i] in v.tree.names
      ensures v.tree.names[q[..i]].DirEntry?
    {
      DirAbove(t, roots, order, v, k, q, i);
    }
  }

  /** A name that is there already is inside the tree, so nothing above it is a link. */
  lemma SafeThere(v: Tree, p: Path, limits: Option<seq<Path>>)
    requires GoodNames(v.names) && p in v.names && (limits.Some? ==> Covered(limits.value, p))
    ensures SafePath(v, p, limits)
  {
    forall i | 0 < i < |p|
      ensures !SymlinkAt(v, p[..i])
    {
      AncestorIn(v.names, p[..i], p);
    }
  }

  // --------------------------------------------------------------- one record

  /** What restoring one record leaves: the path, and at most one new inode. */
  ghost predicate Stepped(v: Volume, w: Volume, q: Path) {
    && Kept(v.tree.names, w.tree.names, q) && GoodNames(w.tree.names) && q in w.tree.names
    && v.next <= w.next <= v.next + 1 && w.now == v.now
    && (w.next == v.next ==> w.tree.inodes == v.tree.inodes)
    && (w.next > v.next ==>
      v.next in w.tree.inodes && w.tree.inodes == v.tree.inodes[v.next := w.tree.inodes[v.next]] &&
                            w.tree.names[q] == LeafEntry(v.next) && SoundInode(w.tree.inodes[v.next]))
  }

  /** A symbolic link in the way is the one to be made, and goes. */
  lemma ClearedHere(t: Tree, roots: seq<Path>, order: seq<Path>, v: Volume, k: nat, seen: set<Path>,
      limits: Option<seq<Path>>)
    requires Backup(t, roots, order) && k < |order| && Progress(t, roots, order, v, k) && Free(t, order, v.tree, k)
    ensures Cleared(v, seen, RecordAt(t, order, k), limits).Ok?
    ensures
      var c := Cleared(v, seen, RecordAt(t, order, k), limits).value;
      && c == WithNames(v, c.tree.names) && GoodNames(c.tree.names) && Kept(v.tree.names, c.tree.names, order[k])
      && !SymlinkAt(c.tree, order[k])
      && (order[k] in c.tree.names ==> order[k] in v.tree.names && c.tree.names[order[k]] == v.tree.names[order[k]])
  {
    hide Apart, Nested, Visits, GoodNames, RecordAt, Unlinked;
    var q := order[k];
    RecordData(t, order, k);
    if SymlinkAt(v.tree, q) {
      NotYet(t, roots, order, k);
      assert q in order;
      assert Leftover(t, order, roots, v.tree, q);
      var i :| 0 <= i < |order| && order[i] == q &&
               MakesLink(RecordAt(t, order, i).kind, v.tree.inodes[v.tree.names[q].ino].body.target);
      OrderIndex(t, roots, order, i, k);
      UnlinkedKept(v, q);
    }
  }

  lemma NotYet(t: Tree, roots: seq<Path>, order: seq<Path>, k: nat)
    requires Backup(t, roots, order) && k < |order|
    ensures order[k] !in order[..k]
  {
    hide Apart, AllNamed, NoSockets, WellFormed;
    forall i | 0 <= i < k
      ensures order[i] != order[k]
    {
    }
  }

  lemma OrderIndex(t: Tree, roots: seq<Path>, order: seq<Path>, i: nat, k: nat)
    requires Backup(t, roots, order) && i < |order| && k < |order| && order[i] == order[k]
    ensures i == k
  {
    hide Apart, AllNamed, NoSockets, WellFormed;
  }

  /** What stands at the path before it is restored is a directory or not, as in the source. */
  lemma FoundHere(t: Tree, roots: seq<Path>, order: seq<Path>, v: Volume, k: nat)
    requires Backup(t, roots, order) && k < |order| && Progress(t, roots, order, v, k) && order[k] in v.tree.names
    ensures v.tree.names[order[k]].DirEntry? <==> t.names[order[k]].DirEntry?
  {
    hide Apart, Nested, Visits, GoodNames, Replayable;
    NotYet(t, roots, order, k);
    assert order[k] in order;
  }

  lemma DirsAboveKept(a: map<Path, Entry>, b: map<Path, Entry>, q: Path)
    requires DirsAbove(a, q) && Kept(a, b, q)
    ensures DirsAbove(b, q)
  {
    forall i | 0 < i < |q| && q[..i] in b
      ensures b[q[..i]].DirEntry?
    {
      assert q[..i] != q;
    }
  }

  lemma DirectoryRestored(t: Tree, roots: seq<Path>, order: seq<Path>, v: Volume, k: nat, item: Item, seen: set<Path>,
      limits: Option<seq<Path>>)
    requires Backup(t, roots, order) && k < |order| && Progress(t, roots, order, v, k) && Limits(limits, roots)
    requires Free(t, order, v.tree, k)
    requires order[k] !in seen && t.names[order[k]].DirEntry?
    requires ItemDescribes(t, order, k, item)
    ensures RestoreItem(v, seen, item, limits).Ok?
    ensures
      var w := RestoreItem(v, seen, item, limits).value;
      Stepped(v, w, order[k]) && w.tree.names[order[k]].DirEntry? && w.next == v.next
  {
    hide WellFormed, Apart, Visits, Progress, GoodNames, Cleared, RecordAt, SafePath, MakeDirs, DirsAbove, DataOf;
    var q := order[k];
    RecordData(t, order, k);
    SafeHere(t, roots, order, v, k, limits);
    ClearedHere(t, roots, order, v, k, seen, limits);
    SameCleared(v, seen, item.record, RecordAt(t, order, k), limits);
    var c := Cleared(v, seen, item.record, limits).value;
    if q in v.tree.names {
      FoundHere(t, roots, order, v, k);
    }
    DirsAboveKept(v.tree.names, c.tree.names, q);
    SafePlain(v.tree, q, limits);
    MakeDirsKept(c, q);
    KeptAgain(v.tree.names, c.tree.names, MakeDirs(c, q).value.tree.names, q);
  }

  lemma SafePlain(v: Tree, q: Path, limits: Option<seq<Path>>)
    requires SafePath(v, q, limits)
    ensures PlainPath(q)
  {
  }

  lemma KeptAgain(a: map<Path, Entry>, b: map<Path, Entry>, c: map<Path, Entry>, q: Path)
    requires Kept(a, b, q) && Kept(b, c, q)
    ensures Kept(a, c, q)
  {
  }

  /** Room for a leaf: its directory is there, and the path is free. */
  lemma RoomMade(t: Tree, roots: seq<Path>, order: seq<Path>, v: Volume, k: nat, c: Volume)
    requires Backup(t, roots, order) && k < |order| && Progress(t, roots, order, v, k)
    requires t.names[order[k]].LeafEntry? && PlainPath(order[k]) && DirsAbove(v.tree.names, order[k])
    requires c == WithNames(v, c.tree.names) && GoodNames(c.tree.names) && Kept(v.tree.names, c.tree.names, order[k])
    requires order[k] in c.tree.names ==> order[k] in v.tree.names && c.tree.names[order[k]] == v.tree.names[order[k]]
    ensures MakeDirs(c, Parent(order[k])).Ok?
    ensures
      var m := MakeDirs(c, Parent(order[k])).value;
      var f := if order[k] in m.tree.names then Unlinked(m, order[k]) else m;
      && !(order[k] in m.tree.names && m.tree.names[order[k]].DirEntry?)
      && f == WithNames(v, f.tree.names) && GoodNames(f.tree.names) && Kept(v.tree.names, f.tree.names, order[k])
      && order[k] !in f.tree.names
      && (|order[k]| > 1 ==> Parent(order[k]) in f.tree.names && f.tree.names[Parent(order[k])].DirEntry?)
  {
    hide WellFormed, Apart, Visits, Progress, GoodNames, DirsAbove, MakeDirs, Unlinked;
    var q := order[k];
    DirsAboveKept(v.tree.names, c.tree.names, q);
    DirsAboveParent(c.tree.names, q);
    if |q| > 1 { PlainParent(q); }
    MakeDirsKept(c, Parent(q));
    var m := MakeDirs(c, Parent(q)).value;
    NoEmptyName(c.tree.names);
    NoEmptyName(m.tree.names);
    ParentKept(c.tree.names, m.tree.names, q);
    KeptAgain(v.tree.names, c.tree.names, m.tree.names, q);
    if q in m.tree.names {
      assert q in c.tree.names;
      FoundHere(t, roots, order, v, k);
      UnlinkedKept(m, q);
      KeptAgain(v.tree.names, m.tree.names, Unlinked(m, q).tree.names, q);
    }
  }

  lemma NoEmptyName(names: map<Path, Entry>)
    requires GoodNames(names)
    ensures [] !in names
  {
  }

  /** Making the directories above a path leaves the path itself alone. */
  lemma ParentKept(a: map<Path, Entry>, b: map<Path, Entry>, q: Path)
    requires q != [] && Kept(a, b, Parent(q)) && DirsAbove(a, q)
    requires (Parent(q) != [] ==> Parent(q) in b && b[Parent(q)].DirEntry?)
    requires [] !in a && [] !in b
    ensures Kept(a, b, q) && (q in b ==> q in a && SameEntry(a[q], b[q]))
  {
    assert Parent(q) < q && Parent(q) == q[..|q| - 1];
  }

  // ------------------------------------------------------------------ contents

  /** Every record of a backup passes the reader's checks. */
  lemma ItemReadable(t: Tree, order: seq<Path>, k: nat)
    requires WellFormed(t) && AllNamed(t, order) && NoSockets(t, order) && k < |order|
    ensures Readable(ItemAt(t, order, k).record) && |ItemAt(t, order, k).data| == DataSize(ItemAt(t, order, k).record)
    ensures ItemAt(t, order, k).record == RecordAt(t, order, k) && RecordAt(t, order, k).path == order[k]
  {
    hide RecordAt, Accepted, ExtentsOf;
    RecordData(t, order, k);
    if RecordAt(t, order, k).kind.FileKind? {
      ExtentsSound(t.inodes[t.names[order[k]].ino].body.content);
    }
  }

  /** What the writer streams of a tree describes the tree. */
  lemma ItemsDescribe(t: Tree, order: seq<Path>)
    requires WellFormed(t) && AllNamed(t, order) && NoSockets(t, order)
    ensures Describes(t, order, ItemsOf(t, order)) && Streamable(ItemsOf(t, order))
  {
    hide WellFormed, AllNamed, NoSockets, RecordAt, ItemAt, Readable, ItemDescribes;
    forall k | 0 <= k < |order|
      ensures ItemDescribes(t, order, k, ItemsOf(t, order)[k])
    {
      ItemOwn(t, order, k);
    }
    DescribesStreamable(t, order, ItemsOf(t, order));
  }

  lemma ItemOwn(t: Tree, order: seq<Path>, k: nat)
    requires WellFormed(t) && AllNamed(t, order) && NoSockets(t, order) && k < |order|
    ensures ItemDescribes(t, order, k, ItemAt(t, order, k))
  {
    hide RecordAt, Accepted, ExtentsOf, Scatter, Gather;
    ItemReadable(t, order, k);
    RecordData(t, order, k);
    if RecordAt(t, order, k).kind.FileKind? {
      Rebuilt(t.inodes[t.names[order[k]].ino].body.content);
    }
  }

  lemma {:induction false} ScatterOutside(base: seq<byte>, extents: seq<Extent>, data: seq<byte>, i: nat)
    requires Fits(extents, |base|) && |data| == Total(extents) && i < |base| && !Within(extents, i)
    ensures Scatter(base, extents, data)[i] == base[i]
    decreases |extents|
  {
    if extents != [] {
      WithinSplit(extents, i);
      var e := extents[0];
      ScatterOutside(Overwrite(base, e.start, data[..e.length]), extents[1..], data[e.length..], i);
    }
  }

  /** A file made of zeros and extents has data only where it is allocated. */
  lemma ScatterSound(size: nat, extents: seq<Extent>, data: seq<byte>)
    requires Fits(extents, size) && |data| == Total(extents)
    ensures SoundContent(Content(Scatter(Zeros(size), extents, data), Mapped(size, extents)))
  {
    hide Scatter;
    var mapped := Mapped(size, extents);
    forall i | 0 <= i < size && !mapped[i]
      ensures Scatter(Zeros(size), extents, data)[i] == 0
    {
      assert !Within(extents, i);
      ScatterOutside(Zeros(size), extents, data, i);
    }
  }

  /** The first record of an inode rebuilds its body. */
  lemma BodyRebuilt(t: Tree, order: seq<Path>, k: nat, item: Item)
    requires WellFormed(t) && AllNamed(t, order) && NoSockets(t, order) && k < |order| && t.names[order[k]].LeafEntry?
    requires RecordAt(t, order, k).kind == FirstKind(t.inodes[t.names[order[k]].ino].body)
    requires ItemDescribes(t, order, k, item)
    ensures NewBody(item).Some?
    ensures BodyAlike(t.inodes[t.names[order[k]].ino].body, NewBody(item).value)
    ensures NewBody(item).value.FileBody? ==> SoundContent(NewBody(item).value.content)
  {
    hide RecordAt, Accepted, Scatter, ExtentsOf, Mapped, Zeros, SoundContent;
    var body := t.inodes[t.names[order[k]].ino].body;
    RecordData(t, order, k);
    if body.FileBody? {
      AcceptedFits(item.record.kind.extents, 0, item.record.kind.size);
      ScatterSound(item.record.kind.size, item.record.kind.extents, item.data);
    }
  }

  /** After the metadata is applied, the new inode is the source's. */
  ghost predicate Copied(t: Tree, p: Path, inode: Inode)
    requires p in t.names && t.names[p].LeafEntry? && t.names[p].ino in t.inodes
  {
    BodyAlike(t.inodes[t.names[p].ino].body, inode.body) && inode.meta == t.inodes[t.names[p].ino].meta &&
      SoundInode(inode)
  }

  lemma CreatedHere(t: Tree, p: Path, v: Volume, f: Volume, body: Body)
    requires p in t.names && t.names[p].LeafEntry? && t.names[p].ino in t.inodes && SoundInode(t.inodes[t.names[p].ino])
    requires BodyAlike(t.inodes[t.names[p].ino].body, body) && (body.FileBody? ==> SoundContent(body.content))
    requires f == WithNames(v, f.tree.names) && GoodNames(f.tree.names) && Kept(v.tree.names, f.tree.names, p)
    requires PlainPath(p) && p !in f.tree.names
    requires (|p| > 1 ==> Parent(p) in f.tree.names && f.tree.names[Parent(p)].DirEntry?)
    ensures
      var meta := if body.LinkBody? then FreshMeta(v.now).(mode := LINK_MODE) else FreshMeta(v.now);
      var w := ApplyMetadata(Created(f, p, Inode(body, meta)), p, t.inodes[t.names[p].ino].meta);
      && Stepped(v, w, p) && w.next == v.next + 1 && w.tree.names[p] == LeafEntry(v.next)
      && v.next in w.tree.inodes && Copied(t, p, w.tree.inodes[v.next])
  {
    hide GoodNames, Kept, PlainName, Touched, SoundContent;
    EntryKept(f.tree.names, p, f.now, f.next);
    KeptAgain(v.tree.names, f.tree.names, Touched(f.tree.names, p, f.now)[p := LeafEntry(f.next)], p);
  }

  /** A hard link gains a name and changes nothing else: its inode has that metadata already. */
  lemma LinkedHere(t: Tree, p: Path, v: Volume, f: Volume, ino: nat)
    requires p in t.names && t.names[p].LeafEntry? && t.names[p].ino in t.inodes
    requires ino in v.tree.inodes && Copied(t, p, v.tree.inodes[ino])
    requires f == WithNames(v, f.tree.names) && GoodNames(f.tree.names) && Kept(v.tree.names, f.tree.names, p)
    requires PlainPath(p) && p !in f.tree.names
    requires (|p| > 1 ==> Parent(p) in f.tree.names && f.tree.names[Parent(p)].DirEntry?)
    ensures
      var w := ApplyMetadata(Hardlinked(f, p, ino), p, t.inodes[t.names[p].ino].meta);
      Stepped(v, w, p) && w.next == v.next && p in w.tree.names && w.tree.names[p] == LeafEntry(ino)
  {
    hide GoodNames, Kept, PlainName, Touched, SoundInode, BodyAlike;
    EntryKept(f.tree.names, p, f.now, ino);
    KeptAgain(v.tree.names, f.tree.names, Touched(f.tree.names, p, f.now)[p := LeafEntry(ino)], p);
    var inode := v.tree.inodes[ino];
    assert v.tree.inodes[ino := inode.(meta := inode.meta)] == v.tree.inodes;
  }

  // ---------------------------------------------------------------- one leaf

  /** Path `k` was made a link to what stands at path `j`, as in the source. */
  ghost predicate LinkStepped(t: Tree, order: seq<Path>, v: Volume, w: Volume, k: nat, j: nat)
    requires k < |order| && order[k] in t.names && order[k] in w.tree.names
  {
    && j < k && order[j] in t.names && t.names[order[j]] == t.names[order[k]]
    && order[j] in v.tree.names && w.tree.names[order[k]] == v.tree.names[order[j]]
  }

  /** A leaf restored: a fresh inode for a first name, a link for a later one. */
  ghost predicate LeafStepped(t: Tree, order: seq<Path>, v: Volume, w: Volume, k: nat)
    requires k < |order| && order[k] in t.names && t.names[order[k]].LeafEntry? && t.names[order[k]].ino in t.inodes
  {
    && Stepped(v, w, order[k])
    && (w.next == v.next ==> exists j :: 0 <= j < k && LinkStepped(t, order, v, w, k, j))
    && (w.next > v.next ==>
         && w.next == v.next + 1 && w.tree.names[order[k]] == LeafEntry(v.next)
         && v.next in w.tree.inodes && Copied(t, order[k], w.tree.inodes[v.next])
         && forall i :: 0 <= i < k ==> !LinksTo(t, order[i], t.names[order[k]].ino))
  }

  lemma FirstRestored(t: Tree, roots: seq<Path>, order: seq<Path>, v: Volume, k: nat, item: Item, seen: set<Path>,
      limits: Option<seq<Path>>, c: Volume)
    requires Backup(t, roots, order) && k < |order| && Progress(t, roots, order, v, k)
    requires t.names[order[k]].LeafEntry? && order[k] != [] && PlainPath(order[k]) && DirsAbove(v.tree.names, order[k])
    requires FirstLink(t, order, t.names[order[k]].ino, k)
    requires RecordAt(t, order, k).kind == FirstKind(t.inodes[t.names[order[k]].ino].body)
    requires ItemDescribes(t, order, k, item)
    requires c == WithNames(v, c.tree.names) && GoodNames(c.tree.names) && Kept(v.tree.names, c.tree.names, order[k])
    requires order[k] in c.tree.names ==> order[k] in v.tree.names && c.tree.names[order[k]] == v.tree.names[order[k]]
    ensures PutLeaf(c, seen, item, limits).Ok?
    ensures LeafStepped(t, order, v, ApplyMetadata(PutLeaf(c, seen, item, limits).value, order[k], item.record.meta), k)
  {
    hide Apart, Visits, Progress, GoodNames, DirsAbove, MakeDirs, Unlinked, Kept, Created, ApplyMetadata, Stepped;
    hide Copied, RecordOf, PlainPath, BodyAlike, DataOf, Nested, SoundContent, Readable, NewBody;
    RoomMade(t, roots, order, v, k, c);
    BodyRebuilt(t, order, k, item);
    DescribedRecord(t, order, k, item);
    var m := MakeDirs(c, Parent(order[k])).value;
    var f := if order[k] in m.tree.names then Unlinked(m, order[k]) else m;
    RecordMeta(t, order, k);
    CreatedHere(t, order[k], v, f, NewBody(item).value);
  }

  lemma RecordMeta(t: Tree, order: seq<Path>, k: nat)
    requires WellFormed(t) && AllNamed(t, order) && NoSockets(t, order) && k < |order|
    ensures RecordAt(t, order, k).meta ==
      (match t.names[order[k]] case DirEntry(meta) => meta case LeafEntry(ino) => t.inodes[ino].meta)
  {
  }

  /** A later link finds the first one restored, and names its inode. */
  lemma LinkRestored(t: Tree, roots: seq<Path>, order: seq<Path>, v: Volume, k: nat, item: Item, j: nat,
      seen: set<Path>,
      limits: Option<seq<Path>>, c: Volume)
    requires Backup(t, roots, order) && j < k < |order| && Progress(t, roots, order, v, k) && Limits(limits, roots)
    requires t.names[order[k]].LeafEntry? && order[k] != [] && PlainPath(order[k]) && DirsAbove(v.tree.names, order[k])
    requires order[j] in seen
    requires FirstLink(t, order, t.names[order[k]].ino, j) && RecordAt(t, order, k).kind.HardlinkKind?
    requires RecordAt(t, order, k).kind.link == order[j]
    requires ItemDescribes(t, order, k, item)
    requires c == WithNames(v, c.tree.names) && GoodNames(c.tree.names) && Kept(v.tree.names, c.tree.names, order[k])
    requires order[k] in c.tree.names ==> order[k] in v.tree.names && c.tree.names[order[k]] == v.tree.names[order[k]]
    ensures PutLeaf(c, seen, item, limits).Ok?
    ensures LeafStepped(t, order, v, ApplyMetadata(PutLeaf(c, seen, item, limits).value, order[k], item.record.meta), k)
  {
    hide Apart, Visits, Progress, GoodNames, DirsAbove, MakeDirs, Unlinked, Hardlinked, ApplyMetadata, Stepped, Copied;
    hide RecordOf, PlainPath, DataOf, Nested, SafePath;
    RoomMade(t, roots, order, v, k, c);
    DescribedRecord(t, order, k, item);
    RecordMeta(t, order, k);
    var m := MakeDirs(c, Parent(order[k])).value;
    var f := if order[k] in m.tree.names then Unlinked(m, order[k]) else m;
    LinkedBefore(t, roots, order, v, k, j);
    CoveredAt(t, roots, order, j);
    SafeThere(f.tree, order[j], limits);
    LinkedHere(t, order[k], v, f, v.tree.names[order[j]].ino);
    var w := ApplyMetadata(PutLeaf(c, seen, item, limits).value, order[k], item.record.meta);
    assert LinkStepped(t, order, v, w, k, j);
  }

  lemma CoveredAt(t: Tree, roots: seq<Path>, order: seq<Path>, j: nat)
    requires Backup(t, roots, order) && j < |order|
    ensures Covered(roots, order[j]) && order[j] in t.names
  {
    assert order[j] in order;
  }

  lemma LinkedBefore(t: Tree, roots: seq<Path>, order: seq<Path>, v: Volume, k: nat, j: nat)
    requires Backup(t, roots, order) && j < k < |order| && Progress(t, roots, order, v, k)
    requires t.names[order[k]].LeafEntry? && FirstLink(t, order, t.names[order[k]].ino, j)
    ensures order[j] != order[k] && t.names[order[j]] == t.names[order[k]]
    ensures order[j] in v.tree.names && v.tree.names[order[j]].LeafEntry? && v.tree.names[order[j]].ino in v.tree.inodes
    ensures Copied(t, order[k], v.tree.inodes[v.tree.names[order[j]].ino])
  {
    hide Apart, GoodNames, Nested, BodyAlike, SoundInode;
    OrderIndex(t, roots, order, j, j);
    if order[j] == order[k] {
      OrderIndex(t, roots, order, j, k);
    }
    assert Alike(t, v.tree, order[j]);
  }

  lemma LeafRestored(t: Tree, roots: seq<Path>, order: seq<Path>, v: Volume, k: nat, item: Item, seen: set<Path>,
      limits: Option<seq<Path>>)
    requires Backup(t, roots, order) && k < |order| && Progress(t, roots, order, v, k) && Limits(limits, roots)
    requires Free(t, order, v.tree, k)
    requires t.names[order[k]].LeafEntry? && order[k] !in seen && forall j :: 0 <= j < k ==> order[j] in seen
    requires ItemDescribes(t, order, k, item)
    ensures RestoreItem(v, seen, item, limits).Ok?
    ensures LeafStepped(t, order, v, RestoreItem(v, seen, item, limits).value, k)
  {
    hide Apart, Visits, Progress, GoodNames, DirsAbove, SafePath, Cleared, PutLeaf, ApplyMetadata, Kept, LeafStepped;
    hide PlainName, RecordAt, DataOf, Nested;
    DescribedRecord(t, order, k, item);
    RecordData(t, order, k);
    SafeHere(t, roots, order, v, k, limits);
    SafePlain(v.tree, order[k], limits);
    ClearedHere(t, roots, order, v, k, seen, limits);
    SameCleared(v, seen, item.record, RecordAt(t, order, k), limits);
    var c := Cleared(v, seen, item.record, limits).value;
    var j := RecordLinks(t, order, k);
    if j == k {
      FirstRestored(t, roots, order, v, k, item, seen, limits, c);
    } else {
      LinkRestored(t, roots, order, v, k, item, j, seen, limits, c);
    }
  }

  // ------------------------------------------------------------------ progress

  lemma AlikeKept(t: Tree, v: Volume, w: Volume, q: Path, p: Path)
    requires Stepped(v, w, q) && SoundVolume(v) && p != q && p in v.tree.names
    ensures Alike(t, v.tree, p) ==> Alike(t, w.tree, p)
    ensures SymlinkAt(w.tree, p) <==> SymlinkAt(v.tree, p)
    ensures SymlinkAt(v.tree, p) ==> w.tree.inodes[w.tree.names[p].ino] == v.tree.inodes[v.tree.names[p].ino]
  {
    hide GoodNames, SoundInode, BodyAlike;
  }

  lemma SoundKept(v: Volume, w: Volume, q: Path)
    requires SoundVolume(v) && Stepped(v, w, q) && (w.tree.names[q].LeafEntry? ==> w.tree.names[q].ino in w.tree.inodes)
    ensures SoundVolume(w)
  {
    hide GoodNames, SoundInode;
  }

  lemma LeftoverKept(t: Tree, roots: seq<Path>, order: seq<Path>, v: Volume, w: Volume, k: nat, p: Path)
    requires Backup(t, roots, order) && k < |order| && Progress(t, roots, order, v, k) && Stepped(v, w, order[k])
    requires p in w.tree.names && p !in order[..k + 1]
    ensures Leftover(t, order, roots, w.tree, p)
  {
    hide Apart, NoRepeats, GoodNames, SoundInode, RecordAt, Nested;
    assert order[..k + 1] == order[..k] + [order[k]];
    if p in v.tree.names {
      assert Leftover(t, order, roots, v.tree, p);
      AlikeKept(t, v, w, order[k], p);
    } else {
      NoEmptyName(w.tree.names);
      NewAbove(t, roots, order, k, p);
    }
  }

  /** A directory made on the way lies above a root, or is one the walk already restored. */
  lemma NewAbove(t: Tree, roots: seq<Path>, order: seq<Path>, k: nat, p: Path)
    requires Backup(t, roots, order) && k < |order| && p < order[k] && p != []
    ensures p in order || AboveRoot(roots, p)
    ensures p in order ==> p in t.names && t.names[p].DirEntry?
  {
    hide NoRepeats, NoSockets;
    var q := order[k];
    assert q in order;
    var r :| 0 <= r < |roots| && roots[r] <= q;
    AncestorHere(t, p, q);
    if |p| < |roots[r]| {
      assert p < roots[r];
    } else {
      assert roots[r] <= p;
      AncestorIn(t.names, p, q);
      assert Covered(roots, p);
    }
  }

  lemma AncestorHere(t: Tree, p: Path, q: Path)
    requires WellFormed(t) && q in t.names && p < q && p != []
    ensures p in t.names ==> t.names[p].DirEntry?
  {
    AncestorIn(t.names, p, q);
  }

  /** The paths restored earlier are untouched by the next. */
  lemma EarlierKept(t: Tree, roots: seq<Path>, order: seq<Path>, v: Volume, w: Volume, k: nat, i: nat)
    requires Backup(t, roots, order) && i < k < |order| && Progress(t, roots, order, v, k) && Stepped(v, w, order[k])
    ensures order[i] != order[k] && order[i] in t.names && order[i] in v.tree.names && order[i] in w.tree.names
    ensures Alike(t, w.tree, order[i]) && SameEntry(v.tree.names[order[i]], w.tree.names[order[i]])
    ensures v.tree.names[order[i]].LeafEntry? ==> v.tree.names[order[i]].ino < v.next
  {
    hide Apart, GoodNames, SoundInode, RecordAt, Nested, Leftover;
    if order[i] == order[k] {
      OrderIndex(t, roots, order, i, k);
    }
    assert Alike(t, v.tree, order[i]);
    AlikeKept(t, v, w, order[k], order[i]);
  }

  lemma ClassesKept(t: Tree, roots: seq<Path>, order: seq<Path>, v: Volume, w: Volume, k: nat, i: nat)
    requires Backup(t, roots, order) && i < k < |order| && Progress(t, roots, order, v, k)
    requires t.names[order[k]].LeafEntry? && LeafStepped(t, order, v, w, k)
    ensures SameClass(t, w.tree, order[i], order[k]) && SameClass(t, w.tree, order[k], order[i])
  {
    hide Apart, GoodNames, SoundInode, RecordAt, Nested, Leftover, WellFormed, Visits, NoSockets, BodyAlike, Copied;
    hide Kept;
    EarlierKept(t, roots, order, v, w, k, i);
    if w.next == v.next {
      var j :| 0 <= j < k && LinkStepped(t, order, v, w, k, j);
      assert SameClass(t, v.tree, order[i], order[j]) && SameClass(t, v.tree, order[j], order[i]);
      EarlierKept(t, roots, order, v, w, k, j);
    }
  }

  lemma PairKept(t: Tree, roots: seq<Path>, order: seq<Path>, v: Volume, w: Volume, k: nat, i: nat, j: nat)
    requires Backup(t, roots, order) && i < k < |order| && j < k && Progress(t, roots, order, v, k)
    requires Stepped(v, w, order[k])
    ensures SameClass(t, w.tree, order[i], order[j])
  {
    hide Apart, GoodNames, SoundInode, RecordAt, Nested, Leftover, WellFormed, Visits, NoSockets, BodyAlike, Kept;
    EarlierKept(t, roots, order, v, w, k, i);
    EarlierKept(t, roots, order, v, w, k, j);
    assert SameClass(t, v.tree, order[i], order[j]);
  }

  lemma LeafAlike(t: Tree, roots: seq<Path>, order: seq<Path>, v: Volume, w: Volume, k: nat)
    requires Backup(t, roots, order) && k < |order| && Progress(t, roots, order, v, k)
    requires t.names[order[k]].LeafEntry? && LeafStepped(t, order, v, w, k)
    ensures Alike(t, w.tree, order[k]) && w.tree.names[order[k]].ino in w.tree.inodes
  {
    hide Apart, GoodNames, SoundInode, RecordAt, Nested, Leftover, Visits, NoSockets, Kept;
    if w.next == v.next {
      var j :| 0 <= j < k && LinkStepped(t, order, v, w, k, j);
      assert Alike(t, v.tree, order[j]);
    }
  }

  /** What stands at a path still to come is no file a restored path names. */
  lemma StillApart(t: Tree, roots: seq<Path>, order: seq<Path>, v: Volume, w: Volume, k: nat, i: nat, j: nat)
    requires Backup(t, roots, order) && i <= k < j < |order| && Progress(t, roots, order, v, k)
    requires Stepped(v, w, order[k])
    requires if t.names[order[k]].LeafEntry? then LeafStepped(t, order, v, w, k) else w.tree.names[order[k]].DirEntry?
    ensures !SameFile(w.tree, order[i], order[j])
  {
    hide WellFormed, Apart, Visits, GoodNames, SoundInode, RecordAt, Nested, Leftover, Copied, BodyAlike, Alike,
      SameClass;
    if order[j] == order[k] {
      OrderIndex(t, roots, order, j, k);
    }
    if i < k {
      EarlierKept(t, roots, order, v, w, k, i);
    } else if t.names[order[k]].LeafEntry? && w.next == v.next {
      var l :| 0 <= l < k && LinkStepped(t, order, v, w, k, l);
    }
  }

  /** From path `k` on, symbolic links stand where they stood. */
  ghost predicate Ahead(order: seq<Path>, v: Tree, w: Tree, k: nat) {
    forall i :: k <= i < |order| ==> (SymlinkAt(w, order[i]) <==> SymlinkAt(v, order[i]))
  }

  lemma AheadKept(t: Tree, roots: seq<Path>, order: seq<Path>, v: Volume, w: Volume, k: nat)
    requires Backup(t, roots, order) && k < |order| && SoundVolume(v) && Stepped(v, w, order[k])
    ensures Ahead(order, v.tree, w.tree, k + 1)
  {
    hide WellFormed, Apart, Visits, GoodNames, SoundInode, RecordAt, Nested, SymlinkAt;
    forall i | k < i < |order|
      ensures SymlinkAt(w.tree, order[i]) <==> SymlinkAt(v.tree, order[i])
    {
      if order[i] == order[k] {
        OrderIndex(t, roots, order, i, k);
      }
      if order[i] in v.tree.names {
        AlikeKept(t, v, w, order[k], order[i]);
      } else {
        NoLink(v, w, order[k], order[i]);
      }
    }
  }

  lemma NoLink(v: Volume, w: Volume, q: Path, p: Path)
    requires Stepped(v, w, q) && p != q && p !in v.tree.names
    ensures !SymlinkAt(v.tree, p) && !SymlinkAt(w.tree, p)
  {
  }

  /** One more record restored. */
  lemma ProgressStep(t: Tree, roots: seq<Path>, order: seq<Path>, v: Volume, w: Volume, k: nat)
    requires Backup(t, roots, order) && k < |order| && Progress(t, roots, order, v, k) && Stepped(v, w, order[k])
    requires if t.names[order[k]].LeafEntry? then LeafStepped(t, order, v, w, k) else w.tree.names[order[k]].DirEntry?
    ensures Progress(t, roots, order, w, k + 1)
  {
    hide WellFormed, Apart, Visits, Progress, Leftover, Alike, LeafStepped, Stepped, SoundVolume, SameClass;
    LastAlike(t, roots, order, v, w, k);
    SoundBefore(t, roots, order, v, k);
    SoundKept(v, w, order[k]);
    forall j | 0 <= j < k + 1
      ensures Alike(t, w.tree, order[j])
    {
      if j < k { EarlierKept(t, roots, order, v, w, k, j); }
    }
    forall i, j | 0 <= i < k + 1 && 0 <= j < k + 1
      ensures SameClass(t, w.tree, order[i], order[j])
    {
      AnyPair(t, roots, order, v, w, k, i, j);
    }
    forall q <- w.tree.names | q !in order[..k + 1]
      ensures Leftover(t, order, roots, w.tree, q)
    {
      LeftoverKept(t, roots, order, v, w, k, q);
    }
    forall i, j | 0 <= i < k + 1 <= j < |order|
      ensures !SameFile(w.tree, order[i], order[j])
    {
      StillApart(t, roots, order, v, w, k, i, j);
    }
    assert Progress(t, roots, order, w, k + 1) by { ProgressMade(t, roots, order, w, k + 1); }
  }

  lemma ProgressMade(t: Tree, roots: seq<Path>, order: seq<Path>, w: Volume, k: nat)
    requires Backup(t, roots, order) && k <= |order| && SoundVolume(w)
    requires forall j :: 0 <= j < k ==> Alike(t, w.tree, order[j])
    requires forall i, j :: 0 <= i < k && 0 <= j < k ==> SameClass(t, w.tree, order[i], order[j])
    requires forall q <- w.tree.names :: q in order[..k] || Leftover(t, order, roots, w.tree, q)
    requires forall i, j :: 0 <= i < k <= j < |order| ==> !SameFile(w.tree, order[i], order[j])
    ensures Progress(t, roots, order, w, k)
  {
  }

  lemma SoundBefore(t: Tree, roots: seq<Path>, order: seq<Path>, v: Volume, k: nat)
    requires Backup(t, roots, order) && k <= |order| && Progress(t, roots, order, v, k)
    ensures SoundVolume(v)
  {
  }

  lemma LastAlike(t: Tree, roots: seq<Path>, order: seq<Path>, v: Volume, w: Volume, k: nat)
    requires Backup(t, roots, order) && k < |order| && Progress(t, roots, order, v, k) && Stepped(v, w, order[k])
    requires if t.names[order[k]].LeafEntry? then LeafStepped(t, order, v, w, k) else w.tree.names[order[k]].DirEntry?
    ensures Alike(t, w.tree, order[k]) && order[k] in w.tree.names
    ensures w.tree.names[order[k]].LeafEntry? ==> w.tree.names[order[k]].ino in w.tree.inodes
  {
    hide Progress, LeafStepped, Kept, GoodNames, WellFormed, Apart, Visits;
    if t.names[order[k]].LeafEntry? {
      LeafAlike(t, roots, order, v, w, k);
    }
  }

  lemma AnyPair(t: Tree, roots: seq<Path>, order: seq<Path>, v: Volume, w: Volume, k: nat, i: nat, j: nat)
    requires Backup(t, roots, order) && k < |order| && i <= k && j <= k && Progress(t, roots, order, v, k)
    requires Stepped(v, w, order[k])
    requires if t.names[order[k]].LeafEntry? then LeafStepped(t, order, v, w, k) else w.tree.names[order[k]].DirEntry?
    ensures SameClass(t, w.tree, order[i], order[j])
  {
    hide Progress, LeafStepped, Kept, GoodNames, WellFormed, Apart, Visits;
    if i < k && j < k {
      PairKept(t, roots, order, v, w, k, i, j);
    } else if t.names[order[k]].LeafEntry? {
      LeafAlike(t, roots, order, v, w, k);
      if i < k {
        ClassesKept(t, roots, order, v, w, k, i);
      } else if j < k {
        ClassesKept(t, roots, order, v, w, k, j);
      }
    }
  }

  // ---------------------------------------------------------------- the stream

  ghost predicate SeenBefore(order: seq<Path>, seen: set<Path>, k: nat)
    requires k <= |order|
  {
    forall p :: p in seen <==> p in order[..k]
  }

  lemma ItemRestored(t: Tree, roots: seq<Path>, order: seq<Path>, v: Volume, k: nat, item: Item, seen: set<Path>,
      limits: Option<seq<Path>>)
    requires Backup(t, roots, order) && k < |order| && Progress(t, roots, order, v, k) && Limits(limits, roots)
    requires Free(t, order, v.tree, k)
    requires SeenBefore(order, seen, k)
    requires ItemDescribes(t, order, k, item)
    ensures RestoreItem(v, seen, item, limits).Ok?
    ensures Progress(t, roots, order, RestoreItem(v, seen, item, limits).value, k + 1)
    ensures SeenBefore(order, seen + {order[k]}, k + 1) && item.record.path == order[k]
    ensures Ahead(order, v.tree, RestoreItem(v, seen, item, limits).value.tree, k + 1)
  {
    hide WellFormed, Apart, Visits, Progress, RestoreItem, Stepped, Free, SymlinkAt;
    NotYet(t, roots, order, k);
    DescribedRecord(t, order, k, item);
    assert order[..k + 1] == order[..k] + [order[k]];
    assert forall j :: 0 <= j < k ==> order[j] in order[..k];
    if t.names[order[k]].DirEntry? {
      DirectoryRestored(t, roots, order, v, k, item, seen, limits);
    } else {
      LeafRestored(t, roots, order, v, k, item, seen, limits);
      InodeOf(t, order[k]);
      StepOf(t, order, v, RestoreItem(v, seen, item, limits).value, k);
    }
    ProgressStep(t, roots, order, v, RestoreItem(v, seen, item, limits).value, k);
    SoundBefore(t, roots, order, v, k);
    AheadKept(t, roots, order, v, RestoreItem(v, seen, item, limits).value, k);
  }

  lemma InodeOf(t: Tree, p: Path)
    requires WellFormed(t) && p in t.names && t.names[p].LeafEntry?
    ensures t.names[p].ino in t.inodes
  {
  }

  lemma StepOf(t: Tree, order: seq<Path>, v: Volume, w: Volume, k: nat)
    requires k < |order| && order[k] in t.names && t.names[order[k]].LeafEntry? && t.names[order[k]].ino in t.inodes
    requires LeafStepped(t, order, v, w, k)
    ensures Stepped(v, w, order[k])
  {
  }

  /**
   A later name of a symbolic link that already stands in the destination is refused: the link's
   first name has a file of its own by now.
   */
  lemma LinkedSymlinkRefused(t: Tree, roots: seq<Path>, order: seq<Path>, v: Volume, k: nat, item: Item,
      seen: set<Path>,
      limits: Option<seq<Path>>)
    requires Backup(t, roots, order) && k < |order| && Progress(t, roots, order, v, k) && !Free(t, order, v.tree, k)
    requires ItemDescribes(t, order, k, item)
    ensures Cleared(v, seen, item.record, limits) == Refused
    ensures RestoreItem(v, seen, item, limits) == Refused
  {
    hide Apart, Visits, SoundVolume, SafePath, MakeDirs, PutLeaf, Alike, SameClass, Leftover;
    DescribedRecord(t, order, k, item);
    RecordData(t, order, k);
    assert order[k] in v.tree.names;
    if t.names[order[k]].DirEntry? {
      assert !RecordAt(t, order, k).kind.HardlinkKind?;
    } else {
      var j := RecordLinks(t, order, k);
      if j < k {
        assert !SameFile(v.tree, order[j], order[k]);
      }
    }
  }

  /** No symbolic link stands where a later name of one is to be made, from `k` up to `m`. */
  ghost predicate AllFree(t: Tree, order: seq<Path>, w: Tree, k: nat, m: nat)
    requires WellFormed(t) && AllNamed(t, order) && NoSockets(t, order) && m <= |order|
  {
    forall i :: k <= i < m ==> Free(t, order, w, i)
  }

  lemma FreeAhead(t: Tree, order: seq<Path>, v: Tree, w: Tree, k: nat, m: nat)
    requires WellFormed(t) && AllNamed(t, order) && NoSockets(t, order) && m <= |order| && Ahead(order, v, w, k)
    ensures AllFree(t, order, v, k, m) <==> AllFree(t, order, w, k, m)
  {
    hide RecordAt, SymlinkAt, WellFormed;
    assert forall i :: k <= i < m ==> (Free(t, order, v, i) <==> Free(t, order, w, i));
  }

  lemma StillAhead(order: seq<Path>, u: Tree, v: Tree, w: Tree, k: nat, m: nat)
    requires Ahead(order, u, v, k + 1) && Ahead(order, v, w, m) && k < m
    ensures Ahead(order, u, w, m)
  {
    hide SymlinkAt;
  }

  lemma NothingLeft(t: Tree, order: seq<Path>, w: Tree, k: nat)
    requires WellFormed(t) && AllNamed(t, order) && NoSockets(t, order) && k <= |order|
    ensures AllFree(t, order, w, k, k) && Ahead(order, w, w, k)
  {
  }

  lemma FreeFirst(t: Tree, order: seq<Path>, w: Tree, k: nat, m: nat)
    requires WellFormed(t) && AllNamed(t, order) && NoSockets(t, order) && k < m <= |order|
    ensures AllFree(t, order, w, k, m) <==> Free(t, order, w, k) && AllFree(t, order, w, k + 1, m)
  {
    hide Free, WellFormed;
  }

  /** The records from `k` up to `m` are restored, one after the other, exactly when all of them are free. */
  lemma {:induction false} ItemsRestored(t: Tree, roots: seq<Path>, order: seq<Path>, v: Volume, k: nat, m: nat,
      items: seq<Item>,
      seen: set<Path>, limits: Option<seq<Path>>)
    requires Backup(t, roots, order) && k <= m <= |order| && Progress(t, roots, order, v, k) && Limits(limits, roots)
    requires SeenBefore(order, seen, k)
    requires Describes(t, order, items) && Streamable(items[k..m])
    ensures RestoreItems(v, seen, items[k..m], limits).Ok? <==> AllFree(t, order, v.tree, k, m)
    ensures RestoreItems(v, seen, items[k..m], limits).Ok? ==>
      var w := RestoreItems(v, seen, items[k..m], limits).value;
      Progress(t, roots, order, w, m) && Ahead(order, v.tree, w.tree, m)
    decreases m - k
  {
    hide WellFormed, Apart, Visits, Progress, RestoreItem, ItemDescribes, Describes, RecordAt, SeenBefore, Readable;
    hide DataSize, Limits, SymlinkAt, Free, AllFree, Ahead;
    DescribesLength(t, order, items);
    if k < m {
      FreeFirst(t, order, v.tree, k, m);
      assert items[k..m][0] == items[k] && items[k..m][1..] == items[k + 1..m];
      DescribesAt(t, order, items, k);
      DescribedRecord(t, order, k, items[k]);
      if Free(t, order, v.tree, k) {
        ItemRestored(t, roots, order, v, k, items[k], seen, limits);
        var next := RestoreItem(v, seen, items[k], limits).value;
        FreeAhead(t, order, v.tree, next.tree, k + 1, m);
        ItemsRestored(t, roots, order, next, k + 1, m, items, seen + {order[k]}, limits);
        if AllFree(t, order, v.tree, k, m) {
          StillAhead(order, v.tree, next.tree, RestoreItems(v, seen, items[k..m], limits).value.tree, k, m);
        }
      } else {
        LinkedSymlinkRefused(t, roots, order, v, k, items[k], seen, limits);
      }
    } else {
      NothingLeft(t, order, v.tree, k);
    }
  }
}
