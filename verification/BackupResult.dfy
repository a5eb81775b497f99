/** What any accepted stream leaves: every record's name, and the file, link or directory it stands for. */
module BackupResult {
  import opened Outcomes
  import opened Bytes
  import opened BackupTree
  import opened BackupExtents
  import opened BackupRecords
  import opened BackupStream
  import opened BackupRestore
  import opened BackupConfined
  import opened BackupAccepts

  /** Linux keeps one mode for every symbolic link. */
  function Settled(meta: Meta, body: Body): Meta {
    if body.LinkBody? then Meta(511, meta.uid, meta.gid, meta.mtime, meta.xattrs) else meta
  }

  /** What one record that is not a directory does to the inodes. */
  ghost predicate Leaves(v: Volume, item: Item, w: Volume)
    requires Readable(item.record) && |item.data| == DataSize(item.record) && !item.record.kind.DirectoryKind?
  {
    var r := item.record;
    && r.path in w.tree.names && w.tree.names[r.path].LeafEntry?
    && var ino := w.tree.names[r.path].ino;
    match NewBody(item)
    case Some(body) =>
      && ino == v.next && w.next == v.next + 1
      && w.tree.inodes == v.tree.inodes[ino := Inode(body, Settled(r.meta, body))]
    case None =>
      && r.kind.HardlinkKind? && r.kind.link in v.tree.names && v.tree.names[r.kind.link] == w.tree.names[r.path]
      && w.next == v.next
      && w.tree.inodes == if ino in v.tree.inodes then
           v.tree.inodes[ino := v.tree.inodes[ino].(meta := Relabelled(r.meta, v.tree.inodes[ino]))]
         else v.tree.inodes
  }

  function Relabelled(meta: Meta, inode: Inode): Meta {
    if inode.body.LinkBody? then meta.(mode := inode.meta.mode) else meta
  }

  lemma ClearedLeaves(v: Volume, seen: set<Path>, r: Record, limits: Option<seq<Path>>)
    requires r.path != [] && Cleared(v, seen, r, limits).Ok?
    ensures
      var c := Cleared(v, seen, r, limits).value;
      c.tree.inodes == v.tree.inodes && c.next == v.next && c.now == v.now
  {
    hide SafePath, Unlinked;
    ClearedAt(v, seen, r, limits);
  }

  lemma PutLeaves(v: Volume, seen: set<Path>, item: Item, limits: Option<seq<Path>>)
    requires item.record.path != [] && Readable(item.record) && |item.data| == DataSize(item.record)
    requires !item.record.kind.DirectoryKind? && PutLeaf(v, seen, item, limits).Ok? && item.record.path !in seen
    ensures Leaves(v, item, ApplyMetadata(PutLeaf(v, seen, item, limits).value, item.record.path, item.record.meta))
  {
    hide SafePath, MakeDirs, Unlinked, NewBody, Touched;
    var p := item.record.path;
    NoBody(item);
    MakeDirsAt(v, Parent(p));
    var w := MakeDirs(v, Parent(p)).value;
    AncestryChanged(v.tree.names, w.tree.names, p);
    UnlinkedAt(w, p);
    ChangedTwice(v.tree.names, w.tree.names, Unlinked(w, p).tree.names, p);
    if NewBody(item).None? {
      LinkSource(v.tree.names, (if p in w.tree.names then Unlinked(w, p) else w).tree.names, p, item.record.kind.link);
    }
  }

  /** The file linked to is the one that was there before the record. */
  lemma LinkSource(a: map<Path, Entry>, b: map<Path, Entry>, p: Path, link: Path)
    requires ChangedAt(a, b, p) && link != p && link in b && b[link].LeafEntry?
    ensures link in a && a[link] == b[link]
  {
  }

  lemma ItemLeaves(v: Volume, seen: set<Path>, item: Item, limits: Option<seq<Path>>, n: nat)
    requires Readable(item.record) && |item.data| == DataSize(item.record) && !item.record.kind.DirectoryKind?
    requires Underway(v.tree, seen, limits, n) && RestoreItem(v, seen, item, limits).Ok?
    ensures Leaves(v, item, RestoreItem(v, seen, item, limits).value)
  {
    hide SafePath, Cleared, PutLeaf, ApplyMetadata, MakeDirs, NewBody, PlainPath;
    var r := item.record;
    SafeParts(v.tree, r.path, limits);
    NotEmpty(r.path);
    ClearedLeaves(v, seen, r, limits);
    ClearedAt(v, seen, r, limits);
    var c := Cleared(v, seen, r, limits).value;
    PutLeaves(c, seen, item, limits);
    if NewBody(item).None? {
      assert r.kind.link in v.tree.names && v.tree.names[r.kind.link] == c.tree.names[r.kind.link] by {
        ItemIs(v, seen, item, limits, n);
        NoBody(item);
        LinkSource(v.tree.names, c.tree.names, r.path, r.kind.link);
      }
    }
  }

  lemma DirectoryLeaves(v: Volume, seen: set<Path>, item: Item, limits: Option<seq<Path>>)
    requires Readable(item.record) && |item.data| == DataSize(item.record) && item.record.kind.DirectoryKind?
    requires RestoreItem(v, seen, item, limits).Ok?
    ensures
      var w := RestoreItem(v, seen, item, limits).value;
      w.tree.inodes == v.tree.inodes && w.next == v.next
  {
    hide SafePath, Cleared, MakeDirs, PlainPath;
    SafeParts(v.tree, item.record.path, limits);
    NotEmpty(item.record.path);
    ClearedLeaves(v, seen, item.record, limits);
    MakeDirsAt(Cleared(v, seen, item.record, limits).value, item.record.path);
  }

  // ------------------------------------------------------------- all the records

  predicate IsLeaf(item: Item) { !item.record.kind.DirectoryKind? }

  ghost predicate HasInode(u: Tree, p: Path) {
    p in u.names && u.names[p].LeafEntry? && u.names[p].ino in u.inodes
  }

  /** No later record names the same inode. */
  ghost predicate Last(u: Tree, done: seq<Item>, j: nat)
    requires j < |done| && HasInode(u, done[j].record.path)
  {
    forall l :: j < l < |done| && IsLeaf(done[l]) && done[l].record.path in u.names ==>
      u.names[done[l].record.path] != u.names[done[j].record.path]
  }

  /**
   What a record that is not a directory stands for: the file or link it describes, or the very inode
   of the name it is linked to; with the metadata of the last record of that inode.
   */
  ghost predicate StandsFor(u: Tree, done: seq<Item>, j: nat)
    requires j < |done| && Streamable(done)
  {
    var r := done[j].record;
    && HasInode(u, r.path)
    && var inode := u.inodes[u.names[r.path].ino];
    && (match NewBody(done[j])
        case Some(body) => inode.body == body
        case None => r.kind.HardlinkKind? && r.kind.link in u.names && u.names[r.kind.link] == u.names[r.path])
    && (Last(u, done, j) ==> inode.meta == Settled(r.meta, inode.body))
    && (inode.body.LinkBody? ==> inode.meta.mode == 511)
  }

  /** A record that makes an inode of its own. */
  ghost predicate First(item: Item)
    requires Readable(item.record) && |item.data| == DataSize(item.record)
  {
    NewBody(item).Some?
  }

  /** Two such records never share one. */
  ghost predicate FirstsApart(u: Tree, done: seq<Item>)
    requires Streamable(done)
  {
    forall i, j :: 0 <= i < j < |done| && First(done[i]) && First(done[j]) ==>
      !SameInode(u, done[i].record.path, done[j].record.path)
  }

  ghost predicate SameInode(u: Tree, p: Path, q: Path) {
    p in u.names && q in u.names && u.names[p] == u.names[q]
  }

  ghost predicate HasDirectory(u: Tree, p: Path) { p in u.names && u.names[p].DirEntry? }

  /** All of them, by inodes of this restore. */
  ghost predicate AllStand(u: Tree, next: nat, done: seq<Item>)
    requires Streamable(done)
  {
    && (forall j :: 0 <= j < |done| && IsLeaf(done[j]) ==>
         StandsFor(u, done, j) && u.names[done[j].record.path].ino < next)
    && (forall j :: 0 <= j < |done| && !IsLeaf(done[j]) ==> HasDirectory(u, done[j].record.path))
    && FirstsApart(u, done)
  }

  lemma NotNames(u: Tree, seen: set<Path>, limits: Option<seq<Path>>, n: nat, p: Path, q: Path)
    requires Underway(u, seen, limits, n) && p !in seen && q in seen && q in u.names && u.names[q].LeafEntry?
    ensures p in u.names ==> u.names[p] != u.names[q]
  {
    hide GoodNames, Inside;
  }

  /** An earlier record after one more: its name and file stay, its metadata may be written again. */
  lemma EarlierStands(u: Volume, w: Volume, done: seq<Item>, item: Item, j: nat, seen: set<Path>,
      limits: Option<seq<Path>>, n: nat)
    requires j < |done| && Streamable(done) && Streamable(done + [item]) && IsLeaf(done[j])
    requires Readable(item.record) && |item.data| == DataSize(item.record)
    requires StandsFor(u.tree, done, j) && u.tree.names[done[j].record.path].ino < u.next
    requires Underway(u.tree, seen, limits, n) && item.record.path !in seen && seen == PathsOf(done)
    requires ChangedAt(u.tree.names, w.tree.names, item.record.path)
    requires if IsLeaf(item) then Leaves(u, item, w) else
      w.tree.inodes == u.tree.inodes && item.record.path in w.tree.names && w.tree.names[item.record.path].DirEntry?
    ensures StandsFor(w.tree, done + [item], j) &&
      w.tree.names[done[j].record.path] == u.tree.names[done[j].record.path]
  {
    hide NewBody, Underway, Inside, Readable, DataSize;
    var p, q, more := item.record.path, done[j].record.path, done + [item];
    assert forall l :: 0 <= l < |done| ==> done[l].record.path in seen;
    NotNames(u.tree, seen, limits, n, p, q);
    assert more[j] == done[j] && more[|done|] == item;
    assert w.tree.names[q] == u.tree.names[q];
    if Last(w.tree, more, j) {
      forall l | j < l < |done| && IsLeaf(done[l]) && done[l].record.path in u.tree.names
        ensures u.tree.names[done[l].record.path] != u.tree.names[q]
      {
        assert more[l] == done[l];
      }
      assert Last(u.tree, done, j);
    }
  }

  /** The record just restored. */
  lemma NewStands(u: Volume, w: Volume, done: seq<Item>, item: Item, seen: set<Path>, limits: Option<seq<Path>>, n: nat)
    requires Streamable(done) && Streamable(done + [item]) && IsLeaf(item)
    requires Readable(item.record) && |item.data| == DataSize(item.record)
    requires AllStand(u.tree, u.next, done) && Leaves(u, item, w)
    requires ChangedAt(u.tree.names, w.tree.names, item.record.path)
    requires Underway(u.tree, seen, limits, n) && item.record.path !in seen && seen == PathsOf(done)
    requires item.record.kind.HardlinkKind? ==> item.record.kind.link in seen
    ensures StandsFor(w.tree, done + [item], |done|) && w.tree.names[item.record.path].ino < w.next
  {
    hide NewBody, Underway, Inside, Readable, DataSize, FirstsApart;
    var r, more := item.record, done + [item];
    assert more[|done|] == item;
    NoBody(item);
    if NewBody(item).None? {
      PathOf(done, r.kind.link);
      var i :| 0 <= i < |done| && done[i].record.path == r.kind.link;
      assert !IsLeaf(done[i]) ==> HasDirectory(u.tree, done[i].record.path);
      assert StandsFor(u.tree, done, i);
    }
  }

  lemma FirstsStep(u: Volume, w: Volume, done: seq<Item>, item: Item, seen: set<Path>)
    requires Streamable(done) && Streamable(done + [item]) && seen == PathsOf(done) && item.record.path !in seen
    requires Readable(item.record) && |item.data| == DataSize(item.record)
    requires AllStand(u.tree, u.next, done) && ChangedAt(u.tree.names, w.tree.names, item.record.path)
    requires IsLeaf(item) ==> Leaves(u, item, w)
    ensures FirstsApart(w.tree, done + [item])
  {
    hide NewBody, Readable, DataSize, Last;
    var more := done + [item];
    assert forall l :: 0 <= l < |done| ==> done[l].record.path in seen && more[l] == done[l];
    assert more[|done|] == item;
    forall i, j | 0 <= i < j < |more| && First(more[i]) && First(more[j])
      ensures !SameInode(w.tree, more[i].record.path, more[j].record.path)
    {
      NoBody(more[i]);
      NoBody(more[j]);
      assert StandsFor(u.tree, done, i);
      if j < |done| {
        assert StandsFor(u.tree, done, j) && !SameInode(u.tree, done[i].record.path, done[j].record.path);
      }
    }
  }

  lemma AllStandStep(u: Volume, done: seq<Item>, item: Item, limits: Option<seq<Path>>, n: nat)
    requires Streamable(done) && Readable(item.record) && |item.data| == DataSize(item.record)
    requires AllStand(u.tree, u.next, done) && Underway(u.tree, PathsOf(done), limits, n) && u.next >= n
    requires RestoreItem(u, PathsOf(done), item, limits).Ok?
    ensures Streamable(done + [item])
    ensures
      var w := RestoreItem(u, PathsOf(done), item, limits).value;
      AllStand(w.tree, w.next, done + [item]) && w.next >= u.next
  {
    hide NewBody, RestoreItem, Inside, Readable, DataSize, StandsFor, FirstsApart, Leaves, ChangedAt, GoodNames,
      PathsOf;
    var seen, p, more := PathsOf(done), item.record.path, done + [item];
    var w := RestoreItem(u, seen, item, limits).value;
    Named(u.tree, seen, limits, n);
    RestoreItemAt(u, seen, item, limits, n);
    ItemIs(u, seen, item, limits, n);
    ItemMade(u, seen, item, limits, n);
    if IsLeaf(item) {
      ItemLeaves(u, seen, item, limits, n);
      NewStands(u, w, done, item, seen, limits, n);
    } else {
      DirectoryLeaves(u, seen, item, limits);
    }
    FirstsStep(u, w, done, item, seen);
    forall j | 0 <= j < |more| && IsLeaf(more[j])
      ensures StandsFor(w.tree, more, j) && HasName(w.tree, more[j].record.path) &&
        w.tree.names[more[j].record.path].ino < w.next
    {
      if j < |done| {
        assert more[j] == done[j];
        EarlierStands(u, w, done, item, j, seen, limits, n);
        StandsNamed(u.tree, done, j);
      }
      StandsNamed(w.tree, more, j);
    }
    forall j | 0 <= j < |more| && !IsLeaf(more[j])
      ensures HasDirectory(w.tree, more[j].record.path)
    {
      if j < |done| {
        assert more[j] == done[j];
        DirectoryStays(u.tree, w.tree, p, done[j].record.path, seen, done, j);
      }
    }
  }

  lemma DirectoryStays(u: Tree, w: Tree, p: Path, q: Path, seen: set<Path>, done: seq<Item>, j: nat)
    requires ChangedAt(u.names, w.names, p) && HasDirectory(u, q) && p !in seen && seen == PathsOf(done)
    requires j < |done| && done[j].record.path == q
    ensures HasDirectory(w, q)
  {
    assert q in seen;
  }

  ghost predicate HasName(u: Tree, p: Path) { p in u.names && u.names[p].LeafEntry? }

  lemma StandsNamed(u: Tree, done: seq<Item>, j: nat)
    requires j < |done| && Streamable(done) && StandsFor(u, done, j)
    ensures HasName(u, done[j].record.path)
  {
    hide NewBody, Last;
  }

  lemma {:induction false} ItemsStand(v: Tree, u: Volume, done: seq<Item>, items: seq<Item>, limits: Option<seq<Path>>,
      n: nat)
    requires Streamable(items) && Streamable(done) && Midway(v, u.tree, done, limits, n) && u.next >= n
    requires Linked(v) && (forall i <- v.inodes :: i < n) && AllStand(u.tree, u.next, done)
    requires RestoreItems(u, PathsOf(done), items, limits).Ok?
    ensures Streamable(done + items)
    ensures
      var w := RestoreItems(u, PathsOf(done), items, limits).value;
      AllStand(w.tree, w.next, done + items) && Midway(v, w.tree, done + items, limits, n)
    decreases |items|
  {
    hide RestoreItem, PathsOf, Midway, FitsThen, FitsNow, Readable, DataSize, AllStand;
    if items == [] {
      assert done + items == done;
    } else {
      var item := items[0];
      FitSame(v, u.tree, done, item.record, limits, n);
      assert Underway(u.tree, PathsOf(done), limits, n) by { MidwayUnder(v, u.tree, done, limits, n); }
      ItemIs(u, PathsOf(done), item, limits, n);
      MidwayStep(v, u, done, item, limits, n);
      AllStandStep(u, done, item, limits, n);
      PathsGrow(done, item);
      ItemsStand(v, RestoreItem(u, PathsOf(done), item, limits).value, done + [item], items[1..], limits, n);
      assert done + items == done + [item] + items[1..];
    }
  }

  /** A directory with the metadata recorded for it. */
  ghost predicate IsDirectory(u: Tree, r: Record) { r.path in u.names && u.names[r.path] == DirEntry(r.meta) }

  /** The last pass gives every recorded directory its metadata, and changes nothing else. */
  lemma {:induction false} DirectoriesFinal(v: Volume, items: seq<Item>)
    requires forall i, k :: 0 <= i < k < |items| ==> items[i].record.path != items[k].record.path
    requires forall j :: 0 <= j < |items| && !IsLeaf(items[j]) ==> HasDirectory(v.tree, items[j].record.path)
    ensures
      var w := FinishDirs(v, items);
      && w.tree.inodes == v.tree.inodes && w.tree.names.Keys == v.tree.names.Keys
      && (forall j :: 0 <= j < |items| && !IsLeaf(items[j]) ==> IsDirectory(w.tree, items[j].record))
      && (forall q <- v.tree.names :: w.tree.names[q] == v.tree.names[q] || ADirectory(items, q))
    decreases |items|
  {
    if items != [] {
      var last := |items| - 1;
      var r := items[last].record;
      var u := if r.kind.DirectoryKind? then ApplyMetadata(v, r.path, r.meta) else v;
      if !IsLeaf(items[last]) { assert HasDirectory(v.tree, items[last].record.path); }
      DirectoriesFinal(u, items[..last]);
      var w := FinishDirs(v, items);
      forall q <- v.tree.names
        ensures w.tree.names[q] == v.tree.names[q] || ADirectory(items, q)
      {
        if ADirectory(items[..last], q) {
          var j :| 0 <= j < last && !IsLeaf(items[..last][j]) && items[..last][j].record.path == q;
          assert items[j] == items[..last][j];
        } else if q == r.path && r.kind.DirectoryKind? {
          assert items[last].record.path == q;
        }
      }
      forall j | 0 <= j < |items| && !IsLeaf(items[j])
        ensures IsDirectory(w.tree, items[j].record)
      {
        if j < last {
          assert items[..last][j] == items[j];
        } else {
          forall k | 0 <= k < last
            ensures items[..last][k].record.path != r.path
          {
            assert items[..last][k] == items[k];
          }
        }
      }
    }
  }

  ghost predicate ADirectory(items: seq<Item>, q: Path) {
    exists j :: 0 <= j < |items| && !IsLeaf(items[j]) && items[j].record.path == q
  }

  lemma Finished(u: Volume, w: Volume, items: seq<Item>, j: nat)
    requires Streamable(items) && j < |items| && IsLeaf(items[j]) && StandsFor(u.tree, items, j)
    requires w.tree.inodes == u.tree.inodes && w.tree.names.Keys == u.tree.names.Keys
    requires forall q <- u.tree.names :: w.tree.names[q] == u.tree.names[q] || ADirectory(items, q)
    requires forall i, k :: 0 <= i < k < |items| ==> items[i].record.path != items[k].record.path
    requires AllStand(u.tree, u.next, items)
    ensures StandsFor(w.tree, items, j)
  {
    hide NewBody;
    forall l | 0 <= l < |items| && IsLeaf(items[l])
      ensures !ADirectory(items, items[l].record.path)
    {
    }
    forall l | 0 <= l < |items| && IsLeaf(items[l])
      ensures w.tree.names[items[l].record.path] == u.tree.names[items[l].record.path]
    {
      assert StandsFor(u.tree, items, l);
    }
  }

  lemma SoundStart(v: Volume, limits: Option<seq<Path>>)
    requires GoodNames(v.tree.names) && Linked(v.tree) && forall i <- v.tree.inodes :: i < v.next
    ensures Midway(v.tree, v.tree, [], limits, v.next) && AllStand(v.tree, v.next, [])
  {
    hide GoodNames;
    assert PathsOf([]) == {};
  }

  lemma MidwayNames(v: Tree, u: Tree, done: seq<Item>, limits: Option<seq<Path>>, n: nat)
    requires Midway(v, u, done, limits, n)
    ensures OldNames(v, u, done) && NewNames(v, u, done) && InodesKept(v, u, n)
  {
  }

  /** What is neither restored nor there before is a directory above something restored; what was there stays. */
  ghost predicate OthersStay(v: Tree, w: Tree, items: seq<Item>) {
    && (forall q <- v.names :: q in w.names)
    && (forall q <- v.names :: q in PathsOf(items) || w.names[q] == v.names[q] || Retimed(v.names[q], w.names[q]))
    && (forall q <- w.names :: q in v.names || q in PathsOf(items) || w.names[q].DirEntry?)
    && (forall q <- w.names :: q in v.names || exists j :: 0 <= j < |items| && q <= items[j].record.path)
  }

  lemma OthersFinal(v: Tree, u: Volume, w: Volume, items: seq<Item>)
    requires OldNames(v, u.tree, items) && NewNames(v, u.tree, items) && w.tree.names.Keys == u.tree.names.Keys
    requires forall q <- u.tree.names :: w.tree.names[q] == u.tree.names[q] || ADirectory(items, q)
    ensures OthersStay(v, w.tree, items)
  {
    hide Retimed;
    forall q | ADirectory(items, q)
      ensures q in PathsOf(items)
    {
      PathOf(items, q);
    }
  }

  /**
   What an accepted stream leaves, whatever the destination held: every recorded directory with its
   metadata; every other record under its name as the file, link or device it describes, or as another
   name of the very file it links to, each with the metadata of the last record of it; no file shared by
   two records that do not link to each other; and everything else as it was.
   */
  lemma RestoredMeans(v: Volume, items: seq<Item>, limits: Option<seq<Path>>)
    requires Streamable(items) && GoodNames(v.tree.names) && Linked(v.tree) && forall i <- v.tree.inodes :: i < v.next
    requires Restored(v, items, limits).Ok?
    ensures
      var w := Restored(v, items, limits).value;
      && (forall j :: 0 <= j < |items| && !IsLeaf(items[j]) ==> IsDirectory(w.tree, items[j].record))
      && (forall j :: 0 <= j < |items| && IsLeaf(items[j]) ==> StandsFor(w.tree, items, j))
      && FirstsApart(w.tree, items)
      && OthersStay(v.tree, w.tree, items)
      && forall i <- v.tree.inodes :: i in w.tree.inodes && w.tree.inodes[i] == v.tree.inodes[i]
  {
    hide RestoreItems, FinishDirs, StandsFor, GoodNames, Midway, OldNames, NewNames, Inside;
    SoundStart(v, limits);
    assert PathsOf([]) == {} && [] + items == items;
    ItemsStand(v.tree, v, [], items, limits, v.next);
    RestoredHeld(v, items, limits);
    var filled := RestoreItems(v, {}, items, limits).value;
    MidwayNames(v.tree, filled.tree, items, limits, v.next);
    DirectoriesFinal(filled, items);
    var w := FinishDirs(filled, items);
    OthersFinal(v.tree, filled, w, items);
    forall j | 0 <= j < |items| && IsLeaf(items[j])
      ensures StandsFor(w.tree, items, j)
    {
      Finished(filled, w, items, j);
    }
    FirstsFinal(filled, w, items);
  }

  lemma FirstsFinal(u: Volume, w: Volume, items: seq<Item>)
    requires Streamable(items) && AllStand(u.tree, u.next, items) && w.tree.names.Keys == u.tree.names.Keys
    requires forall q <- u.tree.names :: w.tree.names[q] == u.tree.names[q] || ADirectory(items, q)
    requires forall i, k :: 0 <= i < k < |items| ==> items[i].record.path != items[k].record.path
    ensures FirstsApart(w.tree, items)
  {
    hide NewBody, StandsFor;
    forall i, j | 0 <= i < j < |items| && First(items[i]) && First(items[j])
      ensures !SameInode(w.tree, items[i].record.path, items[j].record.path)
    {
      NoBody(items[i]);
      NoBody(items[j]);
      assert !SameInode(u.tree, items[i].record.path, items[j].record.path);
    }
  }
}
