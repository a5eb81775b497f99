/**
 The round trip: a stream written from a tree rebuilds it in an empty destination, and in one
 that any number of interrupted restores of the same stream have left half done.
 */
module BackupReplay {
  import opened Outcomes
  import opened Bytes
  import opened BackupTree
  import opened BackupExtents
  import opened BackupRecords
  import opened BackupStream
  import opened BackupRestore
  import opened BackupRoundTrip

  // --------------------------------------------------- directories, at the end

  /** What the last pass leaves: only directories' metadata differ. */
  ghost predicate SameNames(v: Volume, w: Volume) {
    && w == WithNames(v, w.tree.names) && w.tree.names.Keys == v.tree.names.Keys
    && (forall p <- v.tree.names :: SameEntry(v.tree.names[p], w.tree.names[p]))
  }

  function DirSet(t: Tree, v: Volume, p: Path): Volume
    requires p in t.names
  {
    if t.names[p].DirEntry? then WithNames(v, v.tree.names[p := t.names[p]]) else v
  }

  lemma FinishStep(t: Tree, roots: seq<Path>, order: seq<Path>, items: seq<Item>, v: Volume, k: nat)
    requires Backup(t, roots, order) && Describes(t, order, items) && 0 < k <= |order| && order[k - 1] in v.tree.names
    requires v.tree.names[order[k - 1]].DirEntry? <==> t.names[order[k - 1]].DirEntry?
    ensures FinishDirs(v, items[..k]) == FinishDirs(DirSet(t, v, order[k - 1]), items[..k - 1])
  {
    hide WellFormed, Apart, Visits;
    DescribesAt(t, order, items, k - 1);
    DescribedRecord(t, order, k - 1, items[k - 1]);
    RecordMeta(t, order, k - 1);
    assert items[..k][..k - 1] == items[..k - 1];
  }

  lemma FinishNothing(v: Volume)
    ensures FinishDirs(v, []) == v
  {
  }

  lemma {:induction false} DirsFinished(t: Tree, roots: seq<Path>, order: seq<Path>, items: seq<Item>, v: Volume,
      k: nat)
    requires Backup(t, roots, order) && Describes(t, order, items) && k <= |order|
    requires forall j :: 0 <= j < k ==>
      order[j] in v.tree.names && (v.tree.names[order[j]].DirEntry? <==> t.names[order[j]].DirEntry?)
    ensures SameNames(v, FinishDirs(v, items[..k]))
    ensures forall p <- v.tree.names :: p !in order[..k] ==> FinishDirs(v, items[..k]).tree.names[p] == v.tree.names[p]
    ensures forall j :: 0 <= j < k && t.names[order[j]].DirEntry? ==>
      FinishDirs(v, items[..k]).tree.names[order[j]] == t.names[order[j]]
    decreases k
  {
    hide WellFormed, Apart, Visits, FinishDirs;
    if k > 0 {
      var p := order[k - 1];
      FinishStep(t, roots, order, items, v, k);
      NotYet(t, roots, order, k - 1);
      assert order[..k] == order[..k - 1] + [p];
      DirsFinished(t, roots, order, items, DirSet(t, v, p), k - 1);
    } else {
      assert items[..0] == [];
      FinishNothing(v);
    }
  }

  lemma AllAlike(t: Tree, roots: seq<Path>, order: seq<Path>, v: Volume)
    requires Backup(t, roots, order) && Progress(t, roots, order, v, |order|)
    ensures forall j :: 0 <= j < |order| ==>
      order[j] in v.tree.names && (v.tree.names[order[j]].DirEntry? <==> t.names[order[j]].DirEntry?)
  {
    hide WellFormed, Apart, Visits, SoundVolume, Leftover, SameClass;
    forall j | 0 <= j < |order|
      ensures order[j] in v.tree.names && (v.tree.names[order[j]].DirEntry? <==> t.names[order[j]].DirEntry?)
    {
      assert Alike(t, v.tree, order[j]);
    }
  }

  /** No path is both below one root and above another. */
  lemma NotBetweenRoots(roots: seq<Path>, p: Path)
    requires Apart(roots) && Covered(roots, p)
    ensures !AboveRoot(roots, p)
  {
    var i :| 0 <= i < |roots| && roots[i] <= p;
    forall k | 0 <= k < |roots|
      ensures !(p < roots[k])
    {
      assert i != k ==> !(roots[i] <= roots[k]);
    }
  }

  lemma SameNamesAlike(t: Tree, v: Volume, w: Volume, p: Path)
    requires SameNames(v, w)
    ensures Alike(t, v.tree, p) ==> Alike(t, w.tree, p)
  {
    hide BodyAlike;
  }

  lemma SameNamesClass(t: Tree, v: Volume, w: Volume, p: Path, q: Path)
    requires SameNames(v, w)
    ensures SameClass(t, v.tree, p, q) ==> SameClass(t, w.tree, p, q)
  {
    if p in v.tree.names && q in v.tree.names {
      assert SameEntry(v.tree.names[p], w.tree.names[p]) && SameEntry(v.tree.names[q], w.tree.names[q]);
    }
  }

  lemma CoveredFinished(t: Tree, roots: seq<Path>, order: seq<Path>, v: Volume, p: Path)
    requires Backup(t, roots, order) && Progress(t, roots, order, v, |order|) && Covered(roots, p)
    ensures p in t.names <==> p in v.tree.names
    ensures p in t.names ==> Alike(t, v.tree, p)
  {
    hide WellFormed, SoundVolume, SameClass, NoRepeats, Covered, Replayable;
    assert order[..|order|] == order;
    if p in t.names {
      assert p in order;
      var j :| 0 <= j < |order| && order[j] == p;
      assert Alike(t, v.tree, order[j]);
    }
    NotBetweenRoots(roots, p);
    assert p in v.tree.names ==> p in order || Leftover(t, order, roots, v.tree, p);
  }

  lemma ClassFinished(t: Tree, roots: seq<Path>, order: seq<Path>, v: Volume, p: Path, q: Path)
    requires Backup(t, roots, order) && Progress(t, roots, order, v, |order|) && Covered(roots, p) && Covered(roots, q)
    requires p in t.names && q in t.names
    ensures SameClass(t, v.tree, p, q)
  {
    hide WellFormed, SoundVolume, SameClass, NoRepeats, Covered, Leftover;
    assert p in order && q in order;
    var i :| 0 <= i < |order| && order[i] == p;
    var j :| 0 <= j < |order| && order[j] == q;
    assert SameClass(t, v.tree, order[i], order[j]);
  }

  /** Once every record is restored and the directories are finished, the trees are the same. */
  lemma Finished(t: Tree, roots: seq<Path>, order: seq<Path>, items: seq<Item>, v: Volume)
    requires Backup(t, roots, order) && Describes(t, order, items) && Progress(t, roots, order, v, |order|)
    ensures SameTree(t, FinishDirs(v, items).tree, roots)
    ensures SameNames(v, FinishDirs(v, items))
  {
    hide WellFormed, Progress, Apart, Alike, SameClass, Covered;
    var w := FinishDirs(v, items);
    assert items[..|order|] == items;
    AllAlike(t, roots, order, v);
    DirsFinished(t, roots, order, items, v, |order|);
    forall p | Covered(roots, p)
      ensures p in t.names <==> p in w.tree.names
      ensures p in t.names ==> Alike(t, w.tree, p) && (t.names[p].DirEntry? ==> w.tree.names[p] == t.names[p])
    {
      CoveredFinished(t, roots, order, v, p);
      SameNamesAlike(t, v, w, p);
      if p in t.names {
        assert p in order;
      }
    }
    forall p <- t.names, q <- t.names | Covered(roots, p) && Covered(roots, q)
      ensures SameClass(t, w.tree, p, q)
    {
      ClassFinished(t, roots, order, v, p, q);
      SameNamesClass(t, v, w, p, q);
    }
  }

  // --------------------------------------------------------------- round trip

  /** A tree that can be backed up from these roots. */
  ghost predicate CanBackup(t: Tree, roots: seq<Path>) {
    WellFormed(t) && Apart(roots) && AllNamed(t, Order(t.names, roots)) && NoSockets(t, Order(t.names, roots))
  }

  /** An empty destination qualifies, and so does whatever an interrupted restore of the stream left. */
  ghost predicate Compatible(t: Tree, roots: seq<Path>, v: Volume)
    requires CanBackup(t, roots)
  {
    SoundVolume(v) && forall q <- v.tree.names :: Leftover(t, Order(t.names, roots), roots, v.tree, q)
  }

  lemma CanParts(t: Tree, roots: seq<Path>)
    requires CanBackup(t, roots)
    ensures WellFormed(t) && AllNamed(t, Order(t.names, roots)) && NoSockets(t, Order(t.names, roots))
  {
  }

  lemma BackupOf(t: Tree, roots: seq<Path>)
    requires CanBackup(t, roots)
    ensures Backup(t, roots, Order(t.names, roots))
  {
    OrderVisits(t.names, roots);
  }

  /** Everything named in a tree that has no sockets below the roots can be backed up. */
  lemma CanBackupWhen(t: Tree, roots: seq<Path>)
    requires WellFormed(t) && Apart(roots) && forall p <- t.names :: Covered(roots, p) ==> !HasSocket(t, p)
    ensures CanBackup(t, roots)
  {
    OrderVisits(t.names, roots);
    var order := Order(t.names, roots);
    forall k | 0 <= k < |order|
      ensures order[k] in t.names && !HasSocket(t, order[k])
    {
      assert order[k] in order;
    }
  }

  lemma EmptyCompatible(t: Tree, roots: seq<Path>, v: Volume)
    requires CanBackup(t, roots) && v.tree == Tree(map[], map[])
    ensures Compatible(t, roots, v) && Clear(t, Order(t.names, roots), v.tree)
  {
  }

  lemma StartsFrom(t: Tree, roots: seq<Path>, order: seq<Path>, v: Volume)
    requires Backup(t, roots, order) && CanBackup(t, roots) && Compatible(t, roots, v)
    ensures Progress(t, roots, order, v, 0)
  {
  }

  /** A symbolic link's record makes it, or makes another name for it. */
  lemma LinkRecord(t: Tree, order: seq<Path>, k: nat)
    requires WellFormed(t) && AllNamed(t, order) && NoSockets(t, order) && k < |order| && SymlinkAt(t, order[k])
    ensures MakesLink(RecordAt(t, order, k).kind, t.inodes[t.names[order[k]].ino].body.target)
    ensures RecordAt(t, order, k).kind.SymlinkKind? <==> forall j :: 0 <= j < k ==> !SameFile(t, order[j], order[k])
  {
    hide WellFormed;
    var j := RecordLinks(t, order, k);
    if j < k {
      assert SameFile(t, order[j], order[k]);
    }
    forall i | 0 <= i < j
      ensures !SameFile(t, order[i], order[k])
    {
      assert !LinksTo(t, order[i], t.names[order[k]].ino);
    }
  }

  /** No symbolic link stands in the destination where the source has a later name of one. */
  ghost predicate Clear(t: Tree, order: seq<Path>, w: Tree) {
    forall j, k :: 0 <= j < k < |order| && SymlinkAt(t, order[k]) && SameFile(t, order[j], order[k]) ==>
      !SymlinkAt(w, order[k])
  }

  /** What a compatible destination holds at a path of the walk is a link only if the source does. */
  lemma LinkThere(t: Tree, roots: seq<Path>, order: seq<Path>, v: Volume, k: nat)
    requires Backup(t, roots, order) && CanBackup(t, roots) && Compatible(t, roots, v) && k < |order|
    ensures SymlinkAt(v.tree, order[k]) ==> SymlinkAt(t, order[k])
  {
    hide Apart, Nested, NoRepeats, SoundVolume, SafePath, FirstKind;
    if SymlinkAt(v.tree, order[k]) {
      assert order[k] in order && Leftover(t, order, roots, v.tree, order[k]);
      var i :| 0 <= i < |order| && order[i] == order[k] &&
               MakesLink(RecordAt(t, order, i).kind, v.tree.inodes[v.tree.names[order[k]].ino].body.target);
      OrderIndex(t, roots, order, i, k);
      MadeLink(t, order, k, v.tree.inodes[v.tree.names[order[k]].ino].body.target);
    }
  }

  lemma MadeLink(t: Tree, order: seq<Path>, k: nat, target: string)
    requires WellFormed(t) && AllNamed(t, order) && NoSockets(t, order) && k < |order|
    requires MakesLink(RecordAt(t, order, k).kind, target)
    ensures SymlinkAt(t, order[k])
  {
  }

  lemma ClearIsFree(t: Tree, roots: seq<Path>, order: seq<Path>, v: Volume)
    requires Backup(t, roots, order) && CanBackup(t, roots) && Compatible(t, roots, v)
    ensures Clear(t, order, v.tree) <==> AllFree(t, order, v.tree, 0, |order|)
  {
    hide WellFormed, Apart, Visits, Compatible, CanBackup, RecordAt, SymlinkAt, SameFile;
    forall k | 0 <= k < |order|
      ensures Free(t, order, v.tree, k) <==>
        forall j :: 0 <= j < k && SymlinkAt(t, order[k]) && SameFile(t, order[j], order[k]) ==>
          !SymlinkAt(v.tree, order[k])
    {
      LinkThere(t, roots, order, v, k);
      if SymlinkAt(t, order[k]) {
        LinkRecord(t, order, k);
      }
    }
  }

  /**
   Restoring succeeds exactly when no symbolic link stands where the source has a later name of
   one, and then the tree is the source's.
   */
  lemma RestoresExactly(t: Tree, roots: seq<Path>, items: seq<Item>, limits: Option<seq<Path>>, v: Volume)
    requires CanBackup(t, roots) && Limits(limits, roots) && Compatible(t, roots, v)
    requires Describes(t, Order(t.names, roots), items) && Streamable(items)
    ensures
      var restored := Restored(v, items, limits);
      && (restored.Ok? <==> Clear(t, Order(t.names, roots), v.tree))
      && (restored.Ok? ==> SameTree(t, restored.value.tree, roots))
  {
    hide CanBackup, Compatible, SameTree, RestoreItems, FinishDirs, Streamable, Progress, Backup, Limits, AllFree,
      Clear;
    hide WellFormed, ItemDescribes;
    var order := Order(t.names, roots);
    BackupOf(t, roots);
    CanParts(t, roots);
    StartsFrom(t, roots, order, v);
    assert items[0..|order|] == items;
    NothingSeen(order);
    ItemsRestored(t, roots, order, v, 0, |order|, items, {}, limits);
    ClearIsFree(t, roots, order, v);
    if Clear(t, order, v.tree) {
      Finished(t, roots, order, items, RestoreItems(v, {}, items, limits).value);
    }
  }

  lemma NothingSeen(order: seq<Path>)
    ensures SeenBefore(order, {}, 0)
  {
  }

  /**
   The backup round trip: the stream written from a tree reads back to its records, and restoring
   it ends with the same paths, kinds, bytes, metadata and hard links below the roots. Into an
   empty destination no check of the restore rejects any record; into one that earlier attempts
   left, exactly those that find a symbolic link where a later name of one is to be made.
   */
  lemma RoundTrip(c: Codec, t: Tree, roots: seq<Path>, limits: Option<seq<Path>>, v: Volume)
    requires Faithful(c) && CanBackup(t, roots) && Limits(limits, roots) && Compatible(t, roots, v)
    requires Written(c, ItemsOf(t, Order(t.names, roots))).Ok?
    ensures
      var stream := Written(c, ItemsOf(t, Order(t.names, roots))).value;
      var items := Parsed(c, stream);
      && items.Ok? && Streamable(items.value)
      && (Restored(v, items.value, limits).Ok? <==> Clear(t, Order(t.names, roots), v.tree))
      && (Restored(v, items.value, limits).Ok? ==> SameTree(t, Restored(v, items.value, limits).value.tree, roots))
  {
    hide CanBackup, Compatible, SameTree, Restored, Written, Parsed, Streamable, Faithful, Limits, Clear, ItemAt,
      WellFormed, Describes;
    var order := Order(t.names, roots);
    CanParts(t, roots);
    ItemsDescribe(t, order);
    StreamRoundTrip(c, ItemsOf(t, order));
    RestoresExactly(t, roots, ItemsOf(t, order), limits, v);
  }

  // ------------------------------------------------------------- the whole root

  /** With no roots given, every entry of the top directory is one. */
  ghost function TopLevel(names: map<Path, Entry>): seq<Path> {
    var top := Sorted(ChildNames(names, []));
    seq(|top|, i requires 0 <= i < |top| => [top[i]])
  }

  lemma TopLevelRoots(t: Tree)
    requires WellFormed(t)
    ensures Apart(TopLevel(t.names)) && forall p <- t.names :: Covered(TopLevel(t.names), p)
  {
    var top := Sorted(ChildNames(t.names, []));
    var roots := TopLevel(t.names);
    SortedDistinct(ChildNames(t.names, []));
    forall i, k | 0 <= i < |roots| && 0 <= k < |roots| && i != k
      ensures !(roots[i] <= roots[k])
    {
      assert roots[i][0] == top[i] && roots[k][0] == top[k];
      assert if i < k then top[i] != top[k] else top[k] != top[i];
    }
    forall p <- t.names
      ensures Covered(roots, p)
    {
      AncestorIn(t.names, p[..1], p);
      ChildName(t.names, [], p[0]);
      assert [] + [p[0]] == p[..1];
      var i :| 0 <= i < |top| && top[i] == p[0];
      assert roots[i] <= p;
    }
  }

  // -------------------------------------------------------------------- replay

  /** Where a restore may be cut inside one record. */
  datatype Cut =
    | AtStart
    | AfterClearing
    | WithDirs(depth: nat)
    | AfterUnlink
    | Writing(inode: Inode)
    | Whole

  /** What may stand at a new leaf's path before its record is done: a file may hold anything yet. */
  predicate Partial(item: Item, inode: Inode)
    requires Readable(item.record) && |item.data| == DataSize(item.record)
  {
    var body := NewBody(item);
    SoundInode(inode) && body.Some? && (inode.body == body.value || (inode.body.FileBody? && body.value.FileBody?))
  }

  /** The destination at a cut. */
  function CutState(v: Volume, seen: set<Path>, item: Item, limits: Option<seq<Path>>, cut: Cut): Option<Volume>
    requires item.record.path != [] && Readable(item.record) && |item.data| == DataSize(item.record)
  {
    var p := item.record.path;
    var cleared := Cleared(v, seen, item.record, limits);
    if cut.AtStart? then Some(v)
    else if cleared.Refused? then None
    else
      var c := cleared.value;
      var above := MakeDirs(c, Parent(p));
      match cut
      case AtStart => Some(v)
      case AfterClearing => Some(c)
      case WithDirs(depth) =>
        if depth >= |p| then None
        else
          var made := MakeDirs(c, p[..depth]);
          if made.Ok? then Some(made.value) else None
      case AfterUnlink =>
        if above.Ok? && p in above.value.tree.names && above.value.tree.names[p].LeafEntry? &&
          !item.record.kind.DirectoryKind? then
          Some(Unlinked(above.value, p))
        else None
      case Writing(inode) =>
        if above.Ok? && !item.record.kind.DirectoryKind? && Partial(item, inode) then
          var m := above.value;
          Some(Created(if p in m.tree.names then Unlinked(m, p) else m, p, inode))
        else None
      case Whole =>
        var done := RestoreItem(v, seen, item, limits);
        if done.Ok? then Some(done.value) else None
  }

  /** Any state that differs only at one path, and is replayable there, is a state a restore may start from. */
  ghost predicate Midway(t: Tree, order: seq<Path>, v: Volume, w: Volume, q: Path)
    requires WellFormed(t) && AllNamed(t, order) && NoSockets(t, order) && q in t.names
  {
    && SoundVolume(w) && Kept(v.tree.names, w.tree.names, q)
    && (forall i <- v.tree.inodes :: i in w.tree.inodes && w.tree.inodes[i].body == v.tree.inodes[i].body)
    && (q in w.tree.names ==> (t.names[q].DirEntry? <==> w.tree.names[q].DirEntry?) && Replayable(t, order, w.tree, q))
  }

  lemma MidwaySymlink(t: Tree, order: seq<Path>, v: Volume, w: Volume, q: Path, p: Path)
    requires WellFormed(t) && AllNamed(t, order) && NoSockets(t, order) && SoundVolume(v) && q in t.names
    requires Midway(t, order, v, w, q) && p in v.tree.names && p != q
    ensures Replayable(t, order, v.tree, p) ==> Replayable(t, order, w.tree, p)
    ensures p in w.tree.names && SameEntry(v.tree.names[p], w.tree.names[p])
  {
    hide GoodNames, SoundInode, RecordAt, NoSockets, AllNamed, WellFormed;
  }

  lemma RestoredReplayable(t: Tree, order: seq<Path>, v: Volume, j: nat)
    requires WellFormed(t) && AllNamed(t, order) && NoSockets(t, order) && j < |order|
    requires Alike(t, v.tree, order[j])
    ensures Replayable(t, order, v.tree, order[j])
  {
    hide RecordAt;
    if SymlinkAt(v.tree, order[j]) {
      LinkRecord(t, order, j);
    }
  }

  lemma MidwayLeftover(t: Tree, roots: seq<Path>, order: seq<Path>, v: Volume, w: Volume, k: nat, p: Path)
    requires Backup(t, roots, order) && k < |order| && Progress(t, roots, order, v, k)
    requires Midway(t, order, v, w, order[k]) && p in w.tree.names
    ensures Leftover(t, order, roots, w.tree, p)
  {
    hide Apart, NoRepeats, Replayable, Nested, RecordAt, SoundVolume;
    assert order[k] in order;
    if p == order[k] {
    } else if p in v.tree.names {
      SoundBefore(t, roots, order, v, k);
      MidwaySymlink(t, order, v, w, order[k], p);
      if p in order[..k] {
        var j :| 0 <= j < k && order[j] == p;
        assert p in order && Alike(t, v.tree, order[j]);
        RestoredReplayable(t, order, v, j);
      } else {
        assert Leftover(t, order, roots, v.tree, p);
      }
    } else {
      NoNameEmpty(w);
      NewAbove(t, roots, order, k, p);
      DirNotLink(t, order, w.tree, p);
    }
  }

  lemma NoNameEmpty(w: Volume)
    requires SoundVolume(w)
    ensures [] !in w.tree.names
  {
  }

  lemma DirNotLink(t: Tree, order: seq<Path>, w: Tree, p: Path)
    requires WellFormed(t) && AllNamed(t, order) && NoSockets(t, order) && p in w.names && w.names[p].DirEntry?
    ensures Replayable(t, order, w, p)
  {
  }

  lemma MidwayCompatible(t: Tree, roots: seq<Path>, order: seq<Path>, v: Volume, w: Volume, k: nat)
    requires Backup(t, roots, order) && CanBackup(t, roots) && k < |order|
    requires Progress(t, roots, order, v, k)
    requires Midway(t, order, v, w, order[k])
    ensures Compatible(t, roots, w)
  {
    hide Progress, CanBackup, SoundVolume, Leftover, Apart, Visits, WellFormed;
    forall p <- w.tree.names
      ensures Leftover(t, order, roots, w.tree, p)
    {
      MidwayLeftover(t, roots, order, v, w, k, p);
    }
  }

  lemma FoundReplayable(t: Tree, roots: seq<Path>, order: seq<Path>, v: Volume, k: nat)
    requires Backup(t, roots, order) && k < |order| && Progress(t, roots, order, v, k) && order[k] in v.tree.names
    ensures Replayable(t, order, v.tree, order[k])
  {
    hide Apart, Nested, Visits, Replayable, RecordAt;
    NotYet(t, roots, order, k);
    assert order[k] in order;
    assert Leftover(t, order, roots, v.tree, order[k]);
  }

  /** Names that changed only around a path whose entry is gone, or is no link, are midway. */
  lemma NamesMidway(t: Tree, order: seq<Path>, v: Volume, w: Volume, q: Path)
    requires WellFormed(t) && AllNamed(t, order) && NoSockets(t, order) && q in t.names && SoundVolume(v)
    requires w == WithNames(v, w.tree.names) && GoodNames(w.tree.names) && Kept(v.tree.names, w.tree.names, q)
    requires q in w.tree.names ==>
      (t.names[q].DirEntry? <==> w.tree.names[q].DirEntry?) && !SymlinkAt(w.tree, q) &&
      (w.tree.names[q].LeafEntry? ==> w.tree.names[q].ino in v.tree.inodes)
    ensures Midway(t, order, v, w, q)
  {
    hide GoodNames, SoundInode, RecordAt, NoSockets, AllNamed, WellFormed;
  }

  /** Directories made on the way to a path leave the path alone. */
  lemma AbovePath(a: map<Path, Entry>, b: map<Path, Entry>, q: Path, depth: nat)
    requires depth < |q| && Kept(a, b, q[..depth]) && DirsAbove(a, q) && [] !in a && [] !in b
    requires depth > 0 ==> q[..depth] in b && b[q[..depth]].DirEntry?
    ensures Kept(a, b, q) && (q in b ==> q in a && SameEntry(a[q], b[q]))
  {
    assert q[..depth] < q;
  }

  lemma DirsMade(v: Volume, q: Path, depth: nat)
    requires GoodNames(v.tree.names) && PlainPath(q) && DirsAbove(v.tree.names, q) && depth < |q|
    ensures MakeDirs(v, q[..depth]).Ok?
    ensures
      var w := MakeDirs(v, q[..depth]).value;
      && w == WithNames(v, w.tree.names) && GoodNames(w.tree.names) && Kept(v.tree.names, w.tree.names, q)
      && (q in w.tree.names ==> q in v.tree.names && SameEntry(v.tree.names[q], w.tree.names[q]))
  {
    hide GoodNames, PlainName;
    forall i | 0 < i < depth && q[..depth][..i] in v.tree.names
      ensures v.tree.names[q[..depth][..i]].DirEntry?
    {
      assert q[..depth][..i] == q[..i];
    }
    MakeDirsKept(v, q[..depth]);
    NoEmptyName(v.tree.names);
    NoEmptyName(MakeDirs(v, q[..depth]).value.tree.names);
    AbovePath(v.tree.names, MakeDirs(v, q[..depth]).value.tree.names, q, depth);
  }

  lemma CutBeforeWrite(t: Tree, roots: seq<Path>, order: seq<Path>, v: Volume, k: nat, item: Item, seen: set<Path>,
      limits: Option<seq<Path>>, cut: Cut)
    requires Backup(t, roots, order) && k < |order| && Progress(t, roots, order, v, k) && Limits(limits, roots)
    requires Free(t, order, v.tree, k)
    requires ItemDescribes(t, order, k, item) && order[k] != []
    requires Readable(item.record) && |item.data| == DataSize(item.record) && item.record.path == order[k]
    requires (cut.AfterClearing? || cut.WithDirs?) && CutState(v, seen, item, limits, cut).Some?
    ensures Midway(t, order, v, CutState(v, seen, item, limits, cut).value, order[k])
  {
    hide WellFormed, Apart, Visits, Progress, GoodNames, Cleared, RecordAt, SafePath, MakeDirs, DirsAbove, DataOf;
    hide Kept, SoundVolume, Midway;
    var q := order[k];
    SoundBefore(t, roots, order, v, k);
    DescribedRecord(t, order, k, item);
    SafeHere(t, roots, order, v, k, limits);
    SafePlain(v.tree, q, limits);
    ClearedHere(t, roots, order, v, k, seen, limits);
    SameCleared(v, seen, item.record, RecordAt(t, order, k), limits);
    var c := Cleared(v, seen, item.record, limits).value;
    DirsAboveKept(v.tree.names, c.tree.names, q);
    if q in v.tree.names {
      FoundHere(t, roots, order, v, k);
      InodeThere(v, q);
    }
    if cut.WithDirs? {
      DirsMade(c, q, cut.depth);
      KeptAgain(v.tree.names, c.tree.names, MakeDirs(c, q[..cut.depth]).value.tree.names, q);
    }
    NamesMidway(t, order, v, CutState(v, seen, item, limits, cut).value, q);
  }

  lemma InodeThere(v: Volume, q: Path)
    requires SoundVolume(v) && q in v.tree.names
    ensures v.tree.names[q].LeafEntry? ==> v.tree.names[q].ino in v.tree.inodes
  {
  }

  /** A new inode under a free path. */
  lemma CreatedMidway(t: Tree, order: seq<Path>, v: Volume, f: Volume, k: nat, inode: Inode)
    requires WellFormed(t) && AllNamed(t, order) && NoSockets(t, order) && k < |order| && t.names[order[k]].LeafEntry?
    requires SoundVolume(v)
    requires f == WithNames(v, f.tree.names) && GoodNames(f.tree.names) && Kept(v.tree.names, f.tree.names, order[k])
    requires PlainPath(order[k]) && order[k] !in f.tree.names
    requires |order[k]| > 1 ==> Parent(order[k]) in f.tree.names && f.tree.names[Parent(order[k])].DirEntry?
    requires SoundInode(inode)
    requires (inode.body.LinkBody? ==> RecordAt(t, order, k).kind == SymlinkKind(inode.body.target))
    ensures Midway(t, order, v, Created(f, order[k], inode), order[k])
  {
    hide GoodNames, SoundInode, RecordAt, NoSockets, WellFormed, PlainName, Touched, Kept;
    var q := order[k];
    var w := Created(f, q, inode);
    EntryKept(f.tree.names, q, f.now, f.next);
    KeptAgain(v.tree.names, f.tree.names, w.tree.names, q);
    LinkedStill(v, w, q);
  }

  lemma LinkedStill(v: Volume, w: Volume, q: Path)
    requires SoundVolume(v) && Kept(v.tree.names, w.tree.names, q) && q in w.tree.names
    requires w.tree.names[q] == LeafEntry(v.next)
    requires v.next in w.tree.inodes && forall i <- v.tree.inodes :: i in w.tree.inodes
    ensures Linked(w.tree)
  {
    hide GoodNames, SoundInode;
  }

  lemma CutAtLeaf(t: Tree, roots: seq<Path>, order: seq<Path>, v: Volume, k: nat, item: Item, seen: set<Path>,
      limits: Option<seq<Path>>, cut: Cut)
    requires Backup(t, roots, order) && k < |order| && Progress(t, roots, order, v, k) && Limits(limits, roots)
    requires Free(t, order, v.tree, k)
    requires ItemDescribes(t, order, k, item) && order[k] != []
    requires Readable(item.record) && |item.data| == DataSize(item.record) && item.record.path == order[k]
    requires (cut.AfterUnlink? || cut.Writing?) && CutState(v, seen, item, limits, cut).Some?
    ensures Midway(t, order, v, CutState(v, seen, item, limits, cut).value, order[k])
  {
    hide WellFormed, Apart, Visits, Progress, GoodNames, Cleared, RecordAt, SafePath, MakeDirs, DirsAbove, DataOf;
    hide Kept, SoundVolume, Midway, Unlinked, SoundInode, Created;
    var q := order[k];
    SoundBefore(t, roots, order, v, k);
    DescribedRecord(t, order, k, item);
    SafeHere(t, roots, order, v, k, limits);
    SafePlain(v.tree, q, limits);
    ClearedHere(t, roots, order, v, k, seen, limits);
    SameCleared(v, seen, item.record, RecordAt(t, order, k), limits);
    var c := Cleared(v, seen, item.record, limits).value;
    RoomMade(t, roots, order, v, k, c);
    var m := MakeDirs(c, Parent(q)).value;
    var f := if q in m.tree.names then Unlinked(m, q) else m;
    if cut.Writing? {
      CreatedMidway(t, order, v, f, k, cut.inode);
    } else {
      NamesMidway(t, order, v, f, q);
    }
  }

  lemma SteppedMidway(t: Tree, roots: seq<Path>, order: seq<Path>, v: Volume, w: Volume, k: nat)
    requires Backup(t, roots, order) && k < |order| && Progress(t, roots, order, v, k)
    requires Progress(t, roots, order, w, k + 1)
    ensures forall p <- w.tree.names :: Leftover(t, order, roots, w.tree, p)
  {
    hide Apart, NoRepeats, Replayable, Nested, RecordAt, SoundVolume;
    forall p <- w.tree.names
      ensures Leftover(t, order, roots, w.tree, p)
    {
      if p in order[..k + 1] {
        var j :| 0 <= j < k + 1 && order[j] == p;
        assert p in order && Alike(t, w.tree, order[j]);
        RestoredReplayable(t, order, w, j);
      }
    }
  }

  lemma StartMidway(t: Tree, roots: seq<Path>, order: seq<Path>, v: Volume, k: nat)
    requires Backup(t, roots, order) && k < |order| && Progress(t, roots, order, v, k)
    ensures Midway(t, order, v, v, order[k])
  {
    hide Apart, Nested, Visits, Replayable, RecordAt, GoodNames;
    if order[k] in v.tree.names {
      FoundHere(t, roots, order, v, k);
      FoundReplayable(t, roots, order, v, k);
    }
  }

  /** Wherever a restore is cut inside a record, the next restore of the stream may start from there. */
  lemma CutCompatible(t: Tree, roots: seq<Path>, order: seq<Path>, v: Volume, k: nat, item: Item, seen: set<Path>,
      limits: Option<seq<Path>>, cut: Cut)
    requires Backup(t, roots, order) && CanBackup(t, roots) && k < |order|
    requires Progress(t, roots, order, v, k)
    requires Limits(limits, roots) && SeenBefore(order, seen, k)
    requires ItemDescribes(t, order, k, item) && order[k] != []
    requires Readable(item.record) && |item.data| == DataSize(item.record) && item.record.path == order[k]
    requires CutState(v, seen, item, limits, cut).Some?
    ensures Compatible(t, roots, CutState(v, seen, item, limits, cut).value)
  {
    hide WellFormed, Apart, Visits, Progress, CanBackup, Cleared, RestoreItem, MakeDirs, Unlinked;
    hide Created, Readable, Midway, Leftover, SoundVolume;
    DescribedRecord(t, order, k, item);
    var w := CutState(v, seen, item, limits, cut).value;
    if !cut.AtStart? && !Free(t, order, v.tree, k) {
      LinkedSymlinkRefused(t, roots, order, v, k, item, seen, limits);
    } else if cut.Whole? {
      ItemRestored(t, roots, order, v, k, item, seen, limits);
      SteppedMidway(t, roots, order, v, w, k);
      SoundBefore(t, roots, order, w, k + 1);
    } else {
      if cut.AtStart? {
        StartMidway(t, roots, order, v, k);
      } else if cut.AfterClearing? || cut.WithDirs? {
        CutBeforeWrite(t, roots, order, v, k, item, seen, limits, cut);
      } else {
        CutAtLeaf(t, roots, order, v, k, item, seen, limits, cut);
      }
      MidwayCompatible(t, roots, order, v, w, k);
    }
  }

  // ------------------------------------------------- any number of interruptions

  lemma {:induction false} FinishNames(v: Volume, items: seq<Item>)
    requires forall i :: 0 <= i < |items| && items[i].record.kind.DirectoryKind? ==>
      items[i].record.path in v.tree.names && v.tree.names[items[i].record.path].DirEntry?
    ensures SameNames(v, FinishDirs(v, items))
    decreases |items|
  {
    if items != [] {
      var r := items[|items| - 1].record;
      FinishNames(if r.kind.DirectoryKind? then ApplyMetadata(v, r.path, r.meta) else v, items[..|items| - 1]);
    }
  }

  /** A restore cut while it finishes the directories. */
  lemma FinishingCompatible(t: Tree, roots: seq<Path>, order: seq<Path>, items: seq<Item>, v: Volume, from: nat)
    requires Backup(t, roots, order) && Describes(t, order, items) && CanBackup(t, roots)
    requires Progress(t, roots, order, v, |order|) && from <= |order|
    ensures Compatible(t, roots, FinishDirs(v, items[from..]))
  {
    hide WellFormed, Apart, Visits, Progress, CanBackup, Leftover, SoundVolume, Alike;
    var late := items[from..];
    AllAlike(t, roots, order, v);
    forall i | 0 <= i < |late| && late[i].record.kind.DirectoryKind?
      ensures late[i].record.path in v.tree.names && v.tree.names[late[i].record.path].DirEntry?
    {
      DescribesAt(t, order, items, from + i);
      DescribedRecord(t, order, from + i, late[i]);
    }
    FinishNames(v, late);
    var w := FinishDirs(v, late);
    SoundBefore(t, roots, order, v, |order|);
    SameNamesSound(v, w);
    forall p <- w.tree.names
      ensures Leftover(t, order, roots, w.tree, p)
    {
      FinishingLeftover(t, roots, order, v, w, p);
    }
  }

  lemma SameNamesSound(v: Volume, w: Volume)
    requires SameNames(v, w) && SoundVolume(v)
    ensures SoundVolume(w)
  {
    hide SoundInode, PlainPath;
  }

  lemma FinishingLeftover(t: Tree, roots: seq<Path>, order: seq<Path>, v: Volume, w: Volume, p: Path)
    requires Backup(t, roots, order) && Progress(t, roots, order, v, |order|)
    requires SameNames(v, w) && p in w.tree.names
    ensures Leftover(t, order, roots, w.tree, p)
  {
    hide Apart, NoRepeats, Replayable, Nested, RecordAt, SoundVolume;
    assert order[..|order|] == order;
    if p in order {
      var j :| 0 <= j < |order| && order[j] == p;
      assert Alike(t, v.tree, order[j]);
      SameNamesAlike(t, v, w, p);
      RestoredReplayable(t, order, w, j);
    } else {
      assert Leftover(t, order, roots, v.tree, p);
    }
  }

  /** Where a restore of this backup into `v` may have stopped. */
  ghost predicate Interrupted(t: Tree, roots: seq<Path>, items: seq<Item>, limits: Option<seq<Path>>, v: Volume,
      w: Volume)
    requires CanBackup(t, roots)
  {
    var order := Order(t.names, roots);
    Describes(t, order, items) && Streamable(items) &&
    ((exists k, seen, cut ::
       0 <= k < |items| && SeenBefore(order, seen, k) && items[k].record.path != [] &&
       var before := RestoreItems(v, {}, items[..k], limits);
       before.Ok? && CutState(before.value, seen, items[k], limits, cut) == Some(w))
     || (exists from ::
       0 <= from <= |items| &&
       var filled := RestoreItems(v, {}, items, limits);
       filled.Ok? && w == FinishDirs(filled.value, items[from..])))
  }

  lemma InterruptedCompatible(t: Tree, roots: seq<Path>, items: seq<Item>, limits: Option<seq<Path>>, v: Volume,
      w: Volume)
    requires CanBackup(t, roots) && Limits(limits, roots)
    requires Compatible(t, roots, v)
    requires Interrupted(t, roots, items, limits, v, w)
    ensures Compatible(t, roots, w)
  {
    hide Compatible, RestoreItems, FinishDirs, Limits, WellFormed, Apart, CutState, Readable;
    hide DataSize, SeenBefore, AllNamed, NoSockets;
    var order := Order(t.names, roots);
    if k, seen, cut :|
      0 <= k < |items| && SeenBefore(order, seen, k) && items[k].record.path != [] &&
      var before := RestoreItems(v, {}, items[..k], limits);
      before.Ok? && CutState(before.value, seen, items[k], limits, cut) == Some(w)
    {
      InterruptedInRecord(t, roots, items, limits, v, w, k, seen, cut);
    } else {
      var from :|
        0 <= from <= |items| &&
        var filled := RestoreItems(v, {}, items, limits); filled.Ok? && w == FinishDirs(filled.value, items[from..]);
      InterruptedInFinish(t, roots, items, limits, v, w, from);
    }
  }

  lemma InterruptedInRecord(t: Tree, roots: seq<Path>, items: seq<Item>, limits: Option<seq<Path>>, v: Volume,
      w: Volume, k: nat,
      seen: set<Path>, cut: Cut)
    requires CanBackup(t, roots) && Limits(limits, roots)
    requires Compatible(t, roots, v)
    requires k < |Order(t.names, roots)| && SeenBefore(Order(t.names, roots), seen, k)
    requires Describes(t, Order(t.names, roots), items) && Streamable(items)
    requires items[k].record.path != []
    requires
      var before := RestoreItems(v, {}, items[..k], limits);
      before.Ok? && CutState(before.value, seen, items[k], limits, cut) == Some(w)
    ensures Compatible(t, roots, w)
  {
    hide Compatible, RestoreItems, Progress, Limits, WellFormed, Apart, Visits, CutState;
    hide Readable, DataSize, SeenBefore, NoSockets, AllNamed;
    var order := Order(t.names, roots);
    BackupOf(t, roots);
    StartsFrom(t, roots, order, v);
    NothingSeen(order);
    assert items[0..k] == items[..k];
    ItemsRestored(t, roots, order, v, 0, k, items, {}, limits);
    DescribesAt(t, order, items, k);
    DescribedRecord(t, order, k, items[k]);
    CutCompatible(t, roots, order, RestoreItems(v, {}, items[..k], limits).value, k, items[k], seen, limits, cut);
  }

  lemma InterruptedInFinish(t: Tree, roots: seq<Path>, items: seq<Item>, limits: Option<seq<Path>>, v: Volume,
      w: Volume, from: nat)
    requires CanBackup(t, roots) && Limits(limits, roots)
    requires Compatible(t, roots, v)
    requires from <= |Order(t.names, roots)| && Describes(t, Order(t.names, roots), items) && Streamable(items)
    requires
      var filled := RestoreItems(v, {}, items, limits);
      filled.Ok? && w == FinishDirs(filled.value, items[from..])
    ensures Compatible(t, roots, w)
  {
    hide Compatible, RestoreItems, FinishDirs, Progress, Limits, WellFormed, Apart, Visits;
    hide Readable, DataSize, SeenBefore, NoSockets, AllNamed;
    var order := Order(t.names, roots);
    BackupOf(t, roots);
    StartsFrom(t, roots, order, v);
    NothingSeen(order);
    assert items[0..|order|] == items;
    ItemsRestored(t, roots, order, v, 0, |order|, items, {}, limits);
    FinishingCompatible(t, roots, order, items, RestoreItems(v, {}, items, limits).value, from);
  }

  /** Restores interrupted one after the other, each starting where the last one stopped. */
  ghost predicate Attempts(t: Tree, roots: seq<Path>, items: seq<Item>, limits: Option<seq<Path>>, vs: seq<Volume>)
    requires CanBackup(t, roots)
  {
    vs != [] && Compatible(t, roots, vs[0]) && forall i :: 0 < i < |vs| ==>
      Interrupted(t, roots, items, limits, vs[i - 1], vs[i])
  }

  lemma {:induction false} AttemptsCompatible(t: Tree, roots: seq<Path>, items: seq<Item>, limits: Option<seq<Path>>,
      vs: seq<Volume>)
    requires CanBackup(t, roots) && Limits(limits, roots)
    requires Attempts(t, roots, items, limits, vs)
    ensures Compatible(t, roots, vs[|vs| - 1])
    decreases |vs|
  {
    hide CanBackup, Limits, Compatible, Interrupted;
    if |vs| > 1 {
      AttemptsCompatible(t, roots, items, limits, vs[..|vs| - 1]);
      InterruptedCompatible(t, roots, items, limits, vs[|vs| - 2], vs[|vs| - 1]);
    }
  }

  /**
   Replay: however often a restore was interrupted, inside any record or while the directories
   were finished, restoring the same stream again succeeds exactly when none of the attempts has
   yet made a later name of a symbolic link, and then ends in the same tree.
   */
  lemma ReplayRebuilds(c: Codec, t: Tree, roots: seq<Path>, limits: Option<seq<Path>>, vs: seq<Volume>)
    requires Faithful(c) && CanBackup(t, roots) && Limits(limits, roots)
    requires Written(c, ItemsOf(t, Order(t.names, roots))).Ok?
    requires Attempts(t, roots, ItemsOf(t, Order(t.names, roots)), limits, vs)
    ensures
      var items := Parsed(c, Written(c, ItemsOf(t, Order(t.names, roots))).value);
      var v := vs[|vs| - 1];
      && items.Ok? && Streamable(items.value)
      && (Restored(v, items.value, limits).Ok? <==> Clear(t, Order(t.names, roots), v.tree))
      && (Restored(v, items.value, limits).Ok? ==> SameTree(t, Restored(v, items.value, limits).value.tree, roots))
  {
    hide Compatible, CanBackup, Faithful, Written, Parsed, Restored, SameTree, Limits, Interrupted, Clear;
    CanParts(t, roots);
    AttemptsCompatible(t, roots, ItemsOf(t, Order(t.names, roots)), limits, vs);
    RoundTrip(c, t, roots, limits, vs[|vs| - 1]);
  }

  /** No symbolic link of the source has a second name. */
  ghost predicate LoneSymlinks(t: Tree, order: seq<Path>) {
    forall i, k :: 0 <= i < k < |order| && SymlinkAt(t, order[k]) ==> !SameFile(t, order[i], order[k])
  }

  /** Restoring succeeds after every sequence of interrupted attempts that began with an empty destination. */
  ghost predicate AlwaysReplays(t: Tree, roots: seq<Path>, items: seq<Item>, limits: Option<seq<Path>>)
    requires CanBackup(t, roots) && Describes(t, Order(t.names, roots), items) && Streamable(items)
  {
    forall vs: seq<Volume> :: Attempts(t, roots, items, limits, vs) && vs[0].tree == Tree(map[], map[]) ==>
      Restored(vs[|vs| - 1], items, limits).Ok?
  }

  /** A restore that was not cut leaves every later name of a symbolic link in the way of the next. */
  lemma WholeAttempt(t: Tree, roots: seq<Path>, items: seq<Item>, limits: Option<seq<Path>>)
    returns (vs: seq<Volume>)
    requires CanBackup(t, roots) && Limits(limits, roots) && Describes(t, Order(t.names, roots), items) &&
      Streamable(items)
    ensures Attempts(t, roots, items, limits, vs) && vs[0].tree == Tree(map[], map[])
    ensures SameTree(t, vs[|vs| - 1].tree, roots)
  {
    hide CanBackup, Compatible, Limits, Streamable, Clear, SameTree, RestoreItems, FinishDirs, WellFormed;
    CanParts(t, roots);
    var empty := Volume(Tree(map[], map[]), 0, 0);
    EmptyCompatible(t, roots, empty);
    RestoresExactly(t, roots, items, limits, empty);
    assert items[0..] == items;
    var whole := Restored(empty, items, limits).value;
    assert Interrupted(t, roots, items, limits, empty, whole);
    vs := [empty, whole];
  }

  /** The second name of a symbolic link stands in every finished tree. */
  lemma FinishedNotClear(t: Tree, roots: seq<Path>, w: Tree)
    requires CanBackup(t, roots) && SameTree(t, w, roots) && !LoneSymlinks(t, Order(t.names, roots))
    ensures !Clear(t, Order(t.names, roots), w)
  {
    hide WellFormed, Apart, NoRepeats;
    var order := Order(t.names, roots);
    BackupOf(t, roots);
    var i, k :| 0 <= i < k < |order| && SymlinkAt(t, order[k]) && SameFile(t, order[i], order[k]);
    CoveredAt(t, roots, order, k);
    assert Alike(t, w, order[k]);
  }

  /**
   Replay always works exactly for the sources in which no symbolic link has a second name: with
   one, the first name is made anew before the second is compared with it.
   */
  lemma ReplaysAlways(t: Tree, roots: seq<Path>, items: seq<Item>, limits: Option<seq<Path>>)
    requires CanBackup(t, roots) && Limits(limits, roots) && Describes(t, Order(t.names, roots), items) &&
      Streamable(items)
    ensures AlwaysReplays(t, roots, items, limits) <==> LoneSymlinks(t, Order(t.names, roots))
  {
    hide CanBackup, Compatible, Limits, Streamable, SameTree, Restored, Interrupted, SymlinkAt, SameFile;
    hide WellFormed;
    var order := Order(t.names, roots);
    CanParts(t, roots);
    if LoneSymlinks(t, order) {
      forall vs: seq<Volume> | Attempts(t, roots, items, limits, vs)
        ensures Restored(vs[|vs| - 1], items, limits).Ok?
      {
        AttemptsCompatible(t, roots, items, limits, vs);
        RestoresExactly(t, roots, items, limits, vs[|vs| - 1]);
      }
    } else {
      var vs := WholeAttempt(t, roots, items, limits);
      AttemptsCompatible(t, roots, items, limits, vs);
      RestoresExactly(t, roots, items, limits, vs[|vs| - 1]);
      FinishedNotClear(t, roots, vs[|vs| - 1].tree);
    }
  }
}
