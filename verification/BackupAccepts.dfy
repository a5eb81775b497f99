/** Exactly which streams a destination accepts, said of the stream and of the destination as it was. */
module BackupAccepts {
  import opened Outcomes
  import opened Bytes
  import opened BackupTree
  import opened BackupExtents
  import opened BackupRecords
  import opened BackupStream
  import opened BackupRestore
  import opened BackupConfined

  // ------------------------------------------------------------ directories made

  lemma NestedAbove(names: map<Path, Entry>, p: Path, i: nat)
    requires GoodNames(names) && p in names && 0 < i < |p|
    ensures p[..i] in names && names[p[..i]].DirEntry?
    decreases |p|
  {
    hide PlainName;
    var above := Parent(p);
    if i < |above| {
      NestedAbove(names, above, i);
      assert above[..i] == p[..i];
    } else {
      assert above == p[..i];
    }
  }

  lemma {:induction false} MakeDirsNeeds(v: Volume, p: Path)
    requires GoodNames(v.tree.names) && MakeDirs(v, p).Ok?
    ensures DirsAbove(v.tree.names, p) && (p in v.tree.names ==> v.tree.names[p].DirEntry?)
    decreases |p|
  {
    hide PlainName;
    var names := v.tree.names;
    forall i | 0 < i < |p| && p[..i] in names
      ensures names[p[..i]].DirEntry?
    {
      if p in names {
        NestedAbove(names, p, i);
      } else {
        MakeDirsNeeds(v, Parent(p));
        if i < |p| - 1 { assert Parent(p)[..i] == p[..i]; }
      }
    }
  }

  // ------------------------------------------------------------------ one record

  /** What a record needs of the destination as it finds it. */
  ghost predicate FitsNow(t: Tree, seen: set<Path>, r: Record, limits: Option<seq<Path>>) {
    && PlainPath(r.path) && (limits.Some? ==> Inside(limits.value, r.path)) && r.path !in seen
    && DirsAbove(t.names, r.path)
    && (r.path in t.names ==> (t.names[r.path].DirEntry? <==> r.kind.DirectoryKind?))
    && (SymlinkAt(t, r.path) ==> r.kind == SymlinkKind(t.inodes[t.names[r.path].ino].body.target))
    && (r.kind.HardlinkKind? ==> r.kind.link in seen && r.kind.link in t.names && t.names[r.kind.link].LeafEntry?)
  }

  /** The names restored so far stand, inside the limits, for inodes of this restore; all others for older ones. */
  ghost predicate Underway(t: Tree, seen: set<Path>, limits: Option<seq<Path>>, n: nat) {
    && GoodNames(t.names) && Own(t, seen, n)
    && (forall p <- seen :: p in t.names && (limits.Some? ==> Inside(limits.value, p)))
    && forall p <- t.names :: p !in seen && t.names[p].LeafEntry? ==> t.names[p].ino < n
  }

  lemma SafeIs(t: Tree, p: Path, limits: Option<seq<Path>>)
    requires DirsAbove(t.names, p)
    ensures SafePath(t, p, limits) <==> PlainPath(p) && (limits.Some? ==> Inside(limits.value, p))
  {
    hide PlainPath, Inside;
    if limits.Some? { InsideIs(limits.value, p); }
  }

  lemma AboveDirs(names: map<Path, Entry>, p: Path)
    requires GoodNames(names) && p in names
    ensures DirsAbove(names, p)
  {
    hide GoodNames;
    forall i | 0 < i < |p| && p[..i] in names
      ensures names[p[..i]].DirEntry?
    {
      NestedAbove(names, p, i);
    }
  }

  /** The link standing in the way is never one of this restore's. */
  lemma NotLinked(v: Volume, seen: set<Path>, r: Record, limits: Option<seq<Path>>, n: nat)
    requires Underway(v.tree, seen, limits, n) && r.path !in seen && SymlinkAt(v.tree, r.path)
    ensures Cleared(v, seen, r, limits).Ok? <==>
      r.kind == SymlinkKind(v.tree.inodes[v.tree.names[r.path].ino].body.target)
  {
    hide GoodNames, SafePath, Inside;
  }

  lemma DirsAboveChanged(a: map<Path, Entry>, b: map<Path, Entry>, p: Path)
    requires ChangedAt(a, b, p) && GoodNames(a) && p in a
    ensures DirsAbove(b, p)
  {
    hide GoodNames;
    forall i | 0 < i < |p| && p[..i] in b
      ensures b[p[..i]].DirEntry?
    {
      NestedAbove(a, p, i);
      assert p[..i] < p;
    }
  }

  /** A cleared destination fits the record as the uncleared one did, with nothing but a leaf to replace. */
  lemma ClearedFits(v: Volume, seen: set<Path>, r: Record, limits: Option<seq<Path>>)
    requires GoodNames(v.tree.names) && PlainPath(r.path) && Cleared(v, seen, r, limits).Ok?
    ensures
      var c := Cleared(v, seen, r, limits).value;
      && GoodNames(c.tree.names)
      && (DirsAbove(c.tree.names, r.path) <==> DirsAbove(v.tree.names, r.path))
      && (r.path in c.tree.names ==> c == v)
      && (SymlinkAt(v.tree, r.path) ==> r.path !in c.tree.names)
  {
    hide PlainName, Unlinked, SafePath;
    if SymlinkAt(v.tree, r.path) {
      UnlinkedKept(v, r.path);
      UnlinkedAt(v, r.path);
      DirsAboveChanged(v.tree.names, Unlinked(v, r.path).tree.names, r.path);
      AboveDirs(v.tree.names, r.path);
    }
  }

  lemma DirectoryIs(v: Volume, seen: set<Path>, item: Item, limits: Option<seq<Path>>, n: nat)
    requires Readable(item.record) && |item.data| == DataSize(item.record) && item.record.kind.DirectoryKind?
    requires Underway(v.tree, seen, limits, n)
    ensures RestoreItem(v, seen, item, limits).Ok? <==> FitsNow(v.tree, seen, item.record, limits)
  {
    hide PlainPath, Inside, GoodNames, DirsAbove, Readable, Own;
    var p := item.record.path;
    if PlainPath(p) && p !in seen && !SymlinkAt(v.tree, p) {
      assert p != [] by { NotEmpty(p); }
      if MakeDirs(v, p).Ok? {
        MakeDirsNeeds(v, p);
      }
      if DirsAbove(v.tree.names, p) && (p in v.tree.names ==> v.tree.names[p].DirEntry?) {
        MakeDirsKept(v, p);
      }
    }
    if SymlinkAt(v.tree, p) && p !in seen {
      NotLinked(v, seen, item.record, limits, n);
    }
    if DirsAbove(v.tree.names, p) {
      SafeIs(v.tree, p, limits);
    }
    SafeParts(v.tree, p, limits);
  }

  lemma NotEmpty(p: Path)
    requires PlainPath(p)
    ensures p != []
  {
  }

  lemma SafeParts(t: Tree, p: Path, limits: Option<seq<Path>>)
    ensures SafePath(t, p, limits) ==> PlainPath(p) && (limits.Some? ==> Inside(limits.value, p))
  {
    hide PlainPath, Inside;
    if limits.Some? { InsideIs(limits.value, p); }
  }

  /** Where a leaf goes: its directory made, and an older leaf of its name removed. */
  ghost predicate Opened(v: Volume, free: Volume, p: Path) {
    && ChangedAt(v.tree.names, free.tree.names, p) && GoodNames(free.tree.names) && free.next == v.next
    && free.tree.inodes == v.tree.inodes && p !in free.tree.names
    && (|p| > 1 ==> Parent(p) in free.tree.names && free.tree.names[Parent(p)].DirEntry?)
  }

  lemma OpenedHere(v: Volume, p: Path)
    requires GoodNames(v.tree.names) && PlainPath(p) && DirsAbove(v.tree.names, p)
    requires p in v.tree.names ==> v.tree.names[p].LeafEntry?
    ensures MakeDirs(v, Parent(p)).Ok?
    ensures
      var w := MakeDirs(v, Parent(p)).value;
      && (p in w.tree.names ==> w.tree.names[p].LeafEntry?)
      && Opened(v, if p in w.tree.names then Unlinked(w, p) else w, p)
  {
    hide PlainName, MakeDirs, Unlinked, Touched;
    if |p| > 1 { PlainParent(p); }
    DirsAboveParent(v.tree.names, p);
    MakeDirsKept(v, Parent(p));
    MakeDirsAt(v, Parent(p));
    var w := MakeDirs(v, Parent(p)).value;
    AncestryChanged(v.tree.names, w.tree.names, p);
    if p in w.tree.names {
      assert p in v.tree.names && w.tree.names[p] == v.tree.names[p];
      UnlinkedKept(w, p);
      UnlinkedAt(w, p);
      ChangedTwice(v.tree.names, w.tree.names, Unlinked(w, p).tree.names, p);
    }
  }

  /** An earlier path can be linked to exactly when it is not a directory. */
  lemma LinkFits(v: Volume, free: Volume, p: Path, link: Path, seen: set<Path>, limits: Option<seq<Path>>, n: nat)
    requires Underway(v.tree, seen, limits, n) && Opened(v, free, p) && p !in seen && link in seen
    ensures SafePath(free.tree, link, limits) && link in free.tree.names
    ensures free.tree.names[link].DirEntry? <==> v.tree.names[link].DirEntry?
  {
    hide PlainName, Inside;
    assert link in v.tree.names && link != p;
    AboveDirs(free.tree.names, link);
    SafeIs(free.tree, link, limits);
  }

  lemma PutLeafIs(v: Volume, seen: set<Path>, item: Item, limits: Option<seq<Path>>, n: nat)
    requires Readable(item.record) && |item.data| == DataSize(item.record) && !item.record.kind.DirectoryKind?
    requires Underway(v.tree, seen, limits, n) && PlainPath(item.record.path) && item.record.path !in seen
    ensures
      var p, kind, names := item.record.path, item.record.kind, v.tree.names;
      PutLeaf(v, seen, item, limits).Ok? <==>
        && DirsAbove(names, p) && (p in names ==> names[p].LeafEntry?)
        && (kind.HardlinkKind? ==> kind.link in seen && kind.link in names && names[kind.link].LeafEntry?)
  {
    hide PlainName, Inside, GoodNames, DirsAbove, Readable, Own, Opened, NewBody, Unlinked, MakeDirs, SafePath, Mapped;
    var p, kind := item.record.path, item.record.kind;
    NoBody(item);
    if DirsAbove(v.tree.names, p) && (p in v.tree.names ==> v.tree.names[p].LeafEntry?) {
      OpenedHere(v, p);
      var w := MakeDirs(v, Parent(p)).value;
      var free := if p in w.tree.names then Unlinked(w, p) else w;
      if kind.HardlinkKind? && kind.link in seen {
        LinkFits(v, free, p, kind.link, seen, limits, n);
      }
    } else if MakeDirs(v, Parent(p)).Ok? {
      MakeDirsNeeds(v, Parent(p));
      MakeDirsAt(v, Parent(p));
      ParentDirs(v.tree.names, p);
    }
  }

  lemma ParentDirs(names: map<Path, Entry>, p: Path)
    requires p != [] && DirsAbove(names, Parent(p)) && (Parent(p) in names ==> names[Parent(p)].DirEntry?)
    ensures DirsAbove(names, p)
  {
    forall i | 0 < i < |p| && p[..i] in names
      ensures names[p[..i]].DirEntry?
    {
      if i < |p| - 1 { assert p[..i] == Parent(p)[..i]; }
    }
  }

  /** A record is restored exactly when it fits the destination as it finds it. */
  lemma ItemIs(v: Volume, seen: set<Path>, item: Item, limits: Option<seq<Path>>, n: nat)
    requires Readable(item.record) && |item.data| == DataSize(item.record) && Underway(v.tree, seen, limits, n)
    ensures RestoreItem(v, seen, item, limits).Ok? <==> FitsNow(v.tree, seen, item.record, limits)
  {
    if item.record.kind.DirectoryKind? {
      DirectoryIs(v, seen, item, limits, n);
    } else {
      LeafIs(v, seen, item, limits, n);
    }
  }

  lemma UnderwayWithout(t: Tree, w: Tree, seen: set<Path>, p: Path, limits: Option<seq<Path>>, n: nat)
    requires Underway(t, seen, limits, n) && ChangedAt(t.names, w.names, p) && GoodNames(w.names)
    requires p !in w.names && p !in seen
    ensures Underway(w, seen, limits, n)
    ensures forall q <- seen :: q in w.names && (w.names[q].LeafEntry? <==> t.names[q].LeafEntry?)
  {
    hide GoodNames, Inside;
    OwnStays(t, w, seen, n, p);
    assert seen - {p} == seen;
  }

  lemma ClearedUnderway(v: Volume, seen: set<Path>, r: Record, limits: Option<seq<Path>>, n: nat)
    requires Underway(v.tree, seen, limits, n) && PlainPath(r.path) && r.path !in seen
    requires Cleared(v, seen, r, limits).Ok?
    ensures
      var c := Cleared(v, seen, r, limits).value;
      && Underway(c.tree, seen, limits, n)
      && (forall q <- seen :: q in c.tree.names && (c.tree.names[q].LeafEntry? <==> v.tree.names[q].LeafEntry?))
  {
    hide Cleared, PlainPath, GoodNames, Own, Inside, SymlinkAt, ChangedAt;
    NotEmpty(r.path);
    ClearedFits(v, seen, r, limits);
    ClearedAt(v, seen, r, limits);
    NothingCleared(v, seen, r, limits);
    if SymlinkAt(v.tree, r.path) {
      UnderwayWithout(v.tree, Cleared(v, seen, r, limits).value.tree, seen, r.path, limits, n);
    }
  }

  lemma LeafIs(v: Volume, seen: set<Path>, item: Item, limits: Option<seq<Path>>, n: nat)
    requires Readable(item.record) && |item.data| == DataSize(item.record) && !item.record.kind.DirectoryKind?
    requires Underway(v.tree, seen, limits, n)
    ensures RestoreItem(v, seen, item, limits).Ok? <==> FitsNow(v.tree, seen, item.record, limits)
  {
    hide PlainName, Inside, GoodNames, DirsAbove, Readable, Own, Cleared, PutLeaf, SafePath, Underway, Mapped;
    var r, p := item.record, item.record.path;
    SafeParts(v.tree, p, limits);
    if DirsAbove(v.tree.names, p) {
      SafeIs(v.tree, p, limits);
    }
    if PlainPath(p) && p !in seen {
      if SymlinkAt(v.tree, p) {
        NotLinked(v, seen, r, limits, n);
      }
      NothingCleared(v, seen, r, limits);
      if Cleared(v, seen, r, limits).Ok? {
        var c := Cleared(v, seen, r, limits).value;
        ClearedUnderway(v, seen, r, limits, n);
        assert GoodNames(v.tree.names) by { Named(v.tree, seen, limits, n); }
        ClearedFits(v, seen, r, limits);
        PutLeafIs(c, seen, item, limits, n);
        assert forall q <- seen :: q in v.tree.names by { Named(v.tree, seen, limits, n); }
      }
    }
  }

  lemma NothingCleared(v: Volume, seen: set<Path>, r: Record, limits: Option<seq<Path>>)
    ensures !SymlinkAt(v.tree, r.path) ==> Cleared(v, seen, r, limits) == Ok(v)
  {
  }

  lemma Named(t: Tree, seen: set<Path>, limits: Option<seq<Path>>, n: nat)
    requires Underway(t, seen, limits, n)
    ensures GoodNames(t.names) && Own(t, seen, n) && forall q <- seen :: q in t.names
  {
  }

  // ------------------------------------------------------------ the whole stream

  /** Names that lead nowhere but down: none empty, none a dot or two, none with a slash. */
  ghost predicate DownOnly(p: Path) {
    0 < |p| && forall name <- p :: 0 < |name| && name != "." && name != ".." && forall c <- name :: c != '/'
  }

  lemma DownIs(p: Path)
    ensures PlainPath(p) <==> DownOnly(p)
  {
    if PlainPath(p) {
      forall name <- p
        ensures PlainName(name)
      {
        var i :| 0 <= i < |p| && p[i] == name;
      }
    }
    if DownOnly(p) {
      forall i | 0 <= i < |p|
        ensures PlainName(p[i])
      {
        assert p[i] in p;
      }
    }
  }

  /** What a record needs of the destination as it was at first, and of the records before it. */
  ghost predicate FitsThen(t: Tree, done: seq<Item>, r: Record, limits: Option<seq<Path>>) {
    && DownOnly(r.path) && (limits.Some? ==> Inside(limits.value, r.path))
    && (forall j :: 0 <= j < |done| ==> done[j].record.path != r.path)
    && (forall j :: 0 <= j < |done| && done[j].record.path < r.path ==> done[j].record.kind.DirectoryKind?)
    && (forall j :: 0 <= j < |done| && r.path < done[j].record.path ==> r.kind.DirectoryKind?)
    && DirsAbove(t.names, r.path)
    && (r.path in t.names ==> (t.names[r.path].DirEntry? <==> r.kind.DirectoryKind?))
    && (SymlinkAt(t, r.path) ==> r.kind == SymlinkKind(t.inodes[t.names[r.path].ino].body.target))
    && (r.kind.HardlinkKind? ==> exists j ::
         0 <= j < |done| && done[j].record.path == r.kind.link && !done[j].record.kind.DirectoryKind?)
  }

  /** Every record of the stream fits. */
  ghost predicate Acceptable(t: Tree, items: seq<Item>, limits: Option<seq<Path>>) {
    forall k :: 0 <= k < |items| ==> FitsThen(t, items[..k], items[k].record, limits)
  }

  ghost predicate AsRecorded(t: Tree, r: Record)
    requires r.path in t.names
  {
    t.names[r.path].DirEntry? <==> r.kind.DirectoryKind?
  }

  /** What was there is there, the same but for the restored names and for the times of directories. */
  ghost predicate OldNames(v: Tree, u: Tree, done: seq<Item>) {
    && (forall q <- v.names :: q in u.names)
    && (forall q <- v.names :: q in PathsOf(done) || u.names[q] == v.names[q] || Retimed(v.names[q], u.names[q]))
  }

  /** What is new is restored, or a directory above something restored. */
  ghost predicate NewNames(v: Tree, u: Tree, done: seq<Item>) {
    && (forall q <- u.names :: q in v.names || exists j :: 0 <= j < |done| && q <= done[j].record.path)
    && (forall q <- u.names :: q in v.names || q in PathsOf(done) || u.names[q].DirEntry?)
  }

  /** What is restored stands as recorded, and stood so before if it did. */
  ghost predicate RestoredNames(v: Tree, u: Tree, done: seq<Item>) {
    && (forall j :: 0 <= j < |done| ==> done[j].record.path in u.names && AsRecorded(u, done[j].record))
    && (forall j :: 0 <= j < |done| && done[j].record.path in v.names ==> AsRecorded(v, done[j].record))
  }

  /** The destination when these records are restored: theirs, and whatever else was there. */
  ghost predicate Midway(v: Tree, u: Tree, done: seq<Item>, limits: Option<seq<Path>>, n: nat) {
    && Underway(u, PathsOf(done), limits, n) && InodesKept(v, u, n)
    && OldNames(v, u, done) && NewNames(v, u, done) && RestoredNames(v, u, done)
  }

  lemma PathOf(done: seq<Item>, p: Path)
    ensures p in PathsOf(done) <==> exists j :: 0 <= j < |done| && done[j].record.path == p
  {
  }

  lemma SameDir(v: Tree, u: Tree, done: seq<Item>, q: Path, limits: Option<seq<Path>>, n: nat)
    requires Midway(v, u, done, limits, n)
    ensures (q in u.names ==> u.names[q].DirEntry?) <==>
      (q in v.names ==> v.names[q].DirEntry?) && DirsOnly(done, q)
  {
    hide Underway, InodesKept, PathsOf;
    PathOf(done, q);
  }

  ghost predicate DirsOnly(done: seq<Item>, q: Path) {
    forall j :: 0 <= j < |done| && done[j].record.path == q ==> done[j].record.kind.DirectoryKind?
  }

  lemma SameAbove(v: Tree, u: Tree, done: seq<Item>, p: Path, limits: Option<seq<Path>>, n: nat)
    requires Midway(v, u, done, limits, n)
    ensures DirsAbove(u.names, p) <==>
      DirsAbove(v.names, p) && forall j :: 0 <= j < |done| && done[j].record.path < p ==>
        done[j].record.kind.DirectoryKind?
  {
    hide Midway, DirsOnly;
    forall i | 0 < i < |p|
      ensures (p[..i] in u.names ==> u.names[p[..i]].DirEntry?) <==>
        (p[..i] in v.names ==> v.names[p[..i]].DirEntry?) && DirsOnly(done, p[..i])
    {
      SameDir(v, u, done, p[..i], limits, n);
    }
    DirsBefore(v, u, done, p, limits, n);
  }

  lemma DirsBefore(v: Tree, u: Tree, done: seq<Item>, p: Path, limits: Option<seq<Path>>, n: nat)
    requires Midway(v, u, done, limits, n)
    ensures (forall j :: 0 <= j < |done| && done[j].record.path < p ==> done[j].record.kind.DirectoryKind?) <==>
      forall i :: 0 < i < |p| ==> DirsOnly(done, p[..i])
  {
    hide Underway, InodesKept, PathsOf, OldNames, NewNames;
    forall j | 0 <= j < |done| && done[j].record.path < p
      ensures 0 < |done[j].record.path| < |p| && done[j].record.path == p[..|done[j].record.path|]
    {
      NonEmpty(u, PathsOf(done), done[j].record.path, limits, n);
    }
    if forall i :: 0 < i < |p| ==> DirsOnly(done, p[..i]) {
      forall j | 0 <= j < |done| && done[j].record.path < p
        ensures done[j].record.kind.DirectoryKind?
      {
        assert DirsOnly(done, p[..|done[j].record.path|]);
      }
    }
  }

  lemma NonEmpty(t: Tree, seen: set<Path>, q: Path, limits: Option<seq<Path>>, n: nat)
    requires Underway(t, seen, limits, n) && q in t.names
    ensures q != [] && PlainPath(q)
  {
  }

  lemma SameLink(v: Tree, u: Tree, done: seq<Item>, p: Path, limits: Option<seq<Path>>, n: nat)
    requires Midway(v, u, done, limits, n) && Linked(v) && (forall i <- v.inodes :: i < n) && p !in PathsOf(done)
    ensures SymlinkAt(u, p) <==> SymlinkAt(v, p)
    ensures SymlinkAt(v, p) ==> u.inodes[u.names[p].ino] == v.inodes[v.names[p].ino]
  {
    hide Underway, PathsOf;
  }

  /** A name not yet restored is there as it was, or is a directory above something restored. */
  lemma SameHere(v: Tree, u: Tree, done: seq<Item>, p: Path, dir: bool, limits: Option<seq<Path>>, n: nat)
    requires Midway(v, u, done, limits, n) && p !in PathsOf(done) && p != []
    ensures (p in u.names ==> (u.names[p].DirEntry? <==> dir)) <==>
      (p in v.names ==> (v.names[p].DirEntry? <==> dir)) && forall j :: 0 <= j < |done| && p < done[j].record.path ==>
        dir
  {
    hide Inside, PathsOf, InodesKept, Underway, GoodNames;
    forall j | 0 <= j < |done| && p < done[j].record.path
      ensures p in u.names && u.names[p].DirEntry?
    {
      Named(u, PathsOf(done), limits, n);
      NestedAbove(u.names, done[j].record.path, |p|);
      assert done[j].record.path[..|p|] == p;
    }
    if p in u.names && p !in v.names {
      var j :| 0 <= j < |done| && p <= done[j].record.path;
      PathOf(done, p);
    }
  }

  /** Finding the destination as it is now, a record fits exactly when it fits the destination as it was. */
  lemma FitSame(v: Tree, u: Tree, done: seq<Item>, r: Record, limits: Option<seq<Path>>, n: nat)
    requires Midway(v, u, done, limits, n) && Linked(v) && forall i <- v.inodes :: i < n
    ensures FitsNow(u, PathsOf(done), r, limits) <==> FitsThen(v, done, r, limits)
  {
    hide PlainName, Inside, DirsAbove, PathsOf, SymlinkAt, DownOnly, OldNames, NewNames, Linked;
    var p := r.path;
    DownIs(p);
    PathOf(done, p);
    if r.kind.HardlinkKind? { LinkSame(v, u, done, r.kind.link, limits, n); }
    SameAbove(v, u, done, p, limits, n);
    if p !in PathsOf(done) && p != [] {
      SameLink(v, u, done, p, limits, n);
      SameHere(v, u, done, p, r.kind.DirectoryKind?, limits, n);
    }
  }

  lemma LinkSame(v: Tree, u: Tree, done: seq<Item>, link: Path, limits: Option<seq<Path>>, n: nat)
    requires Midway(v, u, done, limits, n)
    ensures link in PathsOf(done) && link in u.names && u.names[link].LeafEntry? <==>
      exists j :: 0 <= j < |done| && done[j].record.path == link && !done[j].record.kind.DirectoryKind?
  {
    hide PathsOf, Underway, InodesKept, OldNames, NewNames;
    PathOf(done, link);
    assert forall j :: 0 <= j < |done| ==> done[j].record.path in u.names && AsRecorded(u, done[j].record);
  }

  /** A record restored stands under its name as what it is. */
  lemma ItemMade(v: Volume, seen: set<Path>, item: Item, limits: Option<seq<Path>>, n: nat)
    requires Readable(item.record) && |item.data| == DataSize(item.record)
    requires Underway(v.tree, seen, limits, n) && RestoreItem(v, seen, item, limits).Ok?
    ensures
      var w := RestoreItem(v, seen, item, limits).value;
      GoodNames(w.tree.names) && item.record.path in w.tree.names && AsRecorded(w.tree, item.record)
  {
    hide PlainName, Inside, Readable, Own, Cleared, PutLeaf, SafePath, Underway, GoodNames, DirsAbove, ApplyMetadata;
    hide PlainPath;
    var r, p := item.record, item.record.path;
    SafeParts(v.tree, p, limits);
    NotEmpty(p);
    ItemIs(v, seen, item, limits, n);
    assert GoodNames(v.tree.names) by { Named(v.tree, seen, limits, n); }
    var c := Cleared(v, seen, r, limits).value;
    ClearedFits(v, seen, r, limits);
    if r.kind.DirectoryKind? {
      MakeDirsNeeds(c, p);
      MakeDirsKept(c, p);
    } else {
      ClearedUnderway(v, seen, r, limits, n);
      LeafMade(c, seen, item, limits, n);
      MetadataKeeps(PutLeaf(c, seen, item, limits).value, p, r.meta);
    }
  }

  lemma LeafMade(v: Volume, seen: set<Path>, item: Item, limits: Option<seq<Path>>, n: nat)
    requires Readable(item.record) && |item.data| == DataSize(item.record) && !item.record.kind.DirectoryKind?
    requires Underway(v.tree, seen, limits, n) && PlainPath(item.record.path) && item.record.path !in seen
    requires PutLeaf(v, seen, item, limits).Ok?
    ensures
      var w := PutLeaf(v, seen, item, limits).value;
      GoodNames(w.tree.names) && item.record.path in w.tree.names && w.tree.names[item.record.path].LeafEntry?
  {
    hide PlainName, Inside, Readable, Own, SafePath, Underway, GoodNames, DirsAbove, NewBody, Unlinked, MakeDirs,
      Mapped;
    hide Touched;
    var p := item.record.path;
    PutLeafIs(v, seen, item, limits, n);
    assert GoodNames(v.tree.names) by { Named(v.tree, seen, limits, n); }
    OpenedHere(v, p);
    NoBody(item);
    var w := MakeDirs(v, Parent(p)).value;
    var free := if p in w.tree.names then Unlinked(w, p) else w;
    if NewBody(item).Some? {
      EntryKept(free.tree.names, p, free.now, free.next);
    } else {
      EntryKept(free.tree.names, p, free.now, free.tree.names[item.record.kind.link].ino);
    }
  }

  lemma MetadataKeeps(v: Volume, p: Path, meta: Meta)
    requires GoodNames(v.tree.names)
    ensures GoodNames(ApplyMetadata(v, p, meta).tree.names)
    ensures ApplyMetadata(v, p, meta).tree.names.Keys == v.tree.names.Keys
    ensures p in v.tree.names ==> (ApplyMetadata(v, p, meta).tree.names[p].LeafEntry? <==> v.tree.names[p].LeafEntry?)
  {
    hide PlainName;
  }

  lemma PathsGrow(done: seq<Item>, item: Item)
    ensures PathsOf(done + [item]) == PathsOf(done) + {item.record.path}
  {
    var more := done + [item];
    assert more[|done|] == item;
    forall p <- PathsOf(done)
      ensures p in PathsOf(more)
    {
      var i :| 0 <= i < |done| && done[i].record.path == p;
      assert more[i] == done[i];
    }
  }

  lemma MidwayStep(v: Tree, u: Volume, done: seq<Item>, item: Item, limits: Option<seq<Path>>, n: nat)
    requires Midway(v, u.tree, done, limits, n) && u.next >= n
    requires Readable(item.record) && |item.data| == DataSize(item.record)
    requires RestoreItem(u, PathsOf(done), item, limits).Ok? && FitsThen(v, done, item.record, limits)
    ensures
      var w := RestoreItem(u, PathsOf(done), item, limits).value;
      Midway(v, w.tree, done + [item], limits, n) && w.next >= n
  {
    hide RestoreItem, PathsOf, Inside, PlainPath, DirsAbove, GoodNames, Readable, SymlinkAt, NamesConfined, ChangedAt;
    hide OldNames, NewNames, RestoredNames, InodesKept, Underway;
    var p := item.record.path;
    var w := RestoreItem(u, PathsOf(done), item, limits).value;
    Named(u.tree, PathsOf(done), limits, n);
    ItemMade(u, PathsOf(done), item, limits, n);
    RestoreItemAt(u, PathsOf(done), item, limits, n);
    ItemHeld(u, PathsOf(done), item, limits, n);
    PathsGrow(done, item);
    StepUnderway(u.tree, w.tree, PathsOf(done), p, limits, n);
    KeptTwice(v, u.tree, w.tree, n);
    OldStep(v, u.tree, w.tree, done, item);
    NewStep(v, u.tree, w.tree, done, item);
    RestoredStep(v, u.tree, w.tree, done, item);
  }

  lemma StepUnderway(t: Tree, w: Tree, seen: set<Path>, p: Path, limits: Option<seq<Path>>, n: nat)
    requires Underway(t, seen, limits, n) && ChangedAt(t.names, w.names, p) && GoodNames(w.names) && p in w.names
    requires Own(w, seen + {p}, n) && (limits.Some? ==> Inside(limits.value, p))
    ensures Underway(w, seen + {p}, limits, n)
  {
    hide GoodNames, Inside, Own;
  }

  lemma OldStep(v: Tree, u: Tree, w: Tree, done: seq<Item>, item: Item)
    requires OldNames(v, u, done) && ChangedAt(u.names, w.names, item.record.path) && item.record.path in w.names
    requires PathsOf(done + [item]) == PathsOf(done) + {item.record.path}
    ensures OldNames(v, w, done + [item])
  {
    hide PathsOf;
    forall q <- v.names
      ensures q in w.names
      ensures q in PathsOf(done + [item]) || w.names[q] == v.names[q] || Retimed(v.names[q], w.names[q])
    {
      assert q in u.names;
    }
  }

  lemma NewStep(v: Tree, u: Tree, w: Tree, done: seq<Item>, item: Item)
    requires NewNames(v, u, done) && ChangedAt(u.names, w.names, item.record.path)
    requires PathsOf(done + [item]) == PathsOf(done) + {item.record.path}
    ensures NewNames(v, w, done + [item])
  {
    hide PathsOf;
    var more := done + [item];
    forall q <- w.names | q !in v.names
      ensures exists j :: 0 <= j < |more| && q <= more[j].record.path
      ensures q in PathsOf(more) || w.names[q].DirEntry?
    {
      if q in u.names {
        var j :| 0 <= j < |done| && q <= done[j].record.path;
        assert q <= more[j].record.path;
      } else {
        assert q <= more[|done|].record.path;
      }
    }
  }

  lemma RestoredStep(v: Tree, u: Tree, w: Tree, done: seq<Item>, item: Item)
    requires RestoredNames(v, u, done) && ChangedAt(u.names, w.names, item.record.path)
    requires item.record.path in w.names && AsRecorded(w, item.record)
    requires item.record.path in v.names ==> AsRecorded(v, item.record)
    requires forall j :: 0 <= j < |done| ==> done[j].record.path != item.record.path
    ensures RestoredNames(v, w, done + [item])
  {
    var more := done + [item];
    forall j | 0 <= j < |more|
      ensures more[j].record.path in w.names && AsRecorded(w, more[j].record)
      ensures more[j].record.path in v.names ==> AsRecorded(v, more[j].record)
    {
      if j < |done| {
        assert more[j] == done[j] && done[j].record.path in u.names && AsRecorded(u, done[j].record);
      }
    }
  }

  lemma KeptTwice(v: Tree, u: Tree, w: Tree, n: nat)
    requires InodesKept(v, u, n) && InodesKept(u, w, n)
    ensures InodesKept(v, w, n)
  {
  }

  lemma {:induction false} ItemsAccepted(v: Tree, u: Volume, done: seq<Item>, items: seq<Item>,
    limits: Option<seq<Path>>,
      n: nat)
    requires Streamable(items) && Midway(v, u.tree, done, limits, n) && u.next >= n
    requires Linked(v) && forall i <- v.inodes :: i < n
    ensures RestoreItems(u, PathsOf(done), items, limits).Ok? <==>
      forall k :: 0 <= k < |items| ==> FitsThen(v, done + items[..k], items[k].record, limits)
    decreases |items|
  {
    hide RestoreItem, PathsOf, Midway, FitsThen, FitsNow, Readable, DataSize;
    if items != [] {
      var item, rest := items[0], items[1..];
      FitSame(v, u.tree, done, item.record, limits, n);
      assert Underway(u.tree, PathsOf(done), limits, n) by { MidwayUnder(v, u.tree, done, limits, n); }
      ItemIs(u, PathsOf(done), item, limits, n);
      assert done + items[..0] == done;
      if FitsThen(v, done, item.record, limits) {
        var w := RestoreItem(u, PathsOf(done), item, limits).value;
        MidwayStep(v, u, done, item, limits, n);
        PathsGrow(done, item);
        ItemsAccepted(v, w, done + [item], rest, limits, n);
        forall k | 0 <= k < |rest|
          ensures done + [item] + rest[..k] == done + items[..k + 1] && rest[k] == items[k + 1]
        {
          assert items[..k + 1] == [item] + rest[..k];
        }
        AllShifted(v, done, items, limits);
      }
    }
  }

  lemma MidwayUnder(v: Tree, u: Tree, done: seq<Item>, limits: Option<seq<Path>>, n: nat)
    requires Midway(v, u, done, limits, n)
    ensures Underway(u, PathsOf(done), limits, n)
  {
  }

  lemma AllShifted(v: Tree, done: seq<Item>, items: seq<Item>, limits: Option<seq<Path>>)
    requires items != [] && FitsThen(v, done, items[0].record, limits)
    ensures (forall k :: 0 <= k < |items| ==> FitsThen(v, done + items[..k], items[k].record, limits)) <==>
      forall k :: 0 <= k < |items[1..]| ==>
        FitsThen(v, done + [items[0]] + items[1..][..k], items[1..][k].record, limits)
  {
    hide FitsThen;
    var item, rest := items[0], items[1..];
    assert done + items[..0] == done;
    forall k | 0 <= k < |rest|
      ensures done + [item] + rest[..k] == done + items[..k + 1] && rest[k] == items[k + 1]
    {
      assert items[..k + 1] == [item] + rest[..k];
    }
    if forall k :: 0 <= k < |rest| ==> FitsThen(v, done + [item] + rest[..k], rest[k].record, limits) {
      forall k | 0 <= k < |items|
        ensures FitsThen(v, done + items[..k], items[k].record, limits)
      {
        if k > 0 {
          assert FitsThen(v, done + [item] + rest[..k - 1], rest[k - 1].record, limits);
        }
      }
    }
    if forall k :: 0 <= k < |items| ==> FitsThen(v, done + items[..k], items[k].record, limits) {
      forall k | 0 <= k < |rest|
        ensures FitsThen(v, done + [item] + rest[..k], rest[k].record, limits)
      {
        assert FitsThen(v, done + items[..k + 1], items[k + 1].record, limits);
      }
    }
  }

  /**
   Exactly which streams a destination accepts. A stream that names a path outside the roots, a path
   twice, a file above or in place of a directory, or that meets a symbolic link other than the one it
   restores, is refused; and any other stream is restored.
   */
  lemma RestoredIs(v: Volume, items: seq<Item>, limits: Option<seq<Path>>)
    requires Streamable(items) && GoodNames(v.tree.names) && Linked(v.tree) && forall i <- v.tree.inodes :: i < v.next
    ensures Restored(v, items, limits).Ok? <==> Acceptable(v.tree, items, limits)
  {
    hide RestoreItems, GoodNames, FitsThen;
    assert PathsOf([]) == {};
    ItemsAccepted(v.tree, v, [], items, limits, v.next);
    assert forall k :: 0 <= k < |items| ==> [] + items[..k] == items[..k];
  }
}
