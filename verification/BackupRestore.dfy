/** Restoring a stream: what each record does to the destination, and the directories' metadata at the end. */
module BackupRestore {
  import opened Outcomes
  import opened Bytes
  import opened BackupTree
  import opened BackupExtents
  import opened BackupRecords
  import opened BackupStream

  /** The destination: its tree, the next inode number, and the time any change is stamped with. */
  datatype Volume = Volume(tree: Tree, next: nat, now: int)

  function FreshMeta(now: int): Meta { Meta(0x1ED, 0, 0, now, map[]) }

  // --------------------------------------------------------- filesystem operations

  /** Adding or removing an entry changes its directory's time. */
  function Touched(names: map<Path, Entry>, p: Path, now: int): map<Path, Entry> {
    if |p| > 1 && Parent(p) in names && names[Parent(p)].DirEntry? then
      names[Parent(p) := DirEntry(names[Parent(p)].meta.(mtime := now))]
    else names
  }

  function WithNames(v: Volume, names: map<Path, Entry>): Volume {
    v.(tree := v.tree.(names := names))
  }

  function Mkdir(v: Volume, p: Path): Volume {
    WithNames(v, Touched(v.tree.names, p, v.now)[p := DirEntry(FreshMeta(v.now))])
  }

  /** mkdir with its parents, content with a directory that is there. */
  function MakeDirs(v: Volume, p: Path): Result<Volume>
    decreases |p|
  {
    if p == [] then Ok(v)
    else if p in v.tree.names then if v.tree.names[p].DirEntry? then Ok(v) else Refused
    else
      var above := MakeDirs(v, Parent(p));
      if above.Refused? then Refused else Ok(Mkdir(above.value, p))
  }

  function Unlinked(v: Volume, p: Path): Volume {
    WithNames(v, Touched(v.tree.names, p, v.now) - {p})
  }

  function Created(v: Volume, p: Path, inode: Inode): Volume {
    Volume(Tree(Touched(v.tree.names, p, v.now)[p := LeafEntry(v.next)], v.tree.inodes[v.next := inode]), v.next + 1,
      v.now)
  }

  function Hardlinked(v: Volume, p: Path, ino: nat): Volume {
    WithNames(v, Touched(v.tree.names, p, v.now)[p := LeafEntry(ino)])
  }

  /** Owner, mode, attributes and time; a symbolic link keeps its mode. */
  function ApplyMetadata(v: Volume, p: Path, meta: Meta): Volume {
    if p !in v.tree.names then v
    else
      match v.tree.names[p]
      case DirEntry(_) => WithNames(v, v.tree.names[p := DirEntry(meta)])
      case LeafEntry(ino) =>
        if ino !in v.tree.inodes then v
        else
          var inode := v.tree.inodes[ino];
          var kept := if inode.body.LinkBody? then meta.(mode := inode.meta.mode) else meta;
          v.(tree := v.tree.(inodes := v.tree.inodes[ino := inode.(meta := kept)]))
  }

  // -------------------------------------------------------------- one record

  predicate SymlinkAt(t: Tree, p: Path) {
    p in t.names && t.names[p].LeafEntry? && t.names[p].ino in t.inodes && t.inodes[t.names[p].ino].body.LinkBody?
  }

  /** A plain path inside the roots, with no symbolic link above it. */
  predicate SafePath(t: Tree, p: Path, limits: Option<seq<Path>>) {
    PlainPath(p) && (limits.Some? ==> Covered(limits.value, p)) && forall i :: 0 < i < |p| ==> !SymlinkAt(t, p[..i])
  }

  predicate SameFile(t: Tree, p: Path, q: Path) {
    p in t.names && q in t.names && t.names[p].LeafEntry? && t.names[p] == t.names[q]
  }

  /** A symbolic link in the way is only removed when it is the one an interrupted restore left. */
  function Cleared(v: Volume, seen: set<Path>, r: Record, limits: Option<seq<Path>>): Result<Volume> {
    if !SymlinkAt(v.tree, r.path) then Ok(v)
    else
      var same := r.kind.SymlinkKind? && v.tree.inodes[v.tree.names[r.path].ino].body.target == r.kind.target;
      var linked := r.kind.HardlinkKind? && r.kind.symlink && r.kind.link in seen &&
                    SafePath(v.tree, r.kind.link, limits) && SameFile(v.tree, r.kind.link, r.path);
      if same || linked then Ok(Unlinked(v, r.path)) else Refused
  }

  function Mapped(size: nat, extents: seq<Extent>): seq<bool> {
    seq(size, i => exists k :: 0 <= k < |extents| && extents[k].start <= i < End(extents[k]))
  }

  function NewBody(item: Item): (r: Option<Body>)
    requires Readable(item.record) && |item.data| == DataSize(item.record)
  {
    match item.record.kind
    case SymlinkKind(target) => Some(LinkBody(target))
    case FifoKind => Some(FifoBody)
    case DeviceKind(block, device) => Some(DeviceBody(block, device))
    case FileKind(size, extents) =>
      AcceptedFits(extents, 0, size);
      Some(FileBody(Content(Scatter(Zeros(size), extents, item.data), Mapped(size, extents))))
    case _ => None
  }

  lemma {:induction false} AcceptedFits(extents: seq<Extent>, offset: nat, size: nat)
    requires Accepted(extents, offset, size)
    ensures Fits(extents, size)
  {
    if extents != [] {
      AcceptedFits(extents[1..], End(extents[0]), size);
      assert forall i :: 0 < i < |extents| ==> extents[i] == extents[1..][i - 1];
    }
  }

  /** Everything that is not a directory replaces what is there. */
  function PutLeaf(v: Volume, seen: set<Path>, item: Item, limits: Option<seq<Path>>): Result<Volume>
    requires item.record.path != [] && Readable(item.record) && |item.data| == DataSize(item.record)
  {
    var p := item.record.path;
    var made := MakeDirs(v, Parent(p));
    if made.Refused? then Refused
    else
      var w := made.value;
      if p in w.tree.names && w.tree.names[p].DirEntry? then Refused
      else
        var free := if p in w.tree.names then Unlinked(w, p) else w;
        var body := NewBody(item);
        if body.Some? then
          Ok(Created(free, p, Inode(body.value, if body.value.LinkBody? then FreshMeta(v.now).(mode := LINK_MODE)
            else FreshMeta(v.now))))
        else if item.record.kind.DirectoryKind? then Refused
        else
          var link := item.record.kind.link;
          if link !in seen || !SafePath(free.tree, link, limits) then Refused
          else if link !in free.tree.names || free.tree.names[link].DirEntry? then Refused
          else Ok(Hardlinked(free, p, free.tree.names[link].ino))
  }

  function RestoreItem(v: Volume, seen: set<Path>, item: Item, limits: Option<seq<Path>>): Result<Volume>
    requires Readable(item.record) && |item.data| == DataSize(item.record)
  {
    var r := item.record;
    if !SafePath(v.tree, r.path, limits) || r.path in seen then Refused
    else
      var cleared := Cleared(v, seen, r, limits);
      if cleared.Refused? then Refused
      else if r.kind.DirectoryKind? then MakeDirs(cleared.value, r.path)
      else
        var put := PutLeaf(cleared.value, seen, item, limits);
        if put.Refused? then Refused else Ok(ApplyMetadata(put.value, r.path, r.meta))
  }

  // ------------------------------------------------------------- all of them

  function RestoreItems(v: Volume, seen: set<Path>, items: seq<Item>, limits: Option<seq<Path>>): Result<Volume>
    requires Streamable(items)
    decreases |items|
  {
    if items == [] then Ok(v)
    else
      var next := RestoreItem(v, seen, items[0], limits);
      if next.Refused? then Refused else RestoreItems(next.value, seen + {items[0].record.path}, items[1..], limits)
  }

  /** Directories last, the deepest first: filling them has changed their times. */
  function FinishDirs(v: Volume, items: seq<Item>): Volume
    decreases |items|
  {
    if items == [] then v
    else
      var r := items[|items| - 1].record;
      FinishDirs(if r.kind.DirectoryKind? then ApplyMetadata(v, r.path, r.meta) else v, items[..|items| - 1])
  }

  function Restored(v: Volume, items: seq<Item>, limits: Option<seq<Path>>): Result<Volume>
    requires Streamable(items)
  {
    var filled := RestoreItems(v, {}, items, limits);
    if filled.Refused? then Refused else Ok(FinishDirs(filled.value, items))
  }

  // ------------------------------------------------------- what operations keep

  ghost predicate SameEntry(a: Entry, b: Entry) {
    a == b || (a.DirEntry? && b.DirEntry?)
  }

  /** Everything but `q` stays, up to directory metadata; new names are directories above `q`. */
  ghost predicate Kept(a: map<Path, Entry>, b: map<Path, Entry>, q: Path) {
    && (forall p <- a :: p != q ==> p in b && SameEntry(a[p], b[p]))
    && (forall p <- b :: p != q && p !in a ==> b[p].DirEntry? && p < q)
  }

  ghost predicate GoodNames(names: map<Path, Entry>) {
    Nested(names) && forall p <- names :: PlainPath(p)
  }

  /** Whatever lies above a path is a directory. */
  ghost predicate DirsAbove(names: map<Path, Entry>, p: Path) {
    forall i :: 0 < i < |p| && p[..i] in names ==> names[p[..i]].DirEntry?
  }

  lemma KeptJoins(a: map<Path, Entry>, b: map<Path, Entry>, c: map<Path, Entry>, p: Path, q: Path)
    requires Kept(a, b, p) && Kept(b, c, q)
    requires (p == q || (p < q && p in b && b[p].DirEntry? && (p in a ==> a[p].DirEntry?)))
    ensures Kept(a, c, q)
  {
  }

  lemma TouchedKept(names: map<Path, Entry>, p: Path, now: int)
    requires GoodNames(names)
    ensures GoodNames(Touched(names, p, now)) && Touched(names, p, now).Keys == names.Keys
    ensures forall q <- names :: SameEntry(names[q], Touched(names, p, now)[q])
  {
    hide PlainName;
  }

  lemma MkdirKept(v: Volume, p: Path)
    requires GoodNames(v.tree.names) && PlainPath(p) && p !in v.tree.names
    requires |p| > 1 ==> Parent(p) in v.tree.names && v.tree.names[Parent(p)].DirEntry?
    ensures GoodNames(Mkdir(v, p).tree.names) && Kept(v.tree.names, Mkdir(v, p).tree.names, p)
    ensures p in Mkdir(v, p).tree.names && Mkdir(v, p).tree.names[p].DirEntry?
    ensures Mkdir(v, p) == WithNames(v, Mkdir(v, p).tree.names)
  {
    hide PlainName, Touched;
    TouchedKept(v.tree.names, p, v.now);
  }

  lemma PlainParent(p: Path)
    requires PlainPath(p) && |p| > 1
    ensures PlainPath(Parent(p))
  {
  }

  lemma DirsAboveParent(names: map<Path, Entry>, p: Path)
    requires DirsAbove(names, p) && p != []
    ensures DirsAbove(names, Parent(p)) && (Parent(p) != [] && Parent(p) in names ==> names[Parent(p)].DirEntry?)
  {
    var above := Parent(p);
    forall i | 0 < i < |above| && above[..i] in names
      ensures names[above[..i]].DirEntry?
    {
      assert above[..i] == p[..i];
    }
    assert above == p[..|p| - 1];
  }

  lemma {:induction false} MakeDirsKept(v: Volume, p: Path)
    requires GoodNames(v.tree.names) && (p != [] ==> PlainPath(p)) && DirsAbove(v.tree.names, p)
    requires p != [] && p in v.tree.names ==> v.tree.names[p].DirEntry?
    ensures MakeDirs(v, p).Ok?
    ensures
      var w := MakeDirs(v, p).value;
      && GoodNames(w.tree.names) && Kept(v.tree.names, w.tree.names, p) && w == WithNames(v, w.tree.names)
      && (p != [] ==> p in w.tree.names && w.tree.names[p].DirEntry?)
    decreases |p|
  {
    hide GoodNames, PlainName;
    if p != [] && p !in v.tree.names {
      var above := Parent(p);
      if |p| > 1 { PlainParent(p); }
      DirsAboveParent(v.tree.names, p);
      MakeDirsKept(v, above);
      var w := MakeDirs(v, above).value;
      assert p !in w.tree.names;
      MkdirKept(w, p);
      if above != [] {
        KeptJoins(v.tree.names, w.tree.names, Mkdir(w, p).tree.names, above, p);
      }
    }
  }

  lemma UnlinkedKept(v: Volume, p: Path)
    requires GoodNames(v.tree.names) && p in v.tree.names && v.tree.names[p].LeafEntry?
    ensures GoodNames(Unlinked(v, p).tree.names) && Kept(v.tree.names, Unlinked(v, p).tree.names, p)
    ensures p !in Unlinked(v, p).tree.names && Unlinked(v, p) == WithNames(v, Unlinked(v, p).tree.names)
  {
    hide PlainName, Touched;
    TouchedKept(v.tree.names, p, v.now);
  }

  lemma EntryKept(names: map<Path, Entry>, p: Path, now: int, ino: nat)
    requires GoodNames(names) && PlainPath(p) && p !in names
    requires (|p| > 1 ==> Parent(p) in names && names[Parent(p)].DirEntry?)
    ensures GoodNames(Touched(names, p, now)[p := LeafEntry(ino)])
    ensures Kept(names, Touched(names, p, now)[p := LeafEntry(ino)], p)
  {
    hide PlainName, Touched;
    TouchedKept(names, p, now);
  }
}
