/** The records of a backup: one for every path of the walk, later links named by the first. */
module BackupRecords {
  import opened Outcomes
  import opened Bytes
  import opened BackupTree
  import opened BackupExtents

  datatype Kind =
    | DirectoryKind
    | FileKind(size: nat, extents: seq<Extent>)
    | SymlinkKind(target: string)
    | HardlinkKind(link: Path, symlink: bool, node: Option<Device>)
    | FifoKind
    | DeviceKind(block: bool, device: Device)

  datatype Record = Record(path: Path, meta: Meta, kind: Kind)

  /** A record and the file data that follows it in the stream. */
  datatype Item = Item(record: Record, data: seq<byte>)

  /** Records compared without their extents. */
  predicate SameRecord(a: Record, b: Record) {
    a.path == b.path && a.meta == b.meta &&
    (a.kind == b.kind || (a.kind.FileKind? && b.kind.FileKind? && a.kind.size == b.kind.size))
  }

  /** The bytes of a file of the tree. */
  function BytesOf(t: Tree, p: Path): seq<byte> {
    if p in t.names && t.names[p].LeafEntry? && t.names[p].ino in t.inodes &&
      t.inodes[t.names[p].ino].body.FileBody? then
      t.inodes[t.names[p].ino].body.content.bytes
    else []
  }

  predicate HasSocket(t: Tree, p: Path)
    requires p in t.names
  {
    t.names[p].LeafEntry? && t.names[p].ino in t.inodes && t.inodes[t.names[p].ino].body.SocketBody?
  }

  function FirstKind(body: Body): Kind
    requires !body.SocketBody? && (body.FileBody? ==> SoundContent(body.content))
  {
    match body
    case FileBody(content) => FileKind(|content.bytes|, ExtentsOf(content))
    case LinkBody(target) => SymlinkKind(target)
    case FifoBody => FifoKind
    case DeviceBody(block, device) => DeviceKind(block, device)
  }

  /** `links` names the first path seen of every inode. */
  function RecordOf(t: Tree, p: Path, links: map<nat, Path>): Record
    requires WellFormed(t) && p in t.names && !HasSocket(t, p)
  {
    match t.names[p]
    case DirEntry(meta) => Record(p, meta, DirectoryKind)
    case LeafEntry(ino) =>
      var inode := t.inodes[ino];
      Record(p, inode.meta,
             if ino in links then
               HardlinkKind(links[ino], inode.body.LinkBody?,
                            if inode.body.DeviceBody? then Some(inode.body.device) else None)
             else FirstKind(inode.body))
  }

  function Relinked(t: Tree, p: Path, links: map<nat, Path>): map<nat, Path>
    requires p in t.names
  {
    if t.names[p].LeafEntry? && t.names[p].ino !in links then links[t.names[p].ino := p] else links
  }

  predicate AllNamed(t: Tree, order: seq<Path>) {
    forall k :: 0 <= k < |order| ==> order[k] in t.names
  }

  predicate NoSockets(t: Tree, order: seq<Path>)
    requires AllNamed(t, order)
  {
    forall k :: 0 <= k < |order| ==> !HasSocket(t, order[k])
  }

  /** Sockets, and nothing else, cannot be backed up. */
  lemma SocketsAre(t: Tree, order: seq<Path>)
    requires WellFormed(t) && AllNamed(t, order)
    ensures NoSockets(t, order) <==> forall p <- order :: match t.names[p]
      case DirEntry(_) => true
      case LeafEntry(ino) => t.inodes[ino].body != SocketBody
  {
    if NoSockets(t, order) {
      forall p <- order
        ensures !HasSocket(t, p)
      {
        var k :| 0 <= k < |order| && order[k] == p;
      }
    }
  }

  function LinksOf(t: Tree, order: seq<Path>): map<nat, Path>
    requires AllNamed(t, order)
  {
    if order == [] then map[]
    else Relinked(t, order[|order| - 1], LinksOf(t, order[..|order| - 1]))
  }

  function RecordAt(t: Tree, order: seq<Path>, k: nat): Record
    requires WellFormed(t) && AllNamed(t, order) && NoSockets(t, order) && k < |order|
  {
    RecordOf(t, order[k], LinksOf(t, order[..k]))
  }

  function DataOf(t: Tree, r: Record): seq<byte>
    requires WellFormed(t) && r.path in t.names
    requires r.kind.FileKind? ==> t.names[r.path].LeafEntry? && t.inodes[t.names[r.path].ino].body.FileBody?
    requires r.kind.FileKind? ==> Fits(r.kind.extents, |t.inodes[t.names[r.path].ino].body.content.bytes|)
  {
    if r.kind.FileKind? then Gather(t.inodes[t.names[r.path].ino].body.content.bytes, r.kind.extents) else []
  }

  /** Only a regular file's record is followed by data, and its extents fit the file. */
  lemma RecordHasData(t: Tree, p: Path, links: map<nat, Path>)
    requires WellFormed(t) && p in t.names && !HasSocket(t, p)
    ensures
      var r := RecordOf(t, p, links);
      && r.path == p && (r.kind.DirectoryKind? <==> t.names[p].DirEntry?)
      && (r.kind.FileKind? ==> (
           t.names[p].LeafEntry? && t.inodes[t.names[p].ino].body.FileBody? &&
           r.kind == FirstKind(t.inodes[t.names[p].ino].body) &&
           Fits(r.kind.extents, |t.inodes[t.names[p].ino].body.content.bytes|)))
  {
    var r := RecordOf(t, p, links);
    if r.kind.FileKind? {
      Rebuilt(t.inodes[t.names[p].ino].body.content);
    }
  }

  function ItemOf(t: Tree, p: Path, links: map<nat, Path>): Item
    requires WellFormed(t) && p in t.names && !HasSocket(t, p)
  {
    RecordHasData(t, p, links);
    Item(RecordOf(t, p, links), DataOf(t, RecordOf(t, p, links)))
  }

  lemma RecordData(t: Tree, order: seq<Path>, k: nat)
    requires WellFormed(t) && AllNamed(t, order) && NoSockets(t, order) && k < |order|
    ensures
      var r := RecordAt(t, order, k);
      && r.path == order[k] && (r.kind.DirectoryKind? <==> t.names[order[k]].DirEntry?)
      && (r.kind.FileKind? ==> (
           t.names[r.path].LeafEntry? && t.inodes[t.names[r.path].ino].body.FileBody? &&
           r.kind == FirstKind(t.inodes[t.names[r.path].ino].body) &&
           Fits(r.kind.extents, |t.inodes[t.names[r.path].ino].body.content.bytes|)))
  {
    RecordHasData(t, order[k], LinksOf(t, order[..k]));
  }

  function ItemAt(t: Tree, order: seq<Path>, k: nat): (r: Item)
    requires WellFormed(t) && AllNamed(t, order) && NoSockets(t, order) && k < |order|
    ensures r.record == RecordAt(t, order, k)
  {
    ItemOf(t, order[k], LinksOf(t, order[..k]))
  }

  function ItemsOf(t: Tree, order: seq<Path>): seq<Item>
    requires WellFormed(t) && AllNamed(t, order) && NoSockets(t, order)
  {
    seq(|order|, k requires 0 <= k < |order| => ItemAt(t, order, k))
  }

  // ------------------------------------------------------------ hard-link classes

  predicate LinksTo(t: Tree, p: Path, ino: nat) {
    p in t.names && t.names[p] == LeafEntry(ino)
  }

  /** The first path of the walk that names this inode. */
  ghost predicate FirstLink(t: Tree, order: seq<Path>, ino: nat, j: nat) {
    j < |order| && LinksTo(t, order[j], ino) && forall i :: 0 <= i < j ==> !LinksTo(t, order[i], ino)
  }

  lemma {:induction false} LinksFirst(t: Tree, order: seq<Path>, ino: nat) returns (j: nat)
    requires AllNamed(t, order)
    ensures ino in LinksOf(t, order) ==> FirstLink(t, order, ino, j) && LinksOf(t, order)[ino] == order[j]
    ensures ino !in LinksOf(t, order) ==> forall i :: 0 <= i < |order| ==> !LinksTo(t, order[i], ino)
  {
    j := 0;
    if order != [] {
      var last := |order| - 1;
      j := LinksFirst(t, order[..last], ino);
      if ino !in LinksOf(t, order[..last]) {
        j := last;
        assert forall i :: 0 <= i < last ==> order[..last][i] == order[i];
      }
    }
  }

  /** A leaf's record is a hard link exactly when an earlier path names its inode; it names the first. */
  lemma RecordLinks(t: Tree, order: seq<Path>, k: nat) returns (j: nat)
    requires WellFormed(t) && AllNamed(t, order) && NoSockets(t, order) && k < |order| && t.names[order[k]].LeafEntry?
    ensures FirstLink(t, order, t.names[order[k]].ino, j) && j <= k
    ensures RecordAt(t, order, k).kind.HardlinkKind? <==> j < k
    ensures j < k ==> RecordAt(t, order, k).kind.link == order[j]
    ensures j == k ==> RecordAt(t, order, k).kind == FirstKind(t.inodes[t.names[order[k]].ino].body)
  {
    var ino := t.names[order[k]].ino;
    j := LinksFirst(t, order[..k], ino);
    if ino in LinksOf(t, order[..k]) {
      assert order[..k][j] == order[j];
      assert forall i :: 0 <= i < j ==> order[..k][i] == order[i];
    } else {
      j := k;
      assert forall i :: 0 <= i < k ==> order[..k][i] == order[i];
    }
  }
}
