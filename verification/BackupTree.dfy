/**
 The file tree a backup covers: names, inodes and the order in which a backup walks them.
 Source: guest/storage_backup.py.
 */
module BackupTree {
  import opened Outcomes
  import opened Bytes

  /** A path below the backup's root, one component an element. */
  type Path = seq<string>

  datatype Meta = Meta(mode: nat, uid: nat, gid: nat, mtime: int, xattrs: map<string, seq<byte>>)

  /** A file's bytes, and which of them its filesystem has allocated. */
  datatype Content = Content(bytes: seq<byte>, mapped: seq<bool>)

  datatype Device = Device(major: nat, minor: nat)

  datatype Body =
    | FileBody(content: Content)
    | LinkBody(target: string)
    | FifoBody
    | DeviceBody(block: bool, device: Device)
    | SocketBody

  datatype Inode = Inode(body: Body, meta: Meta)

  /** What a name stands for: a directory, or one of the links to an inode. */
  datatype Entry = DirEntry(meta: Meta) | LeafEntry(ino: nat)

  datatype Tree = Tree(names: map<Path, Entry>, inodes: map<nat, Inode>)

  /** Linux gives every symbolic link the same permission bits, and they cannot be changed. */
  const LINK_MODE: nat := 0x1FF

  function Parent(p: Path): Path
    requires p != []
  {
    p[..|p| - 1]
  }

  predicate Nested(names: map<Path, Entry>) {
    [] !in names && forall p <- names :: |p| > 1 ==> Parent(p) in names && names[Parent(p)].DirEntry?
  }

  predicate SoundContent(c: Content) {
    |c.mapped| == |c.bytes| && forall i :: 0 <= i < |c.bytes| && !c.mapped[i] ==> c.bytes[i] == 0
  }

  predicate SoundInode(i: Inode) {
    (i.body.FileBody? ==> SoundContent(i.body.content)) && (i.body.LinkBody? ==> i.meta.mode == LINK_MODE)
  }

  predicate Linked(t: Tree) {
    forall p <- t.names :: t.names[p].LeafEntry? ==> t.names[p].ino in t.inodes
  }

  /** A file name the kernel allows, and that no path syntax can be mistaken for. */
  predicate PlainName(n: string) {
    n != "" && n != "." && n != ".." && '/' !in n
  }

  predicate PlainPath(p: Path) {
    p != [] && forall i :: 0 <= i < |p| ==> PlainName(p[i])
  }

  /** What any mounted filesystem satisfies. */
  predicate WellFormed(t: Tree) {
    Nested(t.names) && Linked(t) && (forall p <- t.names :: PlainPath(p)) && forall i <- t.inodes ::
      SoundInode(t.inodes[i])
  }

  // ---------------------------------------------------------- listing a directory

  predicate Less(a: string, b: string) {
    if b == [] then false
    else if a == [] then true
    else a[0] < b[0] || (a[0] == b[0] && Less(a[1..], b[1..]))
  }

  lemma {:induction false} LessTotal(a: string, b: string)
    ensures a == b || Less(a, b) || Less(b, a)
  {
    if a != [] && b != [] && a[0] == b[0] {
      LessTotal(a[1..], b[1..]);
      assert a == [a[0]] + a[1..] && b == [b[0]] + b[1..];
    }
  }

  lemma {:induction false} LessTransitive(a: string, b: string, c: string)
    requires Less(a, b) && Less(b, c)
    ensures Less(a, c)
  {
    if a != [] && a[0] == b[0] == c[0] {
      LessTransitive(a[1..], b[1..], c[1..]);
    }
  }

  lemma {:induction false} LessIrreflexive(a: string)
    ensures !Less(a, a)
  {
    if a != [] {
      LessIrreflexive(a[1..]);
    }
  }

  ghost predicate Least(n: string, names: set<string>) {
    n in names && forall m <- names :: m == n || Less(n, m)
  }

  lemma {:induction false} LeastExists(names: set<string>) returns (n: string)
    requires names != {}
    ensures Least(n, names)
    decreases |names|
  {
    n :| n in names;
    var rest := names - {n};
    if rest != {} {
      var m := LeastExists(rest);
      LessTotal(n, m);
      if Less(m, n) {
        n := m;
      } else {
        forall x <- names | x != n
          ensures Less(n, x)
        {
          if x != m {
            LessTransitive(n, m, x);
          }
        }
      }
    }
  }

  /** The names of a directory in ascending order. */
  ghost function Sorted(names: set<string>): (r: seq<string>)
    ensures forall n :: n in r <==> n in names
    decreases |names|
  {
    if names == {} then []
    else
      var first := (LeastExistsFact(names); var n :| Least(n, names); n);
      [first] + Sorted(names - {first})
  }

  lemma LeastExistsFact(names: set<string>)
    requires names != {}
    ensures exists n :: Least(n, names)
  {
    var n := LeastExists(names);
  }

  lemma {:induction false} SortedDistinct(names: set<string>)
    ensures forall i, k :: 0 <= i < k < |Sorted(names)| ==>
      Sorted(names)[i] != Sorted(names)[k] && Less(Sorted(names)[i], Sorted(names)[k])
    decreases |names|
  {
    if names != {} {
      var r := Sorted(names);
      var rest := names - {r[0]};
      assert Least(r[0], names) by {
        LeastExistsFact(names);
      }
      SortedDistinct(rest);
      assert r[1..] == Sorted(rest);
      forall i, k | 0 <= i < k < |r|
        ensures r[i] != r[k] && Less(r[i], r[k])
      {
        assert r[k] == Sorted(rest)[k - 1] && r[k] in Sorted(rest) && r[k] in rest;
        if i > 0 {
          assert r[i] == Sorted(rest)[i - 1];
        }
      }
    }
  }

  // ------------------------------------------------------------------ the walk

  function ChildNames(names: map<Path, Entry>, p: Path): set<string> {
    set q | q in names && |q| == |p| + 1 && q[..|p|] == p :: q[|p|]
  }

  lemma ChildName(names: map<Path, Entry>, p: Path, n: string)
    ensures n in ChildNames(names, p) <==> p + [n] in names
  {
    if p + [n] in names {
      assert (p + [n])[..|p|] == p && (p + [n])[|p|] == n;
    }
    if n in ChildNames(names, p) {
      var q :| q in names && |q| == |p| + 1 && q[..|p|] == p && q[|p|] == n;
      assert q == p + [n];
    }
  }

  /** Everything at or below a path. */
  function Under(names: map<Path, Entry>, p: Path): set<Path> {
    set q | q in names && p <= q
  }

  /** A directory before its entries, its entries in order. */
  ghost function Walk(names: map<Path, Entry>, p: Path): seq<Path>
    requires p in names
    decreases Under(names, p), 1, 0
  {
    [p] + if names[p].DirEntry? then WalkAll(names, p, Sorted(ChildNames(names, p))) else []
  }

  ghost function WalkAll(names: map<Path, Entry>, p: Path, children: seq<string>): seq<Path>
    requires p in names && forall n <- children :: n in ChildNames(names, p)
    decreases Under(names, p), 0, |children|
  {
    if children == [] then []
    else
      var q := p + [children[0]];
      ChildName(names, p, children[0]);
      assert p in Under(names, p) && p !in Under(names, q);
      Walk(names, q) + WalkAll(names, p, children[1..])
  }

  /** The given roots that exist, each walked in turn. */
  ghost function Order(names: map<Path, Entry>, roots: seq<Path>): seq<Path> {
    if roots == [] then []
    else (if roots[0] in names then Walk(names, roots[0]) else []) + Order(names, roots[1..])
  }

  // ------------------------------------------------------- what the walk visits

  /** No path twice. */
  ghost predicate NoRepeats(order: seq<Path>) {
    forall i, k :: 0 <= i < k < |order| ==> order[i] != order[k]
  }

  /** Every path below `p` comes after its parent. */
  ghost predicate ParentsFirst(order: seq<Path>, p: Path) {
    forall k :: 0 <= k < |order| ==> order[k] == p || (|order[k]| > |p| && Parent(order[k]) in order[..k])
  }

  lemma {:induction false} AncestorIn(names: map<Path, Entry>, p: Path, q: Path)
    requires Nested(names) && q in names && p <= q && p != []
    ensures p in names && (p != q ==> names[p].DirEntry?)
    decreases |q|
  {
    if p != q {
      assert p <= Parent(q);
      AncestorIn(names, p, Parent(q));
    } else {
      assert p == q;
    }
  }

  ghost predicate WalksFrom(names: map<Path, Entry>, p: Path, order: seq<Path>) {
    && (forall q :: q in order <==> q in names && p <= q)
    && NoRepeats(order) && ParentsFirst(order, p) && order != [] && order[0] == p
  }

  lemma {:induction false} WalkVisits(names: map<Path, Entry>, p: Path)
    requires Nested(names) && p in names && p != []
    ensures WalksFrom(names, p, Walk(names, p))
    decreases Under(names, p), 1, 0
  {
    if names[p].DirEntry? {
      var children := Sorted(ChildNames(names, p));
      SortedDistinct(ChildNames(names, p));
      WalkAllVisits(names, p, children);
      WalkHead(names, p, children, WalkAll(names, p, children));
    } else {
      LeafAlone(names, p);
      assert Walk(names, p) == [p];
    }
  }

  lemma LeafAlone(names: map<Path, Entry>, p: Path)
    requires Nested(names) && p in names && p != [] && names[p].LeafEntry?
    ensures WalksFrom(names, p, [p])
  {
    forall q | q in names && p <= q
      ensures q == p
    {
      AncestorIn(names, p, q);
    }
  }

  lemma WalkHead(names: map<Path, Entry>, p: Path, children: seq<string>, rest: seq<Path>)
    requires Nested(names) && p in names && p != [] && forall n :: n in children <==> n in ChildNames(names, p)
    requires WalksChildren(names, p, children, rest)
    ensures WalksFrom(names, p, [p] + rest)
  {
    hide Nested, ChildNames, WalksChildren, NoRepeats, ParentsFirst;
    HeadCovers(names, p, children, rest);
    HeadOrdered(names, p, children, rest);
  }

  lemma HeadCovers(names: map<Path, Entry>, p: Path, children: seq<string>, rest: seq<Path>)
    requires Nested(names) && p in names && p != [] && forall n :: n in children <==> n in ChildNames(names, p)
    requires WalksChildren(names, p, children, rest)
    ensures forall q :: q in [p] + rest <==> q in names && p <= q
  {
    hide Nested, ChildNames;
    forall q
      ensures q in [p] + rest <==> q in names && p <= q
    {
      if q in names && p <= q && q != p {
        BelowChild(names, p, q);
        ChildName(names, p, q[|p|]);
        assert q[|p|] in children;
      }
    }
  }

  lemma HeadOrdered(names: map<Path, Entry>, p: Path, children: seq<string>, rest: seq<Path>)
    requires WalksChildren(names, p, children, rest)
    ensures NoRepeats([p] + rest) && ParentsFirst([p] + rest, p)
  {
    var order := [p] + rest;
    forall k | 0 <= k < |order| && order[k] != p
      ensures |order[k]| > |p| && Parent(order[k]) in order[..k]
    {
      assert order[..k] == [p] + rest[..k - 1];
    }
  }

  lemma BelowChild(names: map<Path, Entry>, p: Path, q: Path)
    requires Nested(names) && q in names && p <= q && p != q && p != []
    ensures p + [q[|p|]] in names && p + [q[|p|]] <= q
  {
    assert p + [q[|p|]] == q[..|p| + 1];
    AncestorIn(names, q[..|p| + 1], q);
  }

  /** What the walk of some of a directory's entries visits. */
  ghost predicate WalksChildren(names: map<Path, Entry>, p: Path, children: seq<string>, order: seq<Path>) {
    && (forall q :: q in order <==> q in names && |q| > |p| && p <= q && q[|p|] in children)
    && NoRepeats(order)
    && (forall k :: 0 <= k < |order| ==> |order[k]| > |p| && (Parent(order[k]) == p || Parent(order[k]) in order[..k]))
  }

  lemma {:induction false} WalkAllVisits(names: map<Path, Entry>, p: Path, children: seq<string>)
    requires Nested(names) && p in names && p != [] && forall n <- children :: n in ChildNames(names, p)
    requires forall i, k :: 0 <= i < k < |children| ==> children[i] != children[k]
    ensures WalksChildren(names, p, children, WalkAll(names, p, children))
    decreases Under(names, p), 0, |children|
  {
    if children != [] {
      var q := p + [children[0]];
      ChildName(names, p, children[0]);
      assert p in Under(names, p) && p !in Under(names, q);
      WalkVisits(names, q);
      WalkAllVisits(names, p, children[1..]);
      WalkJoins(names, p, children, Walk(names, q), WalkAll(names, p, children[1..]));
    }
  }

  lemma WalkJoins(names: map<Path, Entry>, p: Path, children: seq<string>, a: seq<Path>, b: seq<Path>)
    requires children != [] && (forall i, k :: 0 <= i < k < |children| ==> children[i] != children[k])
    requires WalksFrom(names, p + [children[0]], a) && WalksChildren(names, p, children[1..], b)
    ensures WalksChildren(names, p, children, a + b)
  {
    hide NoRepeats, ParentsFirst;
    forall x
      ensures x in a + b <==> x in names && |x| > |p| && p <= x && x[|p|] in children
    {
      BelowFirst(p, children, x);
    }
    JoinsDistinct(names, p, children, a, b);
    JoinsParents(names, p, children, a, b);
  }

  lemma BelowFirst(p: Path, children: seq<string>, x: Path)
    requires children != []
    ensures p + [children[0]] <= x <==> |x| > |p| && p <= x && x[|p|] == children[0]
    ensures |x| > |p| ==> (x[|p|] in children <==> x[|p|] == children[0] || x[|p|] in children[1..])
  {
  }

  lemma JoinsDistinct(names: map<Path, Entry>, p: Path, children: seq<string>, a: seq<Path>, b: seq<Path>)
    requires children != [] && (forall i, k :: 0 <= i < k < |children| ==> children[i] != children[k])
    requires WalksFrom(names, p + [children[0]], a) && WalksChildren(names, p, children[1..], b)
    ensures NoRepeats(a + b)
  {
    hide ParentsFirst;
    assert children[0] !in children[1..];
    forall i, k | 0 <= i < |a| && 0 <= k < |b|
      ensures a[i] != b[k]
    {
      assert a[i] in a && b[k] in b;
      BelowFirst(p, children, a[i]);
    }
  }

  lemma JoinsParents(names: map<Path, Entry>, p: Path, children: seq<string>, a: seq<Path>, b: seq<Path>)
    requires children != [] && WalksFrom(names, p + [children[0]], a) && WalksChildren(names, p, children[1..], b)
    ensures forall k :: 0 <= k < |a + b| ==>
      |(a + b)[k]| > |p| && (Parent((a + b)[k]) == p || Parent((a + b)[k]) in (a + b)[..k])
  {
    hide NoRepeats;
    forall k | 0 <= k < |a + b|
      ensures |(a + b)[k]| > |p| && (Parent((a + b)[k]) == p || Parent((a + b)[k]) in (a + b)[..k])
    {
      if k < |a| {
        assert (a + b)[..k] == a[..k];
        assert a[k] == p + [children[0]] ==> Parent(a[k]) == p;
      } else {
        assert (a + b)[..k] == a + b[..k - |a|];
      }
    }
  }

  // ------------------------------------------------------------- several roots

  /** No root lies below another. */
  ghost predicate Apart(roots: seq<Path>) {
    (forall i :: 0 <= i < |roots| ==> roots[i] != []) &&
    forall i, k :: 0 <= i < |roots| && 0 <= k < |roots| && i != k ==> !(roots[i] <= roots[k])
  }

  predicate Covered(roots: seq<Path>, p: Path) {
    exists i :: 0 <= i < |roots| && roots[i] <= p
  }

  /** Where a path of the order comes from: it is a root, or its directory came before. */
  ghost predicate Placed(roots: seq<Path>, order: seq<Path>, k: nat)
    requires k < |order|
  {
    order[k] != [] && (order[k] in roots || (|order[k]| > 1 && Parent(order[k]) in order[..k]))
  }

  ghost predicate Visits(names: map<Path, Entry>, roots: seq<Path>, order: seq<Path>) {
    && (forall q :: q in order <==> q in names && Covered(roots, q))
    && NoRepeats(order)
    && (forall k :: 0 <= k < |order| ==> Placed(roots, order, k))
  }

  /** The walk visits exactly what the roots cover, each path once, after its directory. */
  lemma {:induction false} OrderVisits(names: map<Path, Entry>, roots: seq<Path>)
    requires Nested(names) && Apart(roots)
    ensures Visits(names, roots, Order(names, roots))
  {
    if roots != [] {
      OrderVisits(names, roots[1..]);
      if roots[0] in names {
        WalkVisits(names, roots[0]);
        VisitsJoin(names, roots, Walk(names, roots[0]), Order(names, roots[1..]));
      } else {
        VisitsSkip(names, roots, Order(names, roots[1..]));
        assert [] + Order(names, roots[1..]) == Order(names, roots[1..]);
      }
    }
  }

  lemma PrefixesCompare(a: Path, b: Path, q: Path)
    ensures a <= q && b <= q ==> a <= b || b <= a
  {
    if a <= q && b <= q {
      if |a| <= |b| {
        ShorterPrefix(a, b, q);
      } else {
        ShorterPrefix(b, a, q);
      }
    }
  }

  lemma ShorterPrefix(a: Path, b: Path, q: Path)
    requires a <= q && b <= q && |a| <= |b|
    ensures a <= b
  {
    assert a == q[..|a|] && b == q[..|b|];
    assert q[..|b|][..|a|] == q[..|a|];
    assert b[..|a|] == a;
  }

  lemma ApartPaths(roots: seq<Path>, q: Path)
    requires Apart(roots) && roots != [] && roots[0] <= q
    ensures !Covered(roots[1..], q)
  {
    forall k | 0 < k < |roots|
      ensures !(roots[k] <= q)
    {
      PrefixesCompare(roots[k], roots[0], q);
    }
  }

  lemma CoveredSplit(roots: seq<Path>, q: Path)
    requires roots != []
    ensures Covered(roots, q) <==> roots[0] <= q || Covered(roots[1..], q)
  {
    if Covered(roots, q) && !(roots[0] <= q) {
      var k :| 0 <= k < |roots| && roots[k] <= q;
      assert roots[k] == roots[1..][k - 1];
    }
    if Covered(roots[1..], q) {
      var k :| 0 <= k < |roots[1..]| && roots[1..][k] <= q;
      assert roots[k + 1] <= q;
    }
  }

  lemma VisitsJoin(names: map<Path, Entry>, roots: seq<Path>, a: seq<Path>, b: seq<Path>)
    requires Apart(roots) && roots != []
    requires WalksFrom(names, roots[0], a) && Visits(names, roots[1..], b)
    ensures Visits(names, roots, a + b)
  {
    hide Covered, NoRepeats;
    forall q
      ensures q in a + b <==> q in names && Covered(roots, q)
    {
      CoveredSplit(roots, q);
    }
    JoinDistinct(names, roots, a, b);
    JoinParents(names, roots, a, b);
  }

  lemma JoinDistinct(names: map<Path, Entry>, roots: seq<Path>, a: seq<Path>, b: seq<Path>)
    requires Apart(roots) && roots != []
    requires WalksFrom(names, roots[0], a) && Visits(names, roots[1..], b)
    ensures NoRepeats(a + b)
  {
    hide Covered, Apart;
    forall i, k | 0 <= i < |a| && 0 <= k < |b|
      ensures a[i] != b[k]
    {
      assert a[i] in a && b[k] in b;
      ApartPaths(roots, a[i]);
    }
  }

  lemma JoinParents(names: map<Path, Entry>, roots: seq<Path>, a: seq<Path>, b: seq<Path>)
    requires Apart(roots) && roots != []
    requires WalksFrom(names, roots[0], a) && Visits(names, roots[1..], b)
    ensures forall k :: 0 <= k < |a + b| ==> Placed(roots, a + b, k)
  {
    hide Covered, NoRepeats;
    forall k | 0 <= k < |a + b|
      ensures Placed(roots, a + b, k)
    {
      if k < |a| {
        PlacedLeft(names, roots, a, b, k);
      } else {
        PlacedRight(roots, a, b, k - |a|);
      }
    }
  }

  lemma PlacedLeft(names: map<Path, Entry>, roots: seq<Path>, a: seq<Path>, b: seq<Path>, k: nat)
    requires roots != [] && roots[0] != [] && ParentsFirst(a, roots[0]) && k < |a|
    ensures Placed(roots, a + b, k)
  {
    assert (a + b)[..k] == a[..k] && (a + b)[k] == a[k];
  }

  lemma PlacedRight(roots: seq<Path>, a: seq<Path>, b: seq<Path>, k: nat)
    requires roots != [] && k < |b| && Placed(roots[1..], b, k)
    ensures Placed(roots, a + b, |a| + k)
  {
    assert (a + b)[..|a| + k] == a + b[..k] && (a + b)[|a| + k] == b[k];
  }

  lemma VisitsSkip(names: map<Path, Entry>, roots: seq<Path>, order: seq<Path>)
    requires Nested(names) && Apart(roots) && roots != [] && roots[0] !in names && Visits(names, roots[1..], order)
    ensures Visits(names, roots, order)
  {
    hide Covered, NoRepeats, Nested;
    forall q
      ensures q in order <==> q in names && Covered(roots, q)
    {
      CoveredSplit(roots, q);
      if q in names && roots[0] <= q {
        AncestorIn(names, roots[0], q);
      }
    }
    forall k | 0 <= k < |order|
      ensures Placed(roots, order, k)
    {
      assert Placed(roots[1..], order, k);
    }
  }

  // ------------------------------------------------------- the shape decides it

  /** The same names, directories in the same places. */
  ghost predicate SameShape(a: map<Path, Entry>, b: map<Path, Entry>, p: Path) {
    forall q :: q in a || q in b ==> p <= q ==> q in a && q in b && (a[q].DirEntry? <==> b[q].DirEntry?)
  }

  lemma ShapeBelow(a: map<Path, Entry>, b: map<Path, Entry>, p: Path, q: Path)
    requires SameShape(a, b, p) && p <= q
    ensures SameShape(a, b, q)
  {
  }

  lemma {:induction false} WalkSame(a: map<Path, Entry>, b: map<Path, Entry>, p: Path)
    requires p in a && p in b && SameShape(a, b, p)
    ensures Walk(a, p) == Walk(b, p)
    decreases Under(a, p), 1, 0
  {
    forall n
      ensures n in ChildNames(a, p) <==> n in ChildNames(b, p)
    {
      ChildName(a, p, n);
      ChildName(b, p, n);
      assert p <= p + [n];
    }
    assert ChildNames(a, p) == ChildNames(b, p);
    assert p <= p;
    WalkAllSame(a, b, p, Sorted(ChildNames(a, p)));
  }

  lemma {:induction false} WalkAllSame(a: map<Path, Entry>, b: map<Path, Entry>, p: Path, children: seq<string>)
    requires p in a && p in b && SameShape(a, b, p)
    requires forall n <- children :: n in ChildNames(a, p) && n in ChildNames(b, p)
    ensures WalkAll(a, p, children) == WalkAll(b, p, children)
    decreases Under(a, p), 0, |children|
  {
    if children != [] {
      var q := p + [children[0]];
      ChildName(a, p, children[0]);
      ChildName(b, p, children[0]);
      assert p in Under(a, p) && p !in Under(a, q);
      ShapeBelow(a, b, p, q);
      WalkSame(a, b, q);
      WalkAllSame(a, b, p, children[1..]);
    }
  }

  lemma {:induction false} OrderSame(a: map<Path, Entry>, b: map<Path, Entry>, roots: seq<Path>)
    requires forall r <- roots :: SameShape(a, b, r)
    ensures Order(a, roots) == Order(b, roots)
  {
    if roots != [] {
      assert SameShape(a, b, roots[0]) && roots[0] <= roots[0];
      if roots[0] in a {
        WalkSame(a, b, roots[0]);
      }
      OrderSame(a, b, roots[1..]);
    }
  }
}
