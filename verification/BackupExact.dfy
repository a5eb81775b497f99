/** Verification accepts a live tree exactly when it equals the tree the stream was written from. */
module BackupExact {
  import opened Outcomes
  import opened Bytes
  import opened BackupTree
  import opened BackupExtents
  import opened BackupRecords
  import opened BackupStream
  import opened BackupRestore
  import opened BackupRoundTrip
  import opened BackupReplay
  import opened BackupVerify

  lemma WalkableOf(t: Tree, roots: seq<Path>)
    requires CanBackup(t, roots)
    ensures Walkable(t, Order(t.names, roots)) && Visits(t.names, roots, Order(t.names, roots))
  {
    OrderVisits(t.names, roots);
  }

  /** A stream that describes two trees lists the walk of both. */
  lemma SameOrder(t: Tree, w: Tree, ot: seq<Path>, ow: seq<Path>, items: seq<Item>)
    requires Walkable(t, ot) && Walkable(w, ow) && Describes(t, ot, items) && Describes(w, ow, items)
    ensures ot == ow
  {
    hide RecordAt, WellFormed, AllNamed, NoSockets, NoRepeats, Readable, DataSize, NewBody;
    forall k | 0 <= k < |ot|
      ensures ot[k] == ow[k]
    {
      DescribesAt(t, ot, items, k);
      DescribesAt(w, ow, items, k);
      DescribedRecord(t, ot, k, items[k]);
      DescribedRecord(w, ow, k, items[k]);
    }
  }

  lemma TreeOfWalk(t: Tree, w: Tree, roots: seq<Path>, order: seq<Path>)
    requires Visits(t.names, roots, order) && Visits(w.names, roots, order) && SameAlong(t, w, order)
    ensures SameTree(t, w, roots)
  {
    hide Alike, SameClass, Covered, NoRepeats;
    forall p <- t.names | Covered(roots, p)
      ensures Alike(t, w, p) && p in w.names && (t.names[p].DirEntry? ==> w.names[p] == t.names[p])
    {
      assert p in order;
      var k :| 0 <= k < |order| && order[k] == p;
      AlongAt(t, w, order, k);
    }
    forall p <- t.names, q <- t.names | Covered(roots, p) && Covered(roots, q)
      ensures SameClass(t, w, p, q)
    {
      assert p in order && q in order;
      var i :| 0 <= i < |order| && order[i] == p;
      var k :| 0 <= k < |order| && order[k] == q;
      assert SameClass(t, w, order[i], order[k]);
    }
  }

  lemma WalkOfTree(t: Tree, w: Tree, roots: seq<Path>)
    requires SameTree(t, w, roots) && Visits(t.names, roots, Order(t.names, roots))
    ensures Order(t.names, roots) == Order(w.names, roots) && SameAlong(t, w, Order(t.names, roots))
  {
    hide BodyAlike, SameClass, NoRepeats;
    forall i | 0 <= i < |roots|
      ensures SameShape(t.names, w.names, roots[i])
    {
      forall q | (q in t.names || q in w.names) && roots[i] <= q
        ensures q in t.names && q in w.names && (t.names[q].DirEntry? <==> w.names[q].DirEntry?)
      {
        assert Covered(roots, q);
        assert q in t.names ==> Alike(t, w, q);
      }
    }
    OrderSame(t.names, w.names, roots);
    var order := Order(t.names, roots);
    forall k | 0 <= k < |order|
      ensures order[k] in t.names && Covered(roots, order[k])
    {
      assert order[k] in order;
    }
  }

  /**
   The verifier is exact for every stream, however its extents were split: if it accepts one tree,
   it accepts another if and only if the two are the same.
   */
  lemma VerifyExact(t: Tree, w: Tree, roots: seq<Path>, items: seq<Item>)
    requires CanBackup(t, roots) && CanBackup(w, roots) && Streamable(items)
    requires Accepts(t, Order(t.names, roots), items)
    ensures Accepts(w, Order(w.names, roots), items) <==> SameTree(t, w, roots)
  {
    hide SameTree, Apart, Accepts, SameAlong, Streamable, WellFormed, NoSockets, AllNamed, Describes;
    var ot, ow := Order(t.names, roots), Order(w.names, roots);
    WalkableOf(t, roots);
    WalkableOf(w, roots);
    AcceptsDescribes(t, ot, items);
    AcceptsDescribes(w, ow, items);
    if Accepts(w, ow, items) {
      SameOrder(t, w, ot, ow, items);
      AcceptedSame(t, w, ot, items);
      TreeOfWalk(t, w, roots, ot);
    }
    if SameTree(t, w, roots) {
      WalkOfTree(t, w, roots);
      DescribesSame(t, w, ot, items);
    }
  }

  /** The stream written from a tree is one the verifier accepts for it. */
  lemma WrittenAccepted(c: Codec, t: Tree, roots: seq<Path>)
    requires Faithful(c) && CanBackup(t, roots) && Written(c, ItemsOf(t, Order(t.names, roots))).Ok?
    ensures
      var items := Parsed(c, Written(c, ItemsOf(t, Order(t.names, roots))).value);
      items.Ok? && Streamable(items.value) && Accepts(t, Order(t.names, roots), items.value)
  {
    hide Written, Parsed, Faithful, Apart, Accepts, Streamable, WellFormed, NoSockets, AllNamed, Describes, ItemAt;
    var order := Order(t.names, roots);
    ItemsDescribe(t, order);
    StreamRoundTrip(c, ItemsOf(t, order));
    AcceptsDescribes(t, order, ItemsOf(t, order));
  }

  /** With no roots given, the whole of both trees is compared, whatever their top directories hold. */
  lemma VerifyWhole(t: Tree, w: Tree, items: seq<Item>)
    requires CanBackup(t, TopLevel(t.names)) && CanBackup(w, TopLevel(w.names)) && Streamable(items)
    requires Accepts(t, Order(t.names, TopLevel(t.names)), items)
    ensures Accepts(w, Order(w.names, TopLevel(w.names)), items) <==>
      t.names.Keys == w.names.Keys && SameTree(t, w, TopLevel(t.names))
  {
    hide SameTree, Apart, Accepts, SameAlong, Streamable, WellFormed, NoSockets, AllNamed, Visits, Describes;
    var rt, rw := TopLevel(t.names), TopLevel(w.names);
    var ot, ow := Order(t.names, rt), Order(w.names, rw);
    WalkableOf(t, rt);
    WalkableOf(w, rw);
    OrderIsAll(t, ot);
    OrderIsAll(w, ow);
    AcceptsDescribes(t, ot, items);
    AcceptsDescribes(w, ow, items);
    if Accepts(w, ow, items) {
      SameOrder(t, w, ot, ow, items);
      AcceptedSame(t, w, ot, items);
      assert t.names.Keys == w.names.Keys;
      SameTop(t.names, w.names);
      TreeOfWalk(t, w, rt, ot);
    }
    if t.names.Keys == w.names.Keys && SameTree(t, w, rt) {
      SameTop(t.names, w.names);
      WalkOfTree(t, w, rt);
      DescribesSame(t, w, ot, items);
    }
  }

  lemma OrderIsAll(t: Tree, order: seq<Path>)
    requires WellFormed(t) && Visits(t.names, TopLevel(t.names), order)
    ensures forall p :: p in order <==> p in t.names
  {
    hide Covered, NoRepeats, TopLevel;
    TopLevelRoots(t);
  }

  lemma SameTop(a: map<Path, Entry>, b: map<Path, Entry>)
    requires a.Keys == b.Keys
    ensures TopLevel(a) == TopLevel(b)
  {
    assert forall q :: q in a <==> q in a.Keys;
    assert forall q :: q in b <==> q in b.Keys;
    assert ChildNames(a, []) == ChildNames(b, []);
  }

  lemma FinishedVolume(t: Tree, roots: seq<Path>, v: Volume, w: Volume)
    requires SoundVolume(v) && SameNames(v, w)
    ensures WellFormed(w.tree)
  {
    SameNamesSound(v, w);
  }

  lemma NoNewSockets(t: Tree, w: Tree, roots: seq<Path>)
    requires CanBackup(t, roots) && WellFormed(w) && SameTree(t, w, roots)
    ensures CanBackup(w, roots)
  {
    hide WellFormed, Apart, SameClass;
    WalkableOf(t, roots);
    forall p <- w.names | Covered(roots, p)
      ensures !HasSocket(w, p)
    {
      assert p in t.names && Alike(t, w, p);
      assert p in Order(t.names, roots);
      NotASocket(t, Order(t.names, roots), p);
    }
    CanBackupWhen(w, roots);
  }

  lemma NotASocket(t: Tree, order: seq<Path>, p: Path)
    requires AllNamed(t, order) && NoSockets(t, order) && p in order
    ensures !HasSocket(t, p)
  {
  }

  /**
   A stream the verifier has accepted for a tree always restores into an empty destination, and
   rebuilds that tree; the destination then passes verification against the same stream. Into one
   that earlier attempts left it does so exactly when no later name of a symbolic link stands yet.
   */
  lemma RestoredVerifies(t: Tree, roots: seq<Path>, items: seq<Item>, limits: Option<seq<Path>>, v: Volume)
    requires CanBackup(t, roots) && Streamable(items) && Accepts(t, Order(t.names, roots), items)
    requires Limits(limits, roots) && Compatible(t, roots, v)
    ensures v.tree == Tree(map[], map[]) ==> Restored(v, items, limits).Ok?
    ensures Restored(v, items, limits).Ok? <==> Clear(t, Order(t.names, roots), v.tree)
    ensures Restored(v, items, limits).Ok? ==>
      var w := Restored(v, items, limits).value.tree;
      SameTree(t, w, roots) && CanBackup(w, roots) && Accepts(w, Order(w.names, roots), items)
  {
    hide WellFormed, Apart, AllNamed, NoSockets, Compatible, SameTree, Restored, Streamable, Limits, Accepts, Clear;
    hide Describes;
    AcceptsDescribes(t, Order(t.names, roots), items);
    RestoresExactly(t, roots, items, limits, v);
    if v.tree == Tree(map[], map[]) {
      EmptyCompatible(t, roots, v);
    }
    if Restored(v, items, limits).Ok? {
      var w := Restored(v, items, limits).value.tree;
      RestoredWell(t, roots, items, limits, v);
      NoNewSockets(t, w, roots);
      VerifyExact(t, w, roots, items);
    }
  }

  lemma RestoredWell(t: Tree, roots: seq<Path>, items: seq<Item>, limits: Option<seq<Path>>, v: Volume)
    requires CanBackup(t, roots) && Describes(t, Order(t.names, roots), items) && Streamable(items)
    requires Limits(limits, roots) && Compatible(t, roots, v) && Restored(v, items, limits).Ok?
    ensures WellFormed(Restored(v, items, limits).value.tree)
  {
    hide Compatible, SameTree, RestoreItems, FinishDirs, Streamable, Progress, Backup, Limits, AllFree;
    hide SoundVolume, WellFormed, Apart, NoSockets, AllNamed, ItemDescribes;
    var order := Order(t.names, roots);
    BackupOf(t, roots);
    StartsFrom(t, roots, order, v);
    NothingSeen(order);
    assert items[0..|order|] == items;
    ItemsRestored(t, roots, order, v, 0, |order|, items, {}, limits);
    var filled := RestoreItems(v, {}, items, limits).value;
    Finished(t, roots, order, items, filled);
    SoundBefore(t, roots, order, filled, |order|);
    FinishedVolume(t, roots, filled, FinishDirs(filled, items));
  }
}
