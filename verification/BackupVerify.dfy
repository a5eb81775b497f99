/**
 Checking a live tree against a stream: accepted exactly when they hold the same files, however
 the extents were split.
 */
module BackupVerify {
  import opened Outcomes
  import opened Bytes
  import opened BackupTree
  import opened BackupExtents
  import opened BackupRecords
  import opened BackupStream
  import opened BackupRestore
  import opened BackupRoundTrip

  predicate AllZero(bytes: seq<byte>, lo: nat, hi: nat)
    requires lo <= hi <= |bytes|
  {
    forall i :: lo <= i < hi ==> bytes[i] == 0
  }

  /** The comparison as it streams: zeros between extents, the extents' bytes in turn, zeros to the end. */
  predicate Compared(bytes: seq<byte>, position: nat, extents: seq<Extent>, data: seq<byte>)
    requires position <= |bytes| && Accepted(extents, position, |bytes|) && |data| == Total(extents)
    decreases |extents|
  {
    if extents == [] then AllZero(bytes, position, |bytes|)
    else
      var e := extents[0];
      AllZero(bytes, position, e.start) && bytes[e.start..End(e)] == data[..e.length] &&
      Compared(bytes, End(e), extents[1..], data[e.length..])
  }

  lemma {:induction false} ScatterBefore(base: seq<byte>, extents: seq<Extent>, data: seq<byte>, from: nat, i: nat)
    requires Accepted(extents, from, |base|) && Fits(extents, |base|) && |data| == Total(extents) && i < from
    requires i < |base|
    ensures Scatter(base, extents, data)[i] == base[i]
    decreases |extents|
  {
    if extents != [] {
      ScatterBefore(Overwrite(base, extents[0].start, data[..extents[0].length]), extents[1..],
        data[extents[0].length..], End(extents[0]), i);
    }
  }

  /** Streaming the comparison decides whether the data rebuilds the file. */
  lemma {:induction false} ComparedExact(bytes: seq<byte>, position: nat, extents: seq<Extent>, data: seq<byte>)
    requires position <= |bytes| && Accepted(extents, position, |bytes|) && Fits(extents, |bytes|)
    requires |data| == Total(extents)
    ensures Compared(bytes, position, extents, data) <==>
      Scatter(bytes[..position] + Zeros(|bytes| - position), extents, data) == bytes
    decreases |extents|
  {
    var base := bytes[..position] + Zeros(|bytes| - position);
    if extents == [] {
      if AllZero(bytes, position, |bytes|) {
        assert base == bytes;
      } else {
        var i :| position <= i < |bytes| && bytes[i] != 0;
        assert base[i] != bytes[i];
      }
    } else {
      var e := extents[0];
      var next := Overwrite(base, e.start, data[..e.length]);
      ComparedExact(bytes, End(e), extents[1..], data[e.length..]);
      if AllZero(bytes, position, e.start) && bytes[e.start..End(e)] == data[..e.length] {
        NextBase(bytes, position, e, data);
      } else {
        OtherBase(bytes, position, e, data);
        var i :| 0 <= i < End(e) && next[i] != bytes[i];
        ScatterBefore(next, extents[1..], data[e.length..], End(e), i);
      }
    }
  }

  lemma NextBase(bytes: seq<byte>, position: nat, e: Extent, data: seq<byte>)
    requires position <= e.start && End(e) <= |bytes| && e.length <= |data|
    requires AllZero(bytes, position, e.start) && bytes[e.start..End(e)] == data[..e.length]
    ensures Overwrite(bytes[..position] + Zeros(|bytes| - position), e.start, data[..e.length]) ==
      bytes[..End(e)] + Zeros(|bytes| - End(e))
  {
    assert forall i :: e.start <= i < End(e) ==> bytes[i] == bytes[e.start..End(e)][i - e.start];
  }

  lemma OtherBase(bytes: seq<byte>, position: nat, e: Extent, data: seq<byte>)
    requires position <= e.start && End(e) <= |bytes| && e.length <= |data|
    requires !(AllZero(bytes, position, e.start) && bytes[e.start..End(e)] == data[..e.length])
    ensures exists i ::
      0 <= i < End(e) &&
      Overwrite(bytes[..position] + Zeros(|bytes| - position), e.start, data[..e.length])[i] != bytes[i]
  {
    var next := Overwrite(bytes[..position] + Zeros(|bytes| - position), e.start, data[..e.length]);
    if !AllZero(bytes, position, e.start) {
      var i :| position <= i < e.start && bytes[i] != 0;
      assert next[i] != bytes[i];
    } else {
      var k :| 0 <= k < e.length && bytes[e.start..End(e)][k] != data[..e.length][k];
      assert next[e.start + k] != bytes[e.start + k];
    }
  }

  /** A file's streamed data are its bytes in the live tree. */
  predicate SameContent(w: Tree, item: Item)
    requires Readable(item.record) && |item.data| == DataSize(item.record)
  {
    item.record.kind.FileKind? ==>
      |BytesOf(w, item.record.path)| == item.record.kind.size &&
      Compared(BytesOf(w, item.record.path), 0, item.record.kind.extents, item.data)
  }

  /** verify_backup: one record of the walk for every record of the stream, and the same contents. */
  predicate Accepts(w: Tree, order: seq<Path>, items: seq<Item>)
    requires WellFormed(w) && AllNamed(w, order) && NoSockets(w, order) && Streamable(items)
  {
    |items| == |order| &&
    forall k :: 0 <= k < |items| ==> SameRecord(items[k].record, RecordAt(w, order, k)) && SameContent(w, items[k])
  }

  // ---------------------------------------------------------------- exactness

  /** The same files along one walk. */
  ghost predicate SameAlong(t: Tree, w: Tree, order: seq<Path>) {
    && (forall k :: 0 <= k < |order| ==>
      Alike(t, w, order[k]) && (t.names[order[k]].DirEntry? ==> w.names[order[k]] == t.names[order[k]]))
    && (forall i, k :: 0 <= i < |order| && 0 <= k < |order| ==> SameClass(t, w, order[i], order[k]))
  }

  ghost predicate Walkable(t: Tree, order: seq<Path>) {
    WellFormed(t) && AllNamed(t, order) && NoSockets(t, order) && NoRepeats(order)
  }

  /** Equal trees list the same first link for every path. */
  lemma SameFirst(t: Tree, w: Tree, order: seq<Path>, k: nat, i: nat, j: nat)
    requires SameAlong(t, w, order) && k < |order| && order[k] in t.names && t.names[order[k]].LeafEntry?
    requires order[k] in w.names && w.names[order[k]].LeafEntry?
    requires FirstLink(t, order, t.names[order[k]].ino, i) && FirstLink(w, order, w.names[order[k]].ino, j) && i <= k
    requires j <= k
    ensures i == j
  {
    hide Alike;
    assert SameClass(t, w, order[i], order[k]) && SameClass(t, w, order[j], order[k]);
    assert order[k] in t.names && order[k] in w.names;
    assert LinksTo(w, order[i], w.names[order[k]].ino) && LinksTo(t, order[j], t.names[order[k]].ino);
  }

  lemma AlongAt(t: Tree, w: Tree, order: seq<Path>, k: nat)
    requires SameAlong(t, w, order) && k < |order|
    ensures Alike(t, w, order[k]) && order[k] in t.names && order[k] in w.names
    ensures t.names[order[k]].DirEntry? ==> w.names[order[k]] == t.names[order[k]]
  {
    assert Alike(t, w, order[k]);
  }

  lemma SameKinds(t: Tree, w: Tree, order: seq<Path>, k: nat)
    requires Walkable(t, order) && Walkable(w, order) && SameAlong(t, w, order) && k < |order|
    ensures SameRecord(RecordAt(t, order, k), RecordAt(w, order, k))
  {
    hide SameAlong, NoRepeats, NoSockets, ExtentsOf;
    AlongAt(t, w, order, k);
    RecordMeta(t, order, k);
    RecordMeta(w, order, k);
    RecordData(t, order, k);
    RecordData(w, order, k);
    if t.names[order[k]].LeafEntry? {
      var i := RecordLinks(t, order, k);
      var j := RecordLinks(w, order, k);
      SameFirst(t, w, order, k, i, j);
    }
  }

  /** The streamed comparison accepts exactly the data that restores to the live file's bytes. */
  lemma SameContents(w: Tree, item: Item)
    requires Readable(item.record) && |item.data| == DataSize(item.record) && item.record.kind.FileKind?
    ensures SameContent(w, item) <==> NewBody(item).value.content.bytes == BytesOf(w, item.record.path)
  {
    hide Compared, Scatter, BytesOf, Mapped;
    var extents, size := item.record.kind.extents, item.record.kind.size;
    AcceptedFits(extents, 0, size);
    var bytes := BytesOf(w, item.record.path);
    if |bytes| == size {
      ComparedExact(bytes, 0, extents, item.data);
      assert bytes[..0] + Zeros(|bytes| - 0) == Zeros(size);
    }
  }

  /** A stream is accepted exactly when it describes the live tree. */
  lemma AcceptsDescribes(w: Tree, order: seq<Path>, items: seq<Item>)
    requires WellFormed(w) && AllNamed(w, order) && NoSockets(w, order) && Streamable(items)
    ensures Accepts(w, order, items) <==> Describes(w, order, items)
  {
    hide SameRecord, SameContent, RecordAt, WellFormed, NewBody, AllNamed, NoSockets, Readable, DataSize, BytesOf;
    if |items| == |order| {
      forall k | 0 <= k < |items|
        ensures ItemDescribes(w, order, k, items[k]) <==>
          SameRecord(items[k].record, RecordAt(w, order, k)) && SameContent(w, items[k])
      {
        RecordData(w, order, k);
        if SameRecord(items[k].record, RecordAt(w, order, k)) {
          SamePath(items[k].record, RecordAt(w, order, k));
          if items[k].record.kind.FileKind? {
            SameContents(w, items[k]);
          } else {
            NoContent(w, items[k]);
          }
        }
      }
    }
  }

  lemma SamePath(a: Record, b: Record)
    requires SameRecord(a, b)
    ensures a.path == b.path
  {
  }

  lemma NoContent(w: Tree, item: Item)
    requires Readable(item.record) && |item.data| == DataSize(item.record) && !item.record.kind.FileKind?
    ensures SameContent(w, item)
  {
  }

  lemma SameBytes(t: Tree, w: Tree, order: seq<Path>, k: nat)
    requires SameAlong(t, w, order) && k < |order|
    ensures BytesOf(w, order[k]) == BytesOf(t, order[k])
  {
    hide SameClass;
    assert Alike(t, w, order[k]);
  }

  /** What describes a tree describes every tree that holds the same along the walk. */
  lemma DescribesSame(t: Tree, w: Tree, order: seq<Path>, items: seq<Item>)
    requires Walkable(t, order) && Walkable(w, order) && SameAlong(t, w, order) && Describes(t, order, items)
    ensures Describes(w, order, items)
  {
    hide SameAlong, SameRecord, RecordAt, WellFormed, AllNamed, NoSockets, NoRepeats, BytesOf, NewBody, Readable,
      DataSize;
    forall k | 0 <= k < |order|
      ensures ItemDescribes(w, order, k, items[k])
    {
      DescribesAt(t, order, items, k);
      SameKinds(t, w, order, k);
      SameTwice(items[k].record, RecordAt(t, order, k), RecordAt(w, order, k));
      SameBytes(t, w, order, k);
    }
  }

  lemma SameTwice(a: Record, b: Record, c: Record)
    requires SameRecord(a, b)
    ensures SameRecord(a, c) <==> SameRecord(b, c)
  {
  }

  /** An accepted stream's records pin every file down. */
  lemma {:induction false} AcceptedAlike(t: Tree, w: Tree, order: seq<Path>, k: nat)
    requires Walkable(t, order) && Walkable(w, order) && k < |order|
    requires forall i :: 0 <= i < |order| ==> SameRecord(RecordAt(t, order, i), RecordAt(w, order, i))
    requires forall i :: 0 <= i < |order| && RecordAt(t, order, i).kind.FileKind? ==>
      BytesOf(w, order[i]) == BytesOf(t, order[i])
    ensures Alike(t, w, order[k]) && (t.names[order[k]].DirEntry? ==> w.names[order[k]] == t.names[order[k]])
    decreases k
  {
    hide RecordAt, NoRepeats, ExtentsOf;
    assert SameRecord(RecordAt(t, order, k), RecordAt(w, order, k));
    RecordMeta(t, order, k);
    RecordMeta(w, order, k);
    RecordData(t, order, k);
    RecordData(w, order, k);
    if t.names[order[k]].LeafEntry? {
      var i := RecordLinks(t, order, k);
      var j := RecordLinks(w, order, k);
      if i < k {
        PathIndex(order, i, j);
        AcceptedAlike(t, w, order, i);
      } else {
        KindsAlike(t.inodes[t.names[order[k]].ino].body, w.inodes[w.names[order[k]].ino].body);
      }
    }
  }

  lemma KindsAlike(a: Body, b: Body)
    requires !a.SocketBody? && (a.FileBody? ==> SoundContent(a.content)) && !b.SocketBody?
    requires (b.FileBody? ==> SoundContent(b.content))
    requires FirstKind(a) == FirstKind(b) || (FirstKind(a).FileKind? && FirstKind(b).FileKind?)
    requires a.FileBody? && b.FileBody? ==> a.content.bytes == b.content.bytes
    ensures BodyAlike(a, b)
  {
  }

  lemma PathIndex(order: seq<Path>, i: nat, j: nat)
    requires NoRepeats(order) && i < |order| && j < |order| && order[i] == order[j]
    ensures i == j
  {
  }

  /** The index of the path an accepted record is a link to, or its own. */
  lemma SameLink(t: Tree, w: Tree, order: seq<Path>, k: nat) returns (j: nat)
    requires Walkable(t, order) && Walkable(w, order) && k < |order| && t.names[order[k]].LeafEntry?
    requires w.names[order[k]].LeafEntry?
    requires SameRecord(RecordAt(t, order, k), RecordAt(w, order, k))
    ensures FirstLink(t, order, t.names[order[k]].ino, j) && FirstLink(w, order, w.names[order[k]].ino, j)
  {
    hide RecordAt, NoRepeats, NoSockets, ExtentsOf, WellFormed;
    var i := RecordLinks(t, order, k);
    j := RecordLinks(w, order, k);
    if i < k && j < k {
      PathIndex(order, i, j);
    }
  }

  lemma AcceptedClass(t: Tree, w: Tree, order: seq<Path>, i: nat, k: nat)
    requires Walkable(t, order) && Walkable(w, order) && i < |order| && k < |order|
    requires SameRecord(RecordAt(t, order, i), RecordAt(w, order, i))
    requires SameRecord(RecordAt(t, order, k), RecordAt(w, order, k))
    requires Alike(t, w, order[i]) && Alike(t, w, order[k])
    ensures SameClass(t, w, order[i], order[k])
  {
    hide RecordAt, SameRecord, NoRepeats, NoSockets, BodyAlike, WellFormed;
    if t.names[order[i]].LeafEntry? && t.names[order[k]].LeafEntry? {
      var a := SameLink(t, w, order, i);
      var b := SameLink(t, w, order, k);
      if SameFile(t, order[i], order[k]) || SameFile(w, order[i], order[k]) {
        assert !(a < b) && !(b < a);
      }
    }
  }

  /** Trees described by one stream hold the same along the walk. */
  lemma AcceptedSame(t: Tree, w: Tree, order: seq<Path>, items: seq<Item>)
    requires Walkable(t, order) && Walkable(w, order)
    requires Describes(t, order, items) && Describes(w, order, items)
    ensures SameAlong(t, w, order)
  {
    hide SameRecord, RecordAt, WellFormed, NoSockets, BytesOf, SameClass, NoRepeats, Readable, DataSize, BodyAlike,
      NewBody;
    forall k | 0 <= k < |order|
      ensures SameRecord(RecordAt(t, order, k), RecordAt(w, order, k))
      ensures (RecordAt(t, order, k).kind.FileKind? ==> BytesOf(w, order[k]) == BytesOf(t, order[k]))
    {
      DescribesAt(t, order, items, k);
      DescribesAt(w, order, items, k);
      SameTwice(items[k].record, RecordAt(t, order, k), RecordAt(w, order, k));
      DescribedRecord(t, order, k, items[k]);
    }
    forall k | 0 <= k < |order|
      ensures Alike(t, w, order[k]) && (t.names[order[k]].DirEntry? ==> w.names[order[k]] == t.names[order[k]])
    {
      AcceptedAlike(t, w, order, k);
    }
    forall i, k | 0 <= i < |order| && 0 <= k < |order|
      ensures SameClass(t, w, order[i], order[k])
    {
      AcceptedClass(t, w, order, i, k);
    }
  }
}
