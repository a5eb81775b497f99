/** Where a file's data lies: the extents a backup streams, and what they rebuild. */
module BackupExtents {
  import opened Bytes
  import opened BackupTree

  const BLOCK: nat := 65536

  datatype Extent = Extent(start: nat, length: nat)

  function End(e: Extent): nat { e.start + e.length }

  predicate Fits(extents: seq<Extent>, size: nat) {
    forall i :: 0 <= i < |extents| ==> End(extents[i]) <= size
  }

  predicate HasData(bytes: seq<byte>, lo: nat, hi: nat)
    requires lo <= hi <= |bytes|
  {
    exists i :: lo <= i < hi && bytes[i] != 0
  }

  // ---------------------------------------------- SEEK_DATA, SEEK_HOLE, compaction

  /** The first position from `i` on that is allocated, or not, as `data` says; the size when there is none. */
  function Seek(mapped: seq<bool>, i: nat, data: bool): (r: nat)
    requires i <= |mapped|
    ensures i <= r <= |mapped| && (r < |mapped| ==> mapped[r] == data)
    ensures forall k :: i <= k < r ==> mapped[k] != data
    decreases |mapped| - i
  {
    if i == |mapped| || mapped[i] == data then i else Seek(mapped, i + 1, data)
  }

  function Segments(mapped: seq<bool>, offset: nat): seq<Extent>
    requires offset <= |mapped|
    decreases |mapped| - offset
  {
    var start := Seek(mapped, offset, true);
    if start == |mapped| then []
    else
      var end := Seek(mapped, start, false);
      [Extent(start, end - start)] + Segments(mapped, end)
  }

  /** A block with data extends the extent it touches. */
  function Append(extents: seq<Extent>, start: nat, count: nat): seq<Extent> {
    if extents != [] && End(extents[|extents| - 1]) == start then
      extents[..|extents| - 1] + [Extent(extents[|extents| - 1].start, extents[|extents| - 1].length + count)]
    else extents + [Extent(start, count)]
  }

  function Blocks(bytes: seq<byte>, start: nat, length: nat, extents: seq<Extent>): seq<Extent>
    requires start + length <= |bytes|
    decreases length
  {
    if length == 0 then extents
    else
      var count := if length < BLOCK then length else BLOCK;
      Blocks(bytes, start + count, length - count,
             if HasData(bytes, start, start + count) then Append(extents, start, count) else extents)
  }

  function Compact(bytes: seq<byte>, segments: seq<Extent>, extents: seq<Extent>): seq<Extent>
    requires Fits(segments, |bytes|)
  {
    if segments == [] then extents
    else Compact(bytes, segments[1..], Blocks(bytes, segments[0].start, segments[0].length, extents))
  }

  // ------------------------------------------------------------------ soundness

  /** Ordered, disjoint and non-empty, ending by `bound`. */
  predicate Ordered(extents: seq<Extent>, bound: nat) {
    && (forall e <- extents :: e.length > 0 && End(e) <= bound)
    && (forall i, k :: 0 <= i < k < |extents| ==> End(extents[i]) <= extents[k].start)
  }

  ghost predicate Within(extents: seq<Extent>, i: nat) {
    exists e <- extents :: e.start <= i < End(e)
  }

  /** Every byte below `bound` that is not zero lies in an extent. */
  ghost predicate CoversData(bytes: seq<byte>, extents: seq<Extent>, bound: nat)
    requires bound <= |bytes|
  {
    forall i :: 0 <= i < bound && bytes[i] != 0 ==> Within(extents, i)
  }

  /** read_record's own check: each extent starts at or after the end of the last, inside the file. */
  predicate Accepted(extents: seq<Extent>, offset: nat, size: nat) {
    extents == [] ||
    (extents[0].start >= offset && extents[0].length > 0 && End(extents[0]) <= size &&
      Accepted(extents[1..], End(extents[0]), size))
  }

  lemma AppendSound(bytes: seq<byte>, extents: seq<Extent>, start: nat, count: nat)
    requires start + count <= |bytes| && count > 0 && Ordered(extents, start) && CoversData(bytes, extents, start)
    ensures Ordered(Append(extents, start, count), start + count)
    ensures CoversData(bytes, Append(extents, start, count), start + count)
  {
    var r := Append(extents, start, count);
    var last := r[|r| - 1];
    assert last in r && End(last) == start + count && last.start <= start;
    forall i | 0 <= i < start + count && bytes[i] != 0
      ensures Within(r, i)
    {
      if i < start {
        assert Within(extents, i);
        var k :| 0 <= k < |extents| && extents[k].start <= i < End(extents[k]);
        assert k < |r| && r[k].start == extents[k].start && End(r[k]) >= End(extents[k]);
        assert r[k] in r;
      }
    }
  }

  lemma SkipSound(bytes: seq<byte>, extents: seq<Extent>, from: nat, to: nat)
    requires from <= to <= |bytes| && Ordered(extents, from) && CoversData(bytes, extents, from)
    requires !HasData(bytes, from, to)
    ensures Ordered(extents, to) && CoversData(bytes, extents, to)
  {
  }

  lemma {:induction false} BlocksSound(bytes: seq<byte>, start: nat, length: nat, extents: seq<Extent>)
    requires start + length <= |bytes| && Ordered(extents, start) && CoversData(bytes, extents, start)
    ensures Ordered(Blocks(bytes, start, length, extents), start + length)
    ensures CoversData(bytes, Blocks(bytes, start, length, extents), start + length)
    decreases length
  {
    hide CoversData, Ordered, Append;
    if length > 0 {
      var count := if length < BLOCK then length else BLOCK;
      if HasData(bytes, start, start + count) {
        AppendSound(bytes, extents, start, count);
        BlocksSound(bytes, start + count, length - count, Append(extents, start, count));
      } else {
        SkipSound(bytes, extents, start, start + count);
        BlocksSound(bytes, start + count, length - count, extents);
      }
    }
  }

  lemma {:induction false} SegmentsBound(mapped: seq<bool>, offset: nat)
    requires offset <= |mapped|
    ensures Fits(Segments(mapped, offset), |mapped|)
    decreases |mapped| - offset
  {
    var start := Seek(mapped, offset, true);
    if start < |mapped| {
      SegmentsBound(mapped, Seek(mapped, start, false));
    }
  }

  lemma HoleEmpty(c: Content, from: nat, to: nat)
    requires SoundContent(c) && from <= to <= |c.bytes| && |c.mapped| == |c.bytes| && forall k :: from <= k < to ==>
      !c.mapped[k]
    ensures !HasData(c.bytes, from, to)
  {
  }

  lemma {:induction false} CompactSound(c: Content, offset: nat, extents: seq<Extent>)
    requires SoundContent(c) && offset <= |c.bytes|
    requires Ordered(extents, offset) && CoversData(c.bytes, extents, offset)
    requires Fits(Segments(c.mapped, offset), |c.bytes|)
    ensures Ordered(Compact(c.bytes, Segments(c.mapped, offset), extents), |c.bytes|)
    ensures CoversData(c.bytes, Compact(c.bytes, Segments(c.mapped, offset), extents), |c.bytes|)
    decreases |c.bytes| - offset
  {
    hide CoversData, Ordered, Blocks, HasData;
    var start := Seek(c.mapped, offset, true);
    HoleEmpty(c, offset, start);
    SkipSound(c.bytes, extents, offset, start);
    if start < |c.bytes| {
      var end := Seek(c.mapped, start, false);
      assert Segments(c.mapped, offset)[1..] == Segments(c.mapped, end);
      BlocksSound(c.bytes, start, end - start, extents);
      CompactSound(c, end, Blocks(c.bytes, start, end - start, extents));
    }
  }

  function ExtentsOf(c: Content): seq<Extent>
    requires |c.mapped| == |c.bytes|
  {
    SegmentsBound(c.mapped, 0);
    Compact(c.bytes, Segments(c.mapped, 0), [])
  }

  lemma {:induction false} OrderedAccepted(extents: seq<Extent>, offset: nat, size: nat)
    requires Ordered(extents, size) && (extents != [] ==> extents[0].start >= offset)
    ensures Accepted(extents, offset, size)
  {
    if extents != [] {
      assert extents[0] in extents;
      OrderedAccepted(extents[1..], End(extents[0]), size);
    }
  }

  /** The extents of any file are ordered, disjoint, in bounds, hold all its data, and pass the reader's check. */
  lemma ExtentsSound(c: Content)
    requires SoundContent(c)
    ensures Ordered(ExtentsOf(c), |c.bytes|) && CoversData(c.bytes, ExtentsOf(c), |c.bytes|)
    ensures Accepted(ExtentsOf(c), 0, |c.bytes|)
  {
    SegmentsBound(c.mapped, 0);
    CompactSound(c, 0, []);
    OrderedAccepted(ExtentsOf(c), 0, |c.bytes|);
  }

  // --------------------------------------------------------- out and back again

  function Zeros(size: nat): seq<byte> { seq(size, _ => 0) }

  function Total(extents: seq<Extent>): nat {
    if extents == [] then 0 else extents[0].length + Total(extents[1..])
  }

  /** The bytes of the extents, one after the other. */
  function Gather(bytes: seq<byte>, extents: seq<Extent>): (r: seq<byte>)
    requires Fits(extents, |bytes|)
    ensures |r| == Total(extents)
  {
    if extents == [] then [] else bytes[extents[0].start..End(extents[0])] + Gather(bytes, extents[1..])
  }

  function Overwrite(base: seq<byte>, at: nat, data: seq<byte>): (r: seq<byte>)
    requires at + |data| <= |base|
    ensures |r| == |base|
  {
    base[..at] + data + base[at + |data|..]
  }

  /** What seeking to each extent and writing its share of the data makes of a file. */
  function Scatter(base: seq<byte>, extents: seq<Extent>, data: seq<byte>): (r: seq<byte>)
    requires Fits(extents, |base|) && |data| == Total(extents)
    ensures |r| == |base|
    decreases |extents|
  {
    if extents == [] then base
    else
      Scatter(Overwrite(base, extents[0].start, data[..extents[0].length]), extents[1..], data[extents[0].length..])
  }

  lemma {:induction false} ScatterGather(bytes: seq<byte>, base: seq<byte>, extents: seq<Extent>, i: nat)
    requires |base| == |bytes| && i < |bytes| && Fits(extents, |bytes|)
    ensures Scatter(base, extents, Gather(bytes, extents))[i] ==
      if Within(extents, i) || base[i] == bytes[i] then bytes[i] else base[i]
    decreases |extents|
  {
    if extents != [] {
      var e := extents[0];
      var data := Gather(bytes, extents);
      assert data[..e.length] == bytes[e.start..End(e)] && data[e.length..] == Gather(bytes, extents[1..]);
      var next := Overwrite(base, e.start, data[..e.length]);
      assert next[i] == if e.start <= i < End(e) then bytes[i] else base[i];
      ScatterGather(bytes, next, extents[1..], i);
      assert Within(extents, i) <==> e.start <= i < End(e) || Within(extents[1..], i) by { WithinSplit(extents, i); }
    }
  }

  lemma WithinSplit(extents: seq<Extent>, i: nat)
    requires extents != []
    ensures Within(extents, i) <==> extents[0].start <= i < End(extents[0]) || Within(extents[1..], i)
  {
    if Within(extents, i) && !(extents[0].start <= i < End(extents[0])) {
      var k :| 0 <= k < |extents| && extents[k].start <= i < End(extents[k]);
      assert extents[1..][k - 1] == extents[k];
    }
    if Within(extents[1..], i) {
      var k :| 0 <= k < |extents[1..]| && extents[1..][k].start <= i < End(extents[1..][k]);
      assert extents[k + 1] in extents;
    }
  }

  /** Streaming the extents and seeking them back rebuilds the file, holes and all. */
  lemma Rebuilt(c: Content)
    requires SoundContent(c)
    ensures Fits(ExtentsOf(c), |c.bytes|)
    ensures Scatter(Zeros(|c.bytes|), ExtentsOf(c), Gather(c.bytes, ExtentsOf(c))) == c.bytes
  {
    ExtentsSound(c);
    var r := Scatter(Zeros(|c.bytes|), ExtentsOf(c), Gather(c.bytes, ExtentsOf(c)));
    forall i | 0 <= i < |c.bytes|
      ensures r[i] == c.bytes[i]
    {
      ScatterGather(c.bytes, Zeros(|c.bytes|), ExtentsOf(c), i);
    }
  }

  // ------------------------------------------------------------- the loops

  lemma {:induction false} CompactGrows(bytes: seq<byte>, segments: seq<Extent>, extents: seq<Extent>, i: nat)
    requires Fits(segments, |bytes|) && i < |segments|
    ensures Compact(bytes, segments[..i + 1], extents) ==
      Blocks(bytes, segments[i].start, segments[i].length, Compact(bytes, segments[..i], extents))
    decreases i
  {
    if i == 0 {
      assert segments[..1] == [segments[0]] && segments[..1][1..] == [];
    } else {
      CompactGrows(bytes, segments[1..], Blocks(bytes, segments[0].start, segments[0].length, extents), i - 1);
      assert segments[..i + 1][1..] == segments[1..][..i];
      assert segments[..i][1..] == segments[1..][..i - 1];
    }
  }

  /** The allocated ranges the filesystem reports, one SEEK_DATA and SEEK_HOLE pair at a time. */
  method FindSegments(mapped: seq<bool>) returns (result: seq<Extent>)
    ensures result == Segments(mapped, 0)
  {
    result := [];
    var offset := 0;
    while offset < |mapped|
      invariant offset <= |mapped|
      invariant Segments(mapped, 0) == result + Segments(mapped, offset)
    {
      var start := Seek(mapped, offset, true);
      if start == |mapped| { break; }
      var end := Seek(mapped, start, false);
      result := result + [Extent(start, end - start)];
      offset := end;
    }
  }

  /** Ranges read block by block; blocks of zeros are left out and neighbours joined. */
  method FindExtents(c: Content) returns (compact: seq<Extent>)
    requires |c.mapped| == |c.bytes|
    ensures compact == ExtentsOf(c)
  {
    hide HasData, Segments;
    var result := FindSegments(c.mapped);
    SegmentsBound(c.mapped, 0);
    compact := [];
    for i := 0 to |result|
      invariant compact == Compact(c.bytes, result[..i], [])
    {
      var start: nat, length: nat := result[i].start, result[i].length;
      ghost var before := compact;
      while length > 0
        invariant length >= 0 && start + length == End(result[i]) <= |c.bytes|
        invariant Blocks(c.bytes, result[i].start, result[i].length, before) == Blocks(c.bytes, start, length, compact)
      {
        var count := if length < BLOCK then length else BLOCK;
        if HasData(c.bytes, start, start + count) {
          if compact != [] && End(compact[|compact| - 1]) == start {
            var last := compact[|compact| - 1];
            compact := compact[..|compact| - 1] + [Extent(last.start, last.length + count)];
          } else {
            compact := compact + [Extent(start, count)];
          }
        }
        start := start + count;
        length := length - count;
      }
      CompactGrows(c.bytes, result, [], i);
    }
    assert result[..|result|] == result;
  }
}
