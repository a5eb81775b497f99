/**
 Copying and comparing sparse disk images by their allocated ranges.
 Sources: crates/agent/src/lima_storage.rs, crates/agent/src/runtime_storage.rs.
 */
module SparseImage {
  import opened Bytes
  import opened BackupTree
  import opened BackupExtents

  const BUFFER: nat := 1048576

  predicate Before(a: Extent, b: Extent) {
    a.start < b.start || (a.start == b.start && End(a) <= End(b))
  }

  predicate InOrder(ranges: seq<Extent>) {
    forall i, k :: 0 <= i < k < |ranges| ==> ranges[i].start <= ranges[k].start
  }

  /** The same ranges, whatever their order and repetition. */
  ghost predicate SameRanges(a: seq<Extent>, b: seq<Extent>) {
    forall r :: r in a <==> r in b
  }

  /** Two images agree on a range. */
  predicate Agree(a: seq<byte>, b: seq<byte>, from: nat, to: nat)
    requires from <= to <= |a| && |a| == |b|
  {
    forall i :: from <= i < to ==> a[i] == b[i]
  }

  ghost predicate AgreeOn(a: seq<byte>, b: seq<byte>, ranges: seq<Extent>)
    requires |a| == |b| && Fits(ranges, |a|)
  {
    forall i :: 0 <= i < |ranges| ==> Agree(a, b, ranges[i].start, End(ranges[i]))
  }

  // ------------------------------------------------------ the ranges are enough

  lemma {:induction false} SegmentsCover(mapped: seq<bool>, offset: nat, i: nat)
    requires offset <= i < |mapped| && mapped[i]
    ensures Within(Segments(mapped, offset), i)
    decreases |mapped| - offset
  {
    var start := Seek(mapped, offset, true);
    var end := Seek(mapped, start, false);
    var segments := Segments(mapped, offset);
    if i < end {
      assert segments[0] == Extent(start, end - start);
    } else {
      SegmentsCover(mapped, end, i);
      var k :| 0 <= k < |Segments(mapped, end)| && Segments(mapped, end)[k].start <= i < End(Segments(mapped, end)[k]);
      assert segments[k + 1] == Segments(mapped, end)[k];
    }
  }

  /** Where neither image has anything allocated both read as zeros, so agreeing on the ranges of both is agreeing. */
  lemma UnionEnough(a: Content, b: Content, ranges: seq<Extent>)
    requires SoundContent(a) && SoundContent(b) && |a.bytes| == |b.bytes| && Fits(ranges, |a.bytes|)
    requires SameRanges(ranges, Segments(a.mapped, 0) + Segments(b.mapped, 0))
    ensures AgreeOn(a.bytes, b.bytes, ranges) <==> a.bytes == b.bytes
  {
    if AgreeOn(a.bytes, b.bytes, ranges) {
      forall i | 0 <= i < |a.bytes|
        ensures a.bytes[i] == b.bytes[i]
      {
        if a.mapped[i] {
          SegmentsCover(a.mapped, 0, i);
          InRange(ranges, Segments(a.mapped, 0), i);
        } else if b.mapped[i] {
          SegmentsCover(b.mapped, 0, i);
          InRange(ranges, Segments(b.mapped, 0), i);
        }
      }
    }
  }

  lemma InRange(ranges: seq<Extent>, some: seq<Extent>, i: nat)
    requires Within(some, i) && forall r :: r in some ==> r in ranges
    ensures exists k :: 0 <= k < |ranges| && ranges[k].start <= i < End(ranges[k])
  {
    var r :| r in some && r.start <= i < End(r);
    var k :| 0 <= k < |ranges| && ranges[k] == r;
  }

  // -------------------------------------------------------------------- sorting

  function Insert(r: Extent, ranges: seq<Extent>): seq<Extent> {
    if ranges == [] || Before(r, ranges[0]) then [r] + ranges else [ranges[0]] + Insert(r, ranges[1..])
  }

  lemma {:induction false} InsertKeeps(r: Extent, ranges: seq<Extent>)
    requires InOrder(ranges)
    ensures InOrder(Insert(r, ranges)) && SameRanges(Insert(r, ranges), [r] + ranges)
  {
    if ranges != [] && !Before(r, ranges[0]) {
      InsertKeeps(r, ranges[1..]);
      var rest := Insert(r, ranges[1..]);
      forall k | 0 <= k < |rest|
        ensures ranges[0].start <= rest[k].start
      {
        assert rest[k] in rest && rest[k] in [r] + ranges[1..];
      }
      assert forall x :: x in [ranges[0]] + rest <==> x == ranges[0] || x in [r] + ranges[1..];
    }
  }

  method Sort(ranges: seq<Extent>) returns (sorted: seq<Extent>)
    ensures InOrder(sorted) && SameRanges(sorted, ranges)
  {
    sorted := [];
    for i := 0 to |ranges|
      invariant InOrder(sorted) && SameRanges(sorted, ranges[..i])
    {
      InsertKeeps(ranges[i], sorted);
      assert ranges[..i + 1] == ranges[..i] + [ranges[i]];
      sorted := Insert(ranges[i], sorted);
    }
    assert ranges[..|ranges|] == ranges;
  }

  /** Neighbours that are equal are read once. */
  method Dedup(ranges: seq<Extent>) returns (kept: seq<Extent>)
    ensures SameRanges(kept, ranges)
  {
    kept := [];
    for i := 0 to |ranges|
      invariant SameRanges(kept, ranges[..i])
      invariant i > 0 ==> kept != [] && kept[|kept| - 1] == ranges[i - 1]
    {
      assert ranges[..i + 1] == ranges[..i] + [ranges[i]];
      if kept == [] || kept[|kept| - 1] != ranges[i] {
        kept := kept + [ranges[i]];
      }
    }
    assert ranges[..|ranges|] == ranges;
  }

  lemma FitSame(ranges: seq<Extent>, others: seq<Extent>, size: nat)
    requires SameRanges(ranges, others) && Fits(others, size)
    ensures Fits(ranges, size)
  {
    forall i | 0 <= i < |ranges|
      ensures End(ranges[i]) <= size
    {
      assert ranges[i] in others;
    }
  }

  // --------------------------------------------------------------- both verifiers

  /** Two files compared from `from` to `to`, a buffer at a time. */
  method SameBytes(a: seq<byte>, b: seq<byte>, from: nat, to: nat) returns (ok: bool)
    requires |a| == |b| && to <= |a|
    ensures ok == forall i :: from <= i < to ==> a[i] == b[i]
  {
    var at := from;
    while at < to
      invariant from <= at && (at <= to || at == from) && forall i :: from <= i < at && i < to ==> a[i] == b[i]
    {
      var count := if to - at < BUFFER then to - at else BUFFER;
      if a[at..at + count] != b[at..at + count] {
        var k :| 0 <= k < count && a[at..at + count][k] != b[at..at + count][k];
        assert a[at + k] != b[at + k];
        return false;
      }
      forall i | at <= i < at + count
        ensures a[i] == b[i]
      {
        assert a[at..at + count][i - at] == b[at..at + count][i - at];
      }
      at := at + count;
    }
    ok := true;
  }

  method Ranges(input: Content, output: Content) returns (ranges: seq<Extent>)
    requires |input.mapped| == |input.bytes| == |output.bytes| == |output.mapped|
    ensures InOrder(ranges) && Fits(ranges, |input.bytes|)
    ensures SameRanges(ranges, Segments(input.mapped, 0) + Segments(output.mapped, 0))
  {
    var a := FindSegments(input.mapped);
    var b := FindSegments(output.mapped);
    SegmentsBound(input.mapped, 0);
    SegmentsBound(output.mapped, 0);
    ranges := Sort(a + b);
    FitSame(ranges, a + b, |input.bytes|);
  }

  /** Every range read in full. */
  method VerifyCopiedImage(input: Content, existing: Content) returns (ok: bool)
    requires SoundContent(input) && SoundContent(existing)
    ensures ok <==> input.bytes == existing.bytes
  {
    if |input.bytes| != |existing.bytes| { return false; }
    var sorted := Ranges(input, existing);
    var ranges := Dedup(sorted);
    FitSame(ranges, sorted, |input.bytes|);
    UnionEnough(input, existing, ranges);
    for i := 0 to |ranges|
      invariant forall k :: 0 <= k < i ==> Agree(input.bytes, existing.bytes, ranges[k].start, End(ranges[k]))
    {
      var same := SameBytes(input.bytes, existing.bytes, ranges[i].start, End(ranges[i]));
      if !same { return false; }
    }
    ok := true;
  }

  /** One pass: what an earlier range has covered is not read again. */
  method VerifySparseCopy(input: Content, output: Content) returns (ok: bool)
    requires SoundContent(input) && SoundContent(output)
    ensures ok <==> input.bytes == output.bytes
  {
    if |input.bytes| != |output.bytes| { return false; }
    var ranges := Ranges(input, output);
    UnionEnough(input, output, ranges);
    var endVerified := 0;
    for i := 0 to |ranges|
      invariant forall k :: 0 <= k < i ==> Agree(input.bytes, output.bytes, ranges[k].start, End(ranges[k]))
      invariant endVerified == 0 || exists k :: 0 <= k < i && End(ranges[k]) == endVerified
    {
      var start, end := ranges[i].start, End(ranges[i]);
      var offset := if start < endVerified then endVerified else start;
      Skipped(input.bytes, output.bytes, ranges, i, endVerified);
      var same := SameBytes(input.bytes, output.bytes, offset, end);
      if !same { return false; }
      if end > endVerified { endVerified := end; }
    }
    ok := true;
  }

  /** The part of a range that is skipped lies inside an earlier one, because ranges come in order of their start. */
  lemma Skipped(a: seq<byte>, b: seq<byte>, ranges: seq<Extent>, i: nat, endVerified: nat)
    requires |a| == |b| && Fits(ranges, |a|) && InOrder(ranges) && i < |ranges|
    requires forall k :: 0 <= k < i ==> Agree(a, b, ranges[k].start, End(ranges[k]))
    requires endVerified == 0 || exists k :: 0 <= k < i && End(ranges[k]) == endVerified
    ensures forall j :: ranges[i].start <= j < endVerified && j < |a| ==> a[j] == b[j]
  {
    if endVerified > 0 {
      var k :| 0 <= k < i && End(ranges[k]) == endVerified;
      assert Agree(a, b, ranges[k].start, End(ranges[k]));
    }
  }

  // ---------------------------------------------------------------------- copying

  /** One allocated range copied, a buffer at a time. */
  method CopyRange(input: seq<byte>, before: seq<byte>, start: nat, end: nat) returns (output: seq<byte>)
    requires start <= end <= |input| == |before|
    ensures |output| == |input| && forall k :: 0 <= k < |output| ==>
      output[k] == if start <= k < end then input[k] else before[k]
  {
    output := before;
    var offset := start;
    while offset < end
      invariant start <= offset <= end && |output| == |input|
      invariant forall k :: 0 <= k < |output| ==> output[k] == if start <= k < offset then input[k] else before[k]
    {
      var count := if end - offset < BUFFER then end - offset else BUFFER;
      output := Overwrite(output, offset, input[offset..offset + count]);
      offset := offset + count;
    }
  }

  /** A file of zeros of the source's length, and every allocated range written over it. */
  method SparseCopy(input: Content) returns (output: seq<byte>)
    requires SoundContent(input)
    ensures output == input.bytes
  {
    hide Segments;
    var ranges := FindSegments(input.mapped);
    SegmentsBound(input.mapped, 0);
    output := Zeros(|input.bytes|);
    for i := 0 to |ranges|
      invariant |output| == |input.bytes|
      invariant forall k :: 0 <= k < |output| ==> output[k] == if Within(ranges[..i], k) then input.bytes[k] else 0
    {
      output := CopyRange(input.bytes, output, ranges[i].start, End(ranges[i]));
      forall k | 0 <= k < |output|
        ensures Within(ranges[..i + 1], k) <==> Within(ranges[..i], k) || ranges[i].start <= k < End(ranges[i])
      {
        WithinNext(ranges, i, k);
      }
    }
    forall k | 0 <= k < |output|
      ensures output[k] == input.bytes[k]
    {
      assert ranges[..|ranges|] == ranges;
      if input.mapped[k] {
        SegmentsCover(input.mapped, 0, k);
      }
    }
  }

  lemma WithinNext(ranges: seq<Extent>, i: nat, k: nat)
    requires i < |ranges|
    ensures Within(ranges[..i + 1], k) <==> Within(ranges[..i], k) || ranges[i].start <= k < End(ranges[i])
  {
    assert ranges[..i + 1] == ranges[..i] + [ranges[i]];
  }

  /** Whatever the destination's filesystem allocates, a finished copy passes both verifiers. */
  method CopyAndVerify(input: Content, mapped: seq<bool>) returns (single: bool, full: bool)
    requires SoundContent(input) && SoundContent(Content(input.bytes, mapped))
    ensures single && full
  {
    var output := SparseCopy(input);
    single := VerifySparseCopy(input, Content(output, mapped));
    full := VerifyCopiedImage(input, Content(output, mapped));
  }
}
