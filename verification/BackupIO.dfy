/** The backup program itself: streams that may read short, and the loops that write, verify and restore. */
module BackupIO {
  import opened Outcomes
  import opened Bytes
  import opened BackupTree
  import opened BackupExtents
  import opened BackupRecords
  import opened BackupStream
  import opened BackupRestore
  import opened BackupRoundTrip
  import opened BackupVerify

  function Min(a: nat, b: nat): nat { if a < b then a else b }

  /** A stream that may hand out fewer bytes than asked for, but none only at its end. */
  class ByteStream {
    const data: seq<byte>
    var at: nat

    ghost predicate Valid()
      reads this
    {
      at <= |data|
    }

    ghost function Rest(): seq<byte>
      reads this
      requires Valid()
    {
      data[at..]
    }

    constructor (bytes: seq<byte>)
      ensures Valid() && Rest() == bytes
    {
      data, at := bytes, 0;
    }

    method Read(limit: nat) returns (chunk: seq<byte>)
      requires Valid()
      modifies this`at
      ensures Valid() && |chunk| <= limit && |chunk| <= |old(Rest())|
      ensures chunk == old(Rest())[..|chunk|] && Rest() == old(Rest())[|chunk|..]
      ensures limit > 0 && old(Rest()) != [] ==> chunk != []
    {
      var most := Min(limit, |data| - at);
      var count: nat :| count <= most && (most > 0 ==> count > 0);
      chunk := data[at..at + count];
      at := at + count;
    }

    /** Exactly this many bytes, however the stream hands them out; false when it ends too soon. */
    method Exact(size: nat) returns (ok: bool, result: seq<byte>)
      requires Valid()
      modifies this`at
      ensures Valid() && ok == (|old(Rest())| >= size)
      ensures ok ==> result == old(Rest())[..size] && Rest() == old(Rest())[size..]
      ensures ok ==> |result| == size && old(Rest()) == result + Rest()
    {
      result := [];
      while |result| < size
        invariant Valid() && |result| <= size && |result| <= |old(Rest())|
        invariant result == old(Rest())[..|result|] && Rest() == old(Rest())[|result|..]
      {
        var chunk := Read(size - |result|);
        if chunk == [] { return false, result; }
        result := result + chunk;
      }
      ok := true;
    }
  }

  datatype Header = EndOfBackup | Entry(record: Record) | Malformed

  /** One record's header, or the end of the stream with nothing after it. */
  method ReadRecord(c: Codec, stream: ByteStream) returns (r: Header)
    requires stream.Valid()
    modifies stream`at
    ensures stream.Valid()
    ensures match ReadHead(c, old(stream.Rest()))
            case NoMore => r == EndOfBackup
            case BadHead => r == Malformed
            case Head(record, rest) => r == Entry(record) && stream.Rest() == rest
  {
    var ok, prefix := stream.Exact(4);
    if !ok { return Malformed; }
    var size := FromSize4(prefix);
    if size == 0 {
      var extra := stream.Read(1);
      return if extra == [] then EndOfBackup else Malformed;
    }
    if size > CHUNK { return Malformed; }
    var whole, encoded := stream.Exact(size);
    if !whole { return Malformed; }
    assert encoded == old(stream.Rest())[4..4 + size];
    var record := c.decode(encoded);
    if record.None? || !Readable(record.value) { return Malformed; }
    assert stream.Rest() == old(stream.Rest())[4 + size..];
    r := Entry(record.value);
  }

  // ------------------------------------------------------------------- writing

  lemma {:induction false} EncodedGrows(c: Codec, items: seq<Item>, item: Item)
    requires Fit(c, items) && |c.encode(item.record)| <= CHUNK
    ensures Fit(c, items + [item]) && EncodedAll(c, items + [item]) == EncodedAll(c, items) + Encoded(c, item)
  {
    if items != [] {
      assert (items + [item])[1..] == items[1..] + [item];
      EncodedGrows(c, items[1..], item);
    } else {
      assert (items + [item])[1..] == [];
    }
  }

  lemma {:induction false} GatherGrows(bytes: seq<byte>, extents: seq<Extent>, i: nat)
    requires Fits(extents, |bytes|) && i < |extents|
    ensures Gather(bytes, extents[..i + 1]) == Gather(bytes, extents[..i]) + bytes[extents[i].start..End(extents[i])]
    decreases i
  {
    if i == 0 {
      assert extents[..1] == [extents[0]] && extents[..1][1..] == [];
    } else {
      GatherGrows(bytes, extents[1..], i - 1);
      assert extents[..i + 1][1..] == extents[1..][..i];
      assert extents[..i][1..] == extents[1..][..i - 1];
    }
  }

  /** One extent's bytes, read in chunks. */
  method ReadExtent(bytes: seq<byte>, e: Extent) returns (output: seq<byte>)
    requires End(e) <= |bytes|
    ensures output == bytes[e.start..End(e)]
  {
    output := [];
    var offset, size: nat := e.start, e.length;
    while size > 0
      invariant e.start <= offset && offset + size == End(e) && output == bytes[e.start..offset]
    {
      var count := Min(CHUNK, size);
      output := output + bytes[offset..offset + count];
      offset := offset + count;
      size := size - count;
    }
  }

  /** The bytes of the extents, in turn. */
  method WriteData(bytes: seq<byte>, extents: seq<Extent>) returns (output: seq<byte>)
    requires Fits(extents, |bytes|)
    ensures output == Gather(bytes, extents)
  {
    output := [];
    for i := 0 to |extents|
      invariant output == Gather(bytes, extents[..i])
    {
      var data := ReadExtent(bytes, extents[i]);
      GatherGrows(bytes, extents, i);
      output := output + data;
    }
    assert extents[..|extents|] == extents;
  }

  /** One record and, for a regular file, its data. */
  method WriteItem(c: Codec, t: Tree, p: Path, links: map<nat, Path>,
      before: seq<byte>) returns (ok: bool, output: seq<byte>)
    requires WellFormed(t) && p in t.names && !HasSocket(t, p)
    ensures ok == (|c.encode(ItemOf(t, p, links).record)| <= CHUNK)
    ensures ok ==> output == before + Encoded(c, ItemOf(t, p, links))
  {
    hide WellFormed, RecordOf, ItemOf, Size4, BytesOf, Gather, Fits;
    var record := RecordOf(t, p, links);
    ItemBytes(t, p, links);
    var encoded := c.encode(record);
    if |encoded| > CHUNK { return false, before; }
    output := before + Size4(|encoded|) + encoded;
    if record.kind.FileKind? {
      var data := WriteData(BytesOf(t, p), record.kind.extents);
      output := output + data;
    }
    ok := true;
  }

  lemma ItemBytes(t: Tree, p: Path, links: map<nat, Path>)
    requires WellFormed(t) && p in t.names && !HasSocket(t, p)
    ensures
      var r := RecordOf(t, p, links);
      && ItemOf(t, p, links).record == r
      && (r.kind.FileKind? ==>
        Fits(r.kind.extents, |BytesOf(t, p)|) && ItemOf(t, p, links).data == Gather(BytesOf(t, p), r.kind.extents))
      && (!r.kind.FileKind? ==> ItemOf(t, p, links).data == [])
  {
    hide RecordOf;
    RecordHasData(t, p, links);
  }

  lemma ItemsGrow(t: Tree, order: seq<Path>, k: nat)
    requires WellFormed(t) && AllNamed(t, order) && k < |order| && NoSockets(t, order[..k]) && !HasSocket(t, order[k])
    ensures NoSockets(t, order[..k + 1])
    ensures ItemsOf(t, order[..k + 1]) == ItemsOf(t, order[..k]) + [ItemOf(t, order[k], LinksOf(t, order[..k]))]
  {
    hide WellFormed, ItemOf, LinksOf;
    var more := order[..k + 1];
    assert more == order[..k] + [order[k]];
    assert more[..k] == order[..k];
    assert forall i :: 0 <= i < k ==> order[..k][..i] == more[..i];
  }

  /** The walk's records and their data, one after the other; nothing is kept of a backup that fails. */
  method WriteBackup(c: Codec, t: Tree, order: seq<Path>) returns (ok: bool, output: seq<byte>)
    requires WellFormed(t) && AllNamed(t, order)
    ensures ok == (NoSockets(t, order) && Written(c, ItemsOf(t, order)).Ok?)
    ensures ok ==> Ok(output) == Written(c, ItemsOf(t, order))
  {
    hide WellFormed, ItemOf, Encoded;
    output := MAGIC;
    var links: map<nat, Path> := map[];
    assert order[..0] == [] && ItemsOf(t, []) == [];
    for k := 0 to |order|
      invariant NoSockets(t, order[..k]) && links == LinksOf(t, order[..k])
      invariant Fit(c, ItemsOf(t, order[..k]))
      invariant output == MAGIC + EncodedAll(c, ItemsOf(t, order[..k]))
    {
      var p := order[k];
      if HasSocket(t, p) { return false, []; }
      ItemsGrow(t, order, k);
      ghost var item := ItemOf(t, p, links);
      var fits, more := WriteItem(c, t, p, links, output);
      if !fits {
        TooLarge(c, t, order, k);
        return false, [];
      }
      EncodedGrows(c, ItemsOf(t, order[..k]), item);
      output := more;
      links := Relinked(t, p, links);
      assert order[..k + 1][..k] == order[..k];
    }
    assert order[..|order|] == order;
    output := output + Size4(0);
    ok := true;
  }

  lemma TooLarge(c: Codec, t: Tree, order: seq<Path>, k: nat)
    requires WellFormed(t) && AllNamed(t, order) && k < |order| && !HasSocket(t, order[k])
    requires |c.encode(ItemOf(t, order[k], LinksOf(t, order[..k])).record)| > CHUNK
    ensures NoSockets(t, order) ==> !Fit(c, ItemsOf(t, order))
  {
    hide WellFormed, ItemOf;
    if NoSockets(t, order) {
      assert ItemsOf(t, order)[k] == ItemOf(t, order[k], LinksOf(t, order[..k]));
    }
  }

  // ----------------------------------------------------------------- verifying

  /** Enough data follow, and they are the file's. */
  predicate Checks(bytes: seq<byte>, position: nat, extents: seq<Extent>, b: seq<byte>)
    requires position <= |bytes| && Accepted(extents, position, |bytes|)
  {
    |b| >= Total(extents) && Compared(bytes, position, extents, b[..Total(extents)])
  }

  lemma ChecksStep(bytes: seq<byte>, position: nat, extents: seq<Extent>, b: seq<byte>)
    requires position <= |bytes| && Accepted(extents, position, |bytes|) && extents != []
    ensures
      var e := extents[0];
      Checks(bytes, position, extents, b) <==>
        AllZero(bytes, position, e.start) && |b| >= e.length && bytes[e.start..End(e)] == b[..e.length] &&
        Checks(bytes, End(e), extents[1..], b[e.length..])
  {
    var e := extents[0];
    var total := Total(extents);
    if |b| >= total {
      assert b[..total][..e.length] == b[..e.length];
      assert b[..total][e.length..] == b[e.length..][..total - e.length];
    }
  }

  /** A hole of the stream must read as zeros in the live file. */
  method CheckZeros(bytes: seq<byte>, from: nat, to: nat) returns (ok: bool)
    requires from <= to <= |bytes|
    ensures ok == AllZero(bytes, from, to)
  {
    var position := from;
    while position < to
      invariant from <= position <= to && AllZero(bytes, from, position)
    {
      var count := Min(CHUNK, to - position);
      if !AllZero(bytes, position, position + count) { return false; }
      position := position + count;
    }
    ok := true;
  }

  /** An extent's bytes in the live file against the stream, a chunk at a time. */
  method CheckBytes(bytes: seq<byte>, e: Extent, stream: ByteStream) returns (ok: bool)
    requires End(e) <= |bytes| && stream.Valid()
    modifies stream`at
    ensures stream.Valid()
    ensures ok == (|old(stream.Rest())| >= e.length && bytes[e.start..End(e)] == old(stream.Rest())[..e.length])
    ensures ok ==> stream.Rest() == old(stream.Rest())[e.length..]
  {
    hide Same;
    ghost var b := stream.Rest();
    var position, length: nat := e.start, e.length;
    ghost var taken: seq<byte> := [];
    NothingSame(bytes, e.start, taken);
    while length > 0
      invariant stream.Valid() && position == e.start + |taken| && position + length == End(e)
      invariant Same(bytes, e.start, taken) && b == taken + stream.Rest()
    {
      var count := Min(CHUNK, length);
      var whole, chunk := stream.Exact(count);
      if !whole { return false; }
      if bytes[position..position + count] != chunk {
        OtherBytes(bytes, e, taken, chunk, b, stream.Rest());
        return false;
      }
      SameSoFar(bytes, e.start, taken, chunk, stream.Rest());
      taken := taken + chunk;
      position := position + count;
      length := length - count;
    }
    AllSame(bytes, e, taken, b, stream.Rest());
    ok := true;
  }

  /** These bytes are the file's, from `start` on. */
  ghost predicate Same(bytes: seq<byte>, start: nat, taken: seq<byte>) {
    start + |taken| <= |bytes| && forall i :: 0 <= i < |taken| ==> bytes[start + i] == taken[i]
  }

  lemma NothingSame(bytes: seq<byte>, start: nat, taken: seq<byte>)
    requires start <= |bytes| && taken == []
    ensures Same(bytes, start, taken)
  {
  }

  lemma AllSame(bytes: seq<byte>, e: Extent, taken: seq<byte>, b: seq<byte>, rest: seq<byte>)
    requires End(e) <= |bytes| && Same(bytes, e.start, taken) && |taken| == e.length && b == taken + rest
    ensures |b| >= e.length && bytes[e.start..End(e)] == b[..e.length] && rest == b[e.length..]
  {
  }

  lemma SameSoFar(bytes: seq<byte>, start: nat, taken: seq<byte>, chunk: seq<byte>, rest: seq<byte>)
    requires Same(bytes, start, taken) && start + |taken| + |chunk| <= |bytes|
    requires bytes[start + |taken|..start + |taken| + |chunk|] == chunk
    ensures Same(bytes, start, taken + chunk) && taken + (chunk + rest) == (taken + chunk) + rest
  {
    forall i | 0 <= i < |taken| + |chunk|
      ensures bytes[start + i] == (taken + chunk)[i]
    {
      if i >= |taken| {
        assert bytes[start + |taken|..start + |taken| + |chunk|][i - |taken|] == chunk[i - |taken|];
      }
    }
  }

  lemma OtherBytes(bytes: seq<byte>, e: Extent, taken: seq<byte>, chunk: seq<byte>, b: seq<byte>, rest: seq<byte>)
    requires End(e) <= |bytes| && |taken| + |chunk| <= e.length && b == taken + (chunk + rest)
    requires bytes[e.start + |taken|..e.start + |taken| + |chunk|] != chunk
    ensures !(|b| >= e.length && bytes[e.start..End(e)] == b[..e.length])
  {
    var at := e.start + |taken|;
    var k :| 0 <= k < |chunk| && bytes[at..at + |chunk|][k] != chunk[k];
    assert b[|taken| + k] == chunk[k];
    assert |b| >= e.length ==> bytes[e.start..End(e)][|taken| + k] != b[..e.length][|taken| + k];
  }

  /** A file's extents and holes in turn, to its end. */
  method CompareFile(bytes: seq<byte>, extents: seq<Extent>, stream: ByteStream) returns (ok: bool)
    requires Accepted(extents, 0, |bytes|) && stream.Valid()
    modifies stream`at
    ensures stream.Valid() && ok == Checks(bytes, 0, extents, old(stream.Rest()))
    ensures ok ==> stream.Rest() == old(stream.Rest())[Total(extents)..]
  {
    hide AllZero, Compared, Checks, Total;
    ghost var b := stream.Rest();
    ghost var taken: seq<byte> := [];
    var position: nat := 0;
    var i := 0;
    assert extents[0..] == extents;
    while i < |extents|
      invariant stream.Valid() && i <= |extents| && position <= |bytes| && Accepted(extents[i..], position, |bytes|)
      invariant Checks(bytes, 0, extents, b) <==> Checks(bytes, position, extents[i..], stream.Rest())
      invariant b == taken + stream.Rest() && |taken| + Total(extents[i..]) == Total(extents)
    {
      var e := extents[i];
      ghost var before := stream.Rest();
      NextExtent(extents, i);
      ChecksStep(bytes, position, extents[i..], before);
      var zeros := CheckZeros(bytes, position, e.start);
      if !zeros { return false; }
      var same := CheckBytes(bytes, e, stream);
      if !same { return false; }
      Onward(taken, before, e.length);
      taken := taken + before[..e.length];
      position := End(e);
      i := i + 1;
    }
    NoExtents(extents[i..]);
    LastHole(bytes, position, stream.Rest());
    ok := CheckZeros(bytes, position, |bytes|);
    assert b[|taken|..] == stream.Rest();
  }

  lemma NextExtent(extents: seq<Extent>, i: nat)
    requires i < |extents|
    ensures extents[i..][0] == extents[i] && extents[i..][1..] == extents[i + 1..]
    ensures Total(extents[i..]) == extents[i].length + Total(extents[i + 1..])
  {
    assert extents[i..][1..] == extents[i + 1..];
  }

  lemma NoExtents(extents: seq<Extent>)
    requires extents == []
    ensures Total(extents) == 0
  {
  }

  lemma Onward(taken: seq<byte>, before: seq<byte>, length: nat)
    requires length <= |before|
    ensures taken + before == (taken + before[..length]) + before[length..]
  {
  }

  lemma LastHole(bytes: seq<byte>, position: nat, b: seq<byte>)
    requires position <= |bytes|
    ensures Checks(bytes, position, [], b) <==> AllZero(bytes, position, |bytes|)
  {
  }

  /** What one record of the stream is compared with. */
  predicate Matches(t: Tree, p: Path, links: map<nat, Path>, item: Item)
    requires WellFormed(t) && p in t.names && Readable(item.record) && |item.data| == DataSize(item.record)
  {
    !HasSocket(t, p) && SameRecord(item.record, RecordOf(t, p, links)) && SameContent(t, item)
  }

  /** Whether the rest of a stream holds the rest of the walk. */
  ghost predicate AcceptsFrom(c: Codec, t: Tree, order: seq<Path>, k: nat, b: seq<byte>)
    requires WellFormed(t) && AllNamed(t, order) && k <= |order|
  {
    var items := ReadItems(c, b);
    items.Ok? && |items.value| == |order| - k &&
    forall i :: 0 <= i < |items.value| ==> Matches(t, order[k + i], LinksOf(t, order[..k + i]), items.value[i])
  }

  lemma AcceptsStart(c: Codec, t: Tree, order: seq<Path>, b: seq<byte>)
    requires WellFormed(t) && AllNamed(t, order)
    ensures AcceptsFrom(c, t, order, 0, b) <==>
      NoSockets(t, order) && ReadItems(c, b).Ok? && Accepts(t, order, ReadItems(c, b).value)
  {
    hide WellFormed, RecordOf, LinksOf, SameContent, SameRecord, ReadItem;
    if AcceptsFrom(c, t, order, 0, b) {
      var items := ReadItems(c, b).value;
      forall k | 0 <= k < |order|
        ensures !HasSocket(t, order[k])
      {
        assert Matches(t, order[0 + k], LinksOf(t, order[..0 + k]), items[k]);
      }
      forall k | 0 <= k < |order|
        ensures SameRecord(items[k].record, RecordAt(t, order, k)) && SameContent(t, items[k])
      {
        assert Matches(t, order[0 + k], LinksOf(t, order[..0 + k]), items[k]);
      }
    } else if NoSockets(t, order) && ReadItems(c, b).Ok? && |ReadItems(c, b).value| == |order| {
      var items := ReadItems(c, b).value;
      var k :| 0 <= k < |items| && !Matches(t, order[0 + k], LinksOf(t, order[..0 + k]), items[k]);
      assert !(SameRecord(items[k].record, RecordAt(t, order, k)) && SameContent(t, items[k]));
    }
  }

  lemma AcceptsStep(c: Codec, t: Tree, order: seq<Path>, k: nat, b: seq<byte>)
    requires WellFormed(t) && AllNamed(t, order) && k < |order|
    ensures
      var r := ReadItem(c, b);
      AcceptsFrom(c, t, order, k, b) <==>
        r.Next? && Matches(t, order[k], LinksOf(t, order[..k]), r.item) && AcceptsFrom(c, t, order, k + 1, r.rest)
  {
    hide WellFormed, LinksOf, Matches, ReadItem;
    var r := ReadItem(c, b);
    if r.Next? && ReadItems(c, r.rest).Ok? {
      var items, rest := ReadItems(c, b).value, ReadItems(c, r.rest).value;
      assert items == [r.item] + rest;
      if AcceptsFrom(c, t, order, k, b) {
        assert Matches(t, order[k + 0], LinksOf(t, order[..k + 0]), items[0]);
        forall i | 0 <= i < |rest|
          ensures Matches(t, order[k + 1 + i], LinksOf(t, order[..k + 1 + i]), rest[i])
        {
          assert Matches(t, order[k + (i + 1)], LinksOf(t, order[..k + (i + 1)]), items[i + 1]);
        }
      }
      if Matches(t, order[k], LinksOf(t, order[..k]), r.item) && AcceptsFrom(c, t, order, k + 1, r.rest) {
        forall i | 0 <= i < |items|
          ensures Matches(t, order[k + i], LinksOf(t, order[..k + i]), items[i])
        {
          if i > 0 {
            assert Matches(t, order[k + 1 + (i - 1)], LinksOf(t, order[..k + 1 + (i - 1)]), rest[i - 1]);
          }
        }
      }
    }
  }

  lemma AcceptsEnd(c: Codec, t: Tree, order: seq<Path>, k: nat, b: seq<byte>)
    requires WellFormed(t) && AllNamed(t, order) && k <= |order|
    ensures ReadItem(c, b).Done? ==> (AcceptsFrom(c, t, order, k, b) <==> k == |order|)
    ensures ReadItem(c, b).Bad? || (ReadItem(c, b).Next? && k == |order|) ==> !AcceptsFrom(c, t, order, k, b)
  {
  }

  /** One record of the stream against one path of the live tree. */
  method VerifyItem(t: Tree, p: Path, links: map<nat, Path>, limits: Option<seq<Path>>, record: Record,
      stream: ByteStream) returns (ok: bool)
    requires WellFormed(t) && p in t.names && Readable(record) && stream.Valid()
    requires limits.Some? ==> Covered(limits.value, p)
    modifies stream`at
    ensures stream.Valid()
    ensures
      var b := old(stream.Rest());
      var total := DataSize(record);
      ok == (|b| >= total && Matches(t, p, links, Item(record, b[..total]))) && (ok ==> stream.Rest() == b[total..])
  {
    hide Compared, RecordOf;
    if HasSocket(t, p) { return false; }
    RecordHasData(t, p, links);
    if !SameRecord(record, RecordOf(t, p, links)) { return false; }
    if record.kind.FileKind? {
      SafeThere(t, p, limits);
      if !SafePath(t, record.path, limits) { return false; }
      ok := CompareFile(BytesOf(t, p), record.kind.extents, stream);
    } else {
      ok := true;
    }
  }

  /** verify_backup: whatever the stream's short reads, the verdict is that of the records and bytes in it. */
  method VerifyBackup(c: Codec, t: Tree, order: seq<Path>, limits: Option<seq<Path>>,
      stream: ByteStream) returns (ok: bool)
    requires WellFormed(t) && AllNamed(t, order) && stream.Valid()
    requires limits.Some? ==> forall k :: 0 <= k < |order| ==> Covered(limits.value, order[k])
    modifies stream`at
    ensures
      var items := Parsed(c, old(stream.Rest()));
      ok == (NoSockets(t, order) && items.Ok? && Accepts(t, order, items.value))
  {
    hide WellFormed, RecordOf, Matches, AcceptsFrom, Accepts, LinksOf;
    ghost var whole := stream.Rest();
    var begun, magic := stream.Exact(|MAGIC|);
    if !begun || magic != MAGIC { return false; }
    AcceptsStart(c, t, order, stream.Rest());
    var links: map<nat, Path> := map[];
    var k := 0;
    EmptyLinks(t);
    assert order[..0] == [];
    while true
      invariant stream.Valid() && k <= |order| && links == LinksOf(t, order[..k])
      invariant AcceptsFrom(c, t, order, 0, whole[|MAGIC|..]) <==> AcceptsFrom(c, t, order, k, stream.Rest())
      decreases |stream.data| - stream.at
    {
      ghost var b := stream.Rest();
      AcceptsEnd(c, t, order, k, b);
      var header := ReadRecord(c, stream);
      if header.Malformed? { return false; }
      if header.EndOfBackup? { return k == |order|; }
      if k == |order| {
        assert AcceptsFrom(c, t, order, k, b) ==> ReadItem(c, b).Done?;
        return false;
      }
      AcceptsStep(c, t, order, k, b);
      var same := VerifyItem(t, order[k], links, limits, header.record, stream);
      if !same { return false; }
      links := Relinked(t, order[k], links);
      LinksStep(t, order, k);
      k := k + 1;
    }
  }

  lemma EmptyLinks(t: Tree)
    ensures LinksOf(t, []) == map[]
  {
  }

  lemma LinksStep(t: Tree, order: seq<Path>, k: nat)
    requires AllNamed(t, order) && k < |order|
    ensures LinksOf(t, order[..k + 1]) == Relinked(t, order[k], LinksOf(t, order[..k]))
  {
    assert order[..k + 1][..k] == order[..k];
  }
}
