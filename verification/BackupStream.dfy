/** The backup's byte stream: length-prefixed records, file data by extent, an empty record at the end. */
module BackupStream {
  import opened Outcomes
  import opened Bytes
  import opened BackupTree
  import opened BackupExtents
  import opened BackupRecords

  const CHUNK: nat := 1048576

  /** "NODEHARBOR-BACKUP-1" and a line feed. */
  const MAGIC: seq<byte> := [78, 79, 68, 69, 72, 65, 82, 66, 79, 82, 45, 66, 65, 67, 75, 85, 80, 45, 49, 10]

  /** The JSON library: any way of writing records as bytes and reading them back. */
  datatype Codec = Codec(encode: Record -> seq<byte>, decode: seq<byte> -> Option<Record>)

  ghost predicate Faithful(c: Codec) {
    forall r: Record :: c.decode(c.encode(r)) == Some(r) && c.encode(r) != []
  }

  // -------------------------------------------------------------------- writing

  function Encoded(c: Codec, item: Item): seq<byte>
    requires |c.encode(item.record)| <= CHUNK
  {
    Size4(|c.encode(item.record)|) + c.encode(item.record) + item.data
  }

  predicate Fit(c: Codec, items: seq<Item>) {
    forall i :: 0 <= i < |items| ==> |c.encode(items[i].record)| <= CHUNK
  }

  function EncodedAll(c: Codec, items: seq<Item>): seq<byte>
    requires Fit(c, items)
  {
    if items == [] then [] else Encoded(c, items[0]) + EncodedAll(c, items[1..])
  }

  /** A whole stream; metadata that would not fit is refused. */
  function Written(c: Codec, items: seq<Item>): Result<seq<byte>> {
    if Fit(c, items) then Ok(MAGIC + EncodedAll(c, items) + Size4(0)) else Refused
  }

  // -------------------------------------------------------------------- reading

  datatype Reading = Done | Next(item: Item, rest: seq<byte>) | Bad

  predicate Readable(r: Record) {
    r.kind.FileKind? ==> Accepted(r.kind.extents, 0, r.kind.size)
  }

  function DataSize(r: Record): nat {
    if r.kind.FileKind? then Total(r.kind.extents) else 0
  }

  datatype Head = NoMore | Head(record: Record, rest: seq<byte>) | BadHead

  /** One record's header: its size, its metadata and the check of its extents. */
  function ReadHead(c: Codec, b: seq<byte>): (r: Head)
    ensures r.Head? ==> |r.rest| < |b| && Readable(r.record)
  {
    if |b| < 4 then BadHead
    else
      var size := FromSize4(b[..4]);
      if size == 0 then if |b| == 4 then NoMore else BadHead
      else if size > CHUNK || |b| < 4 + size then BadHead
      else
        var record := c.decode(b[4..4 + size]);
        if record.None? || !Readable(record.value) then BadHead else Head(record.value, b[4 + size..])
  }

  function ReadItem(c: Codec, b: seq<byte>): (r: Reading)
    ensures r.Next? ==> |r.rest| < |b| && Readable(r.item.record) && |r.item.data| == DataSize(r.item.record)
  {
    match ReadHead(c, b)
    case NoMore => Done
    case BadHead => Bad
    case Head(record, rest) =>
      if |rest| < DataSize(record) then Bad else Next(Item(record, rest[..DataSize(record)]), rest[DataSize(record)..])
  }

  predicate Streamable(items: seq<Item>) {
    forall i :: 0 <= i < |items| ==> Readable(items[i].record) && |items[i].data| == DataSize(items[i].record)
  }

  function ReadItems(c: Codec, b: seq<byte>): (r: Result<seq<Item>>)
    ensures r.Ok? ==> Streamable(r.value)
    decreases |b|
  {
    match ReadItem(c, b)
    case Done => Ok([])
    case Bad => Refused
    case Next(item, rest) =>
      var others := ReadItems(c, rest);
      if others.Refused? then Refused else Ok([item] + others.value)
  }

  function Parsed(c: Codec, stream: seq<byte>): Result<seq<Item>> {
    if |stream| < |MAGIC| || stream[..|MAGIC|] != MAGIC then Refused else ReadItems(c, stream[|MAGIC|..])
  }

  lemma ReadsBack(c: Codec, item: Item, rest: seq<byte>)
    requires Faithful(c) && |c.encode(item.record)| <= CHUNK && Readable(item.record)
    requires |item.data| == DataSize(item.record)
    ensures ReadItem(c, Encoded(c, item) + rest) == Next(item, rest)
  {
    var e := c.encode(item.record);
    var b := Encoded(c, item) + rest;
    assert c.decode(e) == Some(item.record) && e != [];
    SizeRoundTrip(|e|);
    assert b[..4] == Size4(|e|);
    assert b[4..4 + |e|] == e;
    assert b[4 + |e|..] == item.data + rest;
  }

  lemma EndReadsBack(c: Codec)
    ensures ReadItem(c, Size4(0)) == Done
  {
    SizeRoundTrip(0);
    assert Size4(0)[..4] == Size4(0);
  }

  lemma {:induction false} ReadsAllBack(c: Codec, items: seq<Item>)
    requires Faithful(c) && Fit(c, items) && Streamable(items)
    ensures ReadItems(c, EncodedAll(c, items) + Size4(0)) == Ok(items)
  {
    hide ReadItem, Encoded, Size4, DataSize, Faithful;
    if items == [] {
      assert EncodedAll(c, items) + Size4(0) == Size4(0);
      EndReadsBack(c);
    } else {
      ReadsBack(c, items[0], EncodedAll(c, items[1..]) + Size4(0));
      ReadsAllBack(c, items[1..]);
      assert EncodedAll(c, items) + Size4(0) == Encoded(c, items[0]) + (EncodedAll(c, items[1..]) + Size4(0));
      assert [items[0]] + items[1..] == items;
    }
  }

  /** The reader recovers from the stream exactly the records and data that were written. */
  lemma StreamRoundTrip(c: Codec, items: seq<Item>)
    requires Faithful(c) && Streamable(items) && Written(c, items).Ok?
    ensures Parsed(c, Written(c, items).value) == Ok(items)
  {
    ReadsAllBack(c, items);
    var stream := Written(c, items).value;
    assert stream[..|MAGIC|] == MAGIC;
    assert stream[|MAGIC|..] == EncodedAll(c, items) + Size4(0);
  }
}
