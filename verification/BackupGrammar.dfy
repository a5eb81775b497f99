/** Exactly which bytes are a backup: the magic, its pieces one after the other, and an empty piece at the end. */
module BackupGrammar {
  import opened Outcomes
  import opened Bytes
  import opened BackupTree
  import opened BackupExtents
  import opened BackupRecords
  import opened BackupStream

  /** The metadata of one record, and the file data after it. */
  datatype Piece = Piece(metadata: seq<byte>, data: seq<byte>)

  /** Extents of some bytes each, inside the file, each from the end of the one before it on. */
  ghost predicate InPlace(extents: seq<Extent>, size: nat) {
    && (forall i :: 0 <= i < |extents| ==> 0 < extents[i].length && extents[i].start + extents[i].length <= size)
    && forall i, k :: 0 <= i < k < |extents| ==> extents[i].start + extents[i].length <= extents[k].start
  }

  /** Metadata of up to a mebibyte that decodes, with the data its extents ask for. */
  ghost predicate Tells(c: Codec, p: Piece, item: Item) {
    && 0 < |p.metadata| < 1048577 && c.decode(p.metadata) == Some(item.record) && p.data == item.data
    && match item.record.kind
       case FileKind(size, extents) => InPlace(extents, size) && |p.data| == Total(extents)
       case _ => p.data == []
  }

  function Laid(p: Piece): seq<byte>
    requires |p.metadata| < 1048577
  {
    Size4(|p.metadata|) + p.metadata + p.data
  }

  function LaidAll(pieces: seq<Piece>): seq<byte>
    requires forall i :: 0 <= i < |pieces| ==> |pieces[i].metadata| < 1048577
  {
    if pieces == [] then [0, 0, 0, 0] else Laid(pieces[0]) + LaidAll(pieces[1..])
  }

  ghost predicate TellsAll(c: Codec, pieces: seq<Piece>, items: seq<Item>) {
    |pieces| == |items| && forall i :: 0 <= i < |pieces| ==> Tells(c, pieces[i], items[i])
  }

  ghost predicate Spells(c: Codec, b: seq<byte>, pieces: seq<Piece>, items: seq<Item>) {
    TellsAll(c, pieces, items) && b == MAGIC + LaidAll(pieces)
  }

  lemma {:induction false} AcceptedIs(extents: seq<Extent>, offset: nat, size: nat)
    ensures Accepted(extents, offset, size) <==>
      InPlace(extents, size) && (extents != [] ==> extents[0].start >= offset)
  {
    if extents != [] {
      var rest := extents[1..];
      AcceptedIs(rest, End(extents[0]), size);
      if InPlace(extents, size) {
        assert forall i :: 0 <= i < |rest| ==> rest[i] == extents[i + 1];
      }
      if Accepted(extents, offset, size) {
        forall i, k | 0 <= i < k < |extents|
          ensures extents[i].start + extents[i].length <= extents[k].start
        {
          assert extents[k] == rest[k - 1];
          if i > 0 {
            assert extents[i] == rest[i - 1];
          } else if k > 1 {
            assert rest[0].start + rest[0].length <= rest[k - 1].start;
          }
        }
        forall i | 0 <= i < |extents|
          ensures 0 < extents[i].length && extents[i].start + extents[i].length <= size
        {
          if i > 0 { assert extents[i] == rest[i - 1]; }
        }
      }
    }
  }

  lemma ReadableIs(r: Record)
    ensures Readable(r) <==> match r.kind
      case FileKind(size, extents) => InPlace(extents, size)
      case _ => true
  {
    if r.kind.FileKind? {
      AcceptedIs(r.kind.extents, 0, r.kind.size);
    }
  }

  lemma SizeBack(b: seq<byte>)
    requires |b| == 4
    ensures FromSize4(b) < 0x1_0000_0000 && Size4(FromSize4(b)) == b
  {
    var n := FromSize4(b);
    var x: int, y: int, z: int := b[0], b[1], b[2];
    assert n / 0x100_0000 == x;
    assert n / 0x1_0000 == x * 0x100 + y;
    assert n / 0x100 == x * 0x1_0000 + y * 0x100 + z;
  }

  /** One piece at the front is read as its item. */
  lemma PieceRead(c: Codec, p: Piece, item: Item, rest: seq<byte>)
    requires Tells(c, p, item)
    ensures ReadItem(c, Laid(p) + rest) == Next(item, rest)
  {
    hide InPlace, FromSize4, Size4, Total;
    var b := Laid(p) + rest;
    SizeRoundTrip(|p.metadata|);
    ReadableIs(item.record);
    assert b[..4] == Size4(|p.metadata|);
    assert b[4..4 + |p.metadata|] == p.metadata;
    assert b[4 + |p.metadata|..] == item.data + rest;
  }

  lemma {:induction false} PiecesRead(c: Codec, pieces: seq<Piece>, items: seq<Item>)
    requires TellsAll(c, pieces, items)
    requires forall i :: 0 <= i < |pieces| ==> |pieces[i].metadata| < 1048577
    ensures ReadItems(c, LaidAll(pieces)) == Ok(items)
  {
    hide ReadItem, Tells, Laid;
    if pieces == [] {
      EndRead(c);
    } else {
      PieceRead(c, pieces[0], items[0], LaidAll(pieces[1..]));
      PiecesRead(c, pieces[1..], items[1..]);
      assert [items[0]] + items[1..] == items;
    }
  }

  lemma EndRead(c: Codec)
    ensures ReadItem(c, [0, 0, 0, 0]) == Done
  {
    var b: seq<byte> := [0, 0, 0, 0];
    assert b[..4] == b;
  }

  /** What is read as an item is a piece at the front; what ends is four zeros and nothing after them. */
  lemma ReadPiece(c: Codec, b: seq<byte>) returns (p: Piece)
    ensures ReadItem(c, b).Done? ==> b == [0, 0, 0, 0]
    ensures ReadItem(c, b).Next? ==>
      Tells(c, p, ReadItem(c, b).item) && |p.metadata| < 1048577 && b == Laid(p) + ReadItem(c, b).rest
  {
    hide InPlace, Total;
    p := Piece([], []);
    var r := ReadItem(c, b);
    if |b| >= 4 {
      SizeBack(b[..4]);
      var size := FromSize4(b[..4]);
      if r.Next? {
        ReadableIs(r.item.record);
        p := Piece(b[4..4 + size], r.item.data);
        assert b == b[..4] + b[4..4 + size] + b[4 + size..];
      } else if r.Done? {
        assert b == b[..4] && Size4(0) == [0, 0, 0, 0];
      }
    }
  }

  lemma {:induction false} ReadPieces(c: Codec, b: seq<byte>) returns (pieces: seq<Piece>)
    requires ReadItems(c, b).Ok?
    ensures TellsAll(c, pieces, ReadItems(c, b).value)
    ensures (forall i :: 0 <= i < |pieces| ==> |pieces[i].metadata| < 1048577) && b == LaidAll(pieces)
    decreases |b|
  {
    hide ReadItem, Tells, Laid;
    var r := ReadItem(c, b);
    var first := ReadPiece(c, b);
    pieces := [];
    if r.Next? {
      var rest := ReadPieces(c, r.rest);
      pieces := [first] + rest;
      assert pieces[1..] == rest;
    }
  }

  /** A stream that is spelled so is read, as nothing but these items. */
  lemma SpelledRead(c: Codec, b: seq<byte>, pieces: seq<Piece>, items: seq<Item>)
    requires Spells(c, b, pieces, items)
    ensures Parsed(c, b) == Ok(items)
  {
    hide ReadItems, Tells;
    AllShort(c, pieces, items);
    PiecesRead(c, pieces, items);
    assert b[..|MAGIC|] == MAGIC && b[|MAGIC|..] == LaidAll(pieces);
  }

  lemma AllShort(c: Codec, pieces: seq<Piece>, items: seq<Item>)
    requires TellsAll(c, pieces, items)
    ensures forall i :: 0 <= i < |pieces| ==> |pieces[i].metadata| < 1048577
  {
  }

  /** And every stream that is read is spelled so: all others are refused. */
  lemma ReadSpelled(c: Codec, b: seq<byte>) returns (pieces: seq<Piece>)
    requires Parsed(c, b).Ok?
    ensures Spells(c, b, pieces, Parsed(c, b).value)
  {
    hide ReadItems, Tells;
    pieces := ReadPieces(c, b[|MAGIC|..]);
    assert b == b[..|MAGIC|] + b[|MAGIC|..];
  }
}
