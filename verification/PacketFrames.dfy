/** Ethernet packets over a byte stream: a four-byte big-endian length, then the packet. */
module PacketFrames {
  import opened Bytes

  const SMALLEST: nat := 14
  const LARGEST: nat := 65536

  function Frame(packet: seq<byte>): seq<byte>
    requires |packet| <= LARGEST
  {
    Size4(|packet|) + packet
  }

  predicate AllSendable(packets: seq<seq<byte>>) {
    forall i :: 0 <= i < |packets| ==> |packets[i]| <= LARGEST
  }

  /** What the reader accepts. */
  predicate AllReadable(packets: seq<seq<byte>>) {
    forall i :: 0 <= i < |packets| ==> SMALLEST <= |packets[i]| <= LARGEST
  }

  function Frames(packets: seq<seq<byte>>): seq<byte>
    requires AllSendable(packets)
  {
    if packets == [] then [] else Frame(packets[0]) + Frames(packets[1..])
  }

  /** A stream read from its start: whole packets, then either an unfinished frame or a length out of range. */
  datatype Decoded = Decoded(packets: seq<seq<byte>>, rest: seq<byte>, broken: bool)

  function Decode(b: seq<byte>): Decoded
    decreases |b|
  {
    if |b| < 4 then Decoded([], b, false)
    else
      var length := FromSize4(b[..4]);
      if length < SMALLEST || length > LARGEST then Decoded([], b, true)
      else if |b| < 4 + length then Decoded([], b, false)
      else
        var later := Decode(b[4 + length..]);
        later.(packets := [b[4..4 + length]] + later.packets)
  }

  lemma FrameDecodes(packet: seq<byte>, rest: seq<byte>)
    requires SMALLEST <= |packet| <= LARGEST
    ensures Decode(Frame(packet) + rest) == Decode(rest).(packets := [packet] + Decode(rest).packets)
  {
    hide FromSize4, Size4;
    var b := Frame(packet) + rest;
    SizeRoundTrip(|packet|);
    assert b[..4] == Size4(|packet|);
    assert b[4..4 + |packet|] == packet;
    assert b[4 + |packet|..] == rest;
  }

  lemma {:induction false} FramesDecode(packets: seq<seq<byte>>, rest: seq<byte>)
    requires AllReadable(packets)
    ensures Decode(Frames(packets) + rest) == Decode(rest).(packets := packets + Decode(rest).packets)
  {
    hide Decode, Frame;
    if packets == [] {
      assert Frames(packets) + rest == rest;
    } else {
      FramesDecode(packets[1..], rest);
      FrameDecodes(packets[0], Frames(packets[1..]) + rest);
      assert Frames(packets) + rest == Frame(packets[0]) + (Frames(packets[1..]) + rest);
      assert packets == [packets[0]] + packets[1..];
    }
  }

  /** What was framed is what is read, and nothing is left over. */
  lemma FramingRoundTrip(packets: seq<seq<byte>>)
    requires AllReadable(packets)
    ensures Decode(Frames(packets)) == Decoded(packets, [], false)
  {
    FramesDecode(packets, []);
    assert Frames(packets) + [] == Frames(packets);
    assert packets + [] == packets;
  }

  /** Decoding may stop anywhere and go on with what was left. */
  lemma {:induction false} DecodeGoesOn(a: seq<byte>, b: seq<byte>)
    requires !Decode(a).broken
    ensures Decode(a + b) ==
      Decode(Decode(a).rest + b).(packets := Decode(a).packets + Decode(Decode(a).rest + b).packets)
    decreases |a|
  {
    hide FromSize4;
    if |a| >= 4 && |a| >= 4 + FromSize4(a[..4]) {
      WholeFirst(a, b);
      DecodeGoesOn(a[4 + FromSize4(a[..4])..], b);
    }
  }

  /** Bytes that follow a whole first frame do not change it. */
  lemma WholeFirst(a: seq<byte>, b: seq<byte>)
    requires |a| >= 4 && |a| >= 4 + FromSize4(a[..4]) && SMALLEST <= FromSize4(a[..4]) <= LARGEST
    ensures
      var n := 4 + FromSize4(a[..4]);
      && Decode(a) == Decode(a[n..]).(packets := [a[4..n]] + Decode(a[n..]).packets)
      && Decode(a + b) == Decode(a[n..] + b).(packets := [a[4..n]] + Decode(a[n..] + b).packets)
  {
    hide FromSize4;
    var n := 4 + FromSize4(a[..4]);
    assert (a + b)[..4] == a[..4];
    assert (a + b)[4..n] == a[4..n];
    assert (a + b)[n..] == a[n..] + b;
  }

  lemma {:induction false} FramesJoin(packets: seq<seq<byte>>, packet: seq<byte>)
    requires AllSendable(packets) && |packet| <= LARGEST
    ensures Frames(packets + [packet]) == Frames(packets) + Frame(packet)
  {
    if packets == [] {
      assert (packets + [packet])[1..] == [];
    } else {
      assert (packets + [packet])[1..] == packets[1..] + [packet];
      FramesJoin(packets[1..], packet);
    }
  }
}
