/** Both ends of the packet stream over whole runs: what was accepted arrives, in order and unchanged. */
module PacketRuns {
  import opened Bytes
  import opened PacketFrames
  import opened PacketLoop

  /**
   The ring from where it is read next, the bytes already on the socket, the packets that were not
   dropped, and whether a flush has failed.
   */
  datatype Wire = Wire(at: nat, queue: seq<byte>, sent: seq<byte>, accepted: seq<seq<byte>>, failed: bool)

  /** What the packet loop is asked to do: send a packet, or flush against the socket's answers. */
  datatype Call = Send(packet: seq<byte>) | Flush(answers: seq<Answer>)

  predicate Fits(packet: seq<byte>, queue: seq<byte>) {
    |packet| <= LARGEST && |packet| + 4 + |queue| <= OUTPUT_CAPACITY
  }

  function Next(w: Wire, c: Call): Wire
    requires w.at < OUTPUT_CAPACITY
  {
    match c
    case Send(packet) =>
      if Fits(packet, w.queue) then w.(queue := w.queue + Frame(packet), accepted := w.accepted + [packet]) else w
    case Flush(answers) =>
      var r := Flushing(w.at, |w.queue|, answers);
      Wire(Onward(w.at, r.count), w.queue[r.count..], w.sent + w.queue[..r.count], w.accepted, w.failed || r.failed)
  }

  function Run(at: nat, calls: seq<Call>): (w: Wire)
    requires at < OUTPUT_CAPACITY
    ensures w.at < OUTPUT_CAPACITY
  {
    if calls == [] then Wire(at, [], [], [], false) else Next(Run(at, calls[..|calls| - 1]), calls[|calls| - 1])
  }

  ghost predicate Whole(w: Wire) {
    AllSendable(w.accepted) && w.sent + w.queue == Frames(w.accepted) && |w.queue| <= OUTPUT_CAPACITY
  }

  /** Sent and buffered bytes together are always the frames of the accepted packets: drops take whole packets. */
  lemma {:induction false} RunWhole(at: nat, calls: seq<Call>)
    requires at < OUTPUT_CAPACITY
    ensures Whole(Run(at, calls))
  {
    hide Flushing, Onward;
    if calls != [] {
      RunWhole(at, calls[..|calls| - 1]);
      var w := Run(at, calls[..|calls| - 1]);
      match calls[|calls| - 1]
      case Send(packet) =>
        if Fits(packet, w.queue) {
          FramesJoin(w.accepted, packet);
          assert w.sent + (w.queue + Frame(packet)) == w.sent + w.queue + Frame(packet);
        }
      case Flush(answers) =>
        var n := Flushing(w.at, |w.queue|, answers).count;
        assert w.sent + w.queue[..n] + w.queue[n..] == w.sent + w.queue;
    }
  }

  /** A reader that has only part of the frames has some of the packets, and has seen no bad length. */
  lemma {:induction false} PrefixDecodes(packets: seq<seq<byte>>, a: seq<byte>, b: seq<byte>)
    requires AllReadable(packets) && a + b == Frames(packets)
    ensures !Decode(a).broken && Decode(a).packets <= packets
  {
    if packets != [] {
      var packet := packets[0];
      SizeRoundTrip(|packet|);
      if |a| >= 4 {
        assert a[..4] == (a + b)[..4] == Size4(|packet|);
        if |a| >= 4 + |packet| {
          var n := 4 + |packet|;
          assert a[4..n] == (a + b)[4..n] == packet;
          assert a[n..] + b == (a + b)[n..] == Frames(packets[1..]);
          PrefixDecodes(packets[1..], a[n..], b);
        }
      }
    }
  }

  /** Whatever has reached the socket decodes to the first accepted packets, and an empty ring to all of them. */
  lemma Delivered(at: nat, calls: seq<Call>)
    requires at < OUTPUT_CAPACITY && AllReadable(Run(at, calls).accepted)
    ensures
      var w := Run(at, calls);
      && !Decode(w.sent).broken && Decode(w.sent).packets <= w.accepted
      && (w.queue == [] ==> Decode(w.sent) == Decoded(w.accepted, [], false))
  {
    RunWhole(at, calls);
    var w := Run(at, calls);
    PrefixDecodes(w.accepted, w.sent, w.queue);
    if w.queue == [] {
      assert w.sent + w.queue == w.sent;
      FramingRoundTrip(w.accepted);
    }
  }

  /** One flush against a socket that takes enough delivers every packet accepted so far. */
  lemma FlushDelivers(at: nat, calls: seq<Call>, answers: seq<Answer>)
    requires at < OUTPUT_CAPACITY && AllReadable(Run(at, calls).accepted)
    requires Willing(answers) && Moves(answers) >= |Run(at, calls).queue|
    ensures
      var w := Run(at, calls + [Flush(answers)]);
      && w.queue == [] && w.accepted == Run(at, calls).accepted && w.failed == Run(at, calls).failed
      && Decode(w.sent) == Decoded(w.accepted, [], false)
  {
    hide Decode, Flushing, Onward, Moves, Willing;
    var w := Run(at, calls);
    assert (calls + [Flush(answers)])[..|calls|] == calls;
    WillingEmpties(w.at, |w.queue|, answers);
    Delivered(at, calls + [Flush(answers)]);
  }

  // ----------------------------------------------------------- the loop itself

  /** The ring driven by any calls behaves as the wire does: what it has sent and still buffers is the wire's. */
  method Drive(loop: Loop, calls: seq<Call>) returns (sent: seq<byte>, ghost w: Wire)
    requires loop.Valid() && loop.Buffered() == []
    modifies loop, loop.output
    ensures loop.Valid() && w == Run(old(loop.outputRead), calls)
    ensures sent == w.sent && loop.Buffered() == w.queue && loop.outputRead == w.at
    ensures loop.stop == (old(loop.stop) || w.failed)
    ensures AllReadable(w.accepted) ==> !Decode(sent).broken && Decode(sent).packets <= w.accepted
  {
    hide Decode, Flushing, Onward;
    ghost var at := loop.outputRead;
    sent, w := [], Run(at, []);
    assert calls[..0] == [];
    for i := 0 to |calls|
      invariant loop.Valid() && w == Run(at, calls[..i])
      invariant sent == w.sent && loop.Buffered() == w.queue && loop.outputRead == w.at
      invariant loop.stop == (old(loop.stop) || w.failed)
    {
      assert calls[..i + 1][..i] == calls[..i] && calls[..i + 1][i] == calls[i];
      ghost var before := loop.Buffered();
      match calls[i] {
        case Send(packet) =>
          var result := loop.SendPacket(packet);
          assert before + [] == before;
        case Flush(answers) =>
          var more := loop.FlushOutput(answers);
          assert before[..|more|] == more && before[|more|..] == loop.Buffered();
          sent := sent + more;
      }
      w := Next(w, calls[i]);
    }
    assert calls[..|calls|] == calls;
    if AllReadable(w.accepted) {
      Delivered(at, calls);
    }
  }

  // ------------------------------------------------------------- fragmentation

  function Joined(chunks: seq<seq<byte>>): seq<byte> {
    if chunks == [] then [] else Joined(chunks[..|chunks| - 1]) + chunks[|chunks| - 1]
  }

  /** A stream decoded piece by piece, keeping only the unfinished frame between pieces. */
  function DecodePieces(chunks: seq<seq<byte>>): Decoded {
    if chunks == [] then Decoded([], [], false)
    else
      var before := DecodePieces(chunks[..|chunks| - 1]);
      if before.broken then before
      else
        var now := Decode(before.rest + chunks[|chunks| - 1]);
        now.(packets := before.packets + now.packets)
  }

  lemma {:induction false} BrokenStays(a: seq<byte>, b: seq<byte>)
    requires Decode(a).broken
    ensures Decode(a + b).broken && Decode(a + b).packets == Decode(a).packets
    decreases |a|
  {
    hide FromSize4;
    assert (a + b)[..4] == a[..4];
    var length := FromSize4(a[..4]);
    if SMALLEST <= length <= LARGEST {
      WholeFirst(a, b);
      BrokenStays(a[4 + length..], b);
    }
  }

  /** However the stream is cut, the same packets come out in the same order. */
  lemma {:induction false} AnyPieces(chunks: seq<seq<byte>>)
    ensures DecodePieces(chunks).packets == Decode(Joined(chunks)).packets
    ensures DecodePieces(chunks).broken == Decode(Joined(chunks)).broken
    ensures !DecodePieces(chunks).broken ==> DecodePieces(chunks).rest == Decode(Joined(chunks)).rest
  {
    hide Decode;
    if chunks == [] {
      EmptyDecodes();
    } else {
      var before := chunks[..|chunks| - 1];
      AnyPieces(before);
      if DecodePieces(before).broken {
        BrokenStays(Joined(before), chunks[|chunks| - 1]);
      } else {
        DecodeGoesOn(Joined(before), chunks[|chunks| - 1]);
      }
    }
  }

  lemma EmptyDecodes()
    ensures Decode([]) == Decoded([], [], false)
  {
  }
}
