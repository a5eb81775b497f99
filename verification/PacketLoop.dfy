/**
 The packet loop's two buffers: frames out through a ring, frames in through a fixed array.
 Source: android/runtime/network/packet_loop.c.
 */
module PacketLoop {
  import opened Bytes
  import opened PacketFrames

  const OUTPUT_CAPACITY: nat := 1048576
  const INPUT_CAPACITY: nat := 65540

  /** One answer of send or recv; `Moved` is a byte count, and zero or a failure ends the loop. */
  datatype Answer = Interrupted | WouldBlock | Moved(count: nat) | Failed

  /** The bytes of the ring from `start` on, around its end. */
  function Around(ring: seq<byte>, start: nat, size: nat): (r: seq<byte>)
    requires |ring| > 0
    ensures |r| == size
  {
    seq(size, i requires 0 <= i < size => ring[(start + i) % |ring|])
  }

  lemma Wrapped(x: nat, capacity: nat)
    requires capacity > 0 && x < 2 * capacity
    ensures x % capacity == if x < capacity then x else x - capacity
  {
    if x >= capacity {
      assert x % capacity == (x - capacity) % capacity by { WrapOnce(x, capacity); }
    }
  }

  lemma WrapOnce(x: nat, capacity: nat)
    requires capacity > 0 && x >= capacity
    ensures x % capacity == (x - capacity) % capacity
  {
    var q := (x - capacity) / capacity;
    assert x == (q + 1) * capacity + (x - capacity) % capacity;
    Remainder(x, q + 1, (x - capacity) % capacity, capacity);
  }

  lemma Multiple(d: int, m: int)
    requires m > 0
    ensures (d >= 1 ==> d * m >= m) && (d <= -1 ==> d * m <= -m)
  {
  }

  lemma Remainder(x: nat, q: nat, r: nat, m: nat)
    requires m > 0 && r < m && x == q * m + r
    ensures x % m == r
  {
    var d := x / m - q;
    assert x == (x / m) * m + x % m;
    assert d * m == r - x % m;
    Multiple(d, m);
  }

  // ------------------------------------------------------------------- flushing

  /** Where the ring goes on after `gone` bytes. */
  function Onward(at: nat, gone: nat): (r: nat)
    ensures r < OUTPUT_CAPACITY
  {
    (at + gone) % OUTPUT_CAPACITY
  }

  /** How many bytes a flush sends before it returns, and whether the socket failed it. */
  datatype Flushed = Flushed(count: nat, failed: bool)

  function Least(a: nat, b: nat): nat { if a < b then a else b }

  /** The bytes that lie side by side from the oldest on. */
  function SideBySide(at: nat, size: nat): nat
    requires at < OUTPUT_CAPACITY
  {
    Least(size, OUTPUT_CAPACITY - at)
  }

  /** A flush of `size` bytes that begin at `at`, against the socket's answers. */
  function Flushing(at: nat, size: nat, answers: seq<Answer>): (r: Flushed)
    requires at < OUTPUT_CAPACITY
    ensures r.count <= size
    decreases |answers|
  {
    if size == 0 || answers == [] then Flushed(0, false)
    else
      match answers[0]
      case Interrupted => Flushing(at, size, answers[1..])
      case WouldBlock => Flushed(0, false)
      case Failed => Flushed(0, true)
      case Moved(n) =>
        if n == 0 then Flushed(0, true)
        else
          var moved := Least(n, SideBySide(at, size));
          var rest := Flushing(Onward(at, moved), size - moved, answers[1..]);
          rest.(count := moved + rest.count)
  }

  /** One answer that does not end a flush: how many bytes are gone before it, and how many after. */
  ghost predicate Passes(at: nat, size: nat, answer: Answer, before: nat, after: nat) {
    && before < size
    && (answer.Interrupted? || (answer.Moved? && answer.count > 0))
    && (answer.Interrupted? ==> after == before)
    && (answer.Moved? ==>
         && after - before <= answer.count
         && (at + before) % OUTPUT_CAPACITY + (after - before) <= OUTPUT_CAPACITY
         && (after - before == answer.count || after == size ||
             (at + before) % OUTPUT_CAPACITY + (after - before) == OUTPUT_CAPACITY))
    && before <= after <= size
  }

  /**
   The whole of a flush: `gone[i]` bytes have left before the answer i. It goes on while bytes wait and
   answers come, and stops the loop exactly on a failure or a zero answer.
   */
  ghost predicate FlushTrace(at: nat, size: nat, answers: seq<Answer>, gone: seq<nat>, r: Flushed) {
    && 0 < |gone| <= |answers| + 1 && gone[0] == 0
    && (forall i :: 0 <= i < |gone| - 1 ==> Passes(at, size, answers[i], gone[i], gone[i + 1]))
    && r.count == gone[|gone| - 1]
    && if r.count == size || |gone| == |answers| + 1 then !r.failed
       else
         var last := answers[|gone| - 1];
         if r.failed then last.Failed? || last == Moved(0) else last.WouldBlock?
  }

  lemma FirstPasses(at: nat, size: nat, answer: Answer, moved: nat)
    requires at < OUTPUT_CAPACITY && 0 < size
    requires if answer.Interrupted? then moved == 0
      else answer.Moved? && answer.count > 0 && moved == Least(answer.count, SideBySide(at, size))
    ensures Passes(at, size, answer, 0, moved)
  {
    assert at % OUTPUT_CAPACITY == at;
  }

  lemma LaterPasses(at: nat, moved: nat, size: nat, answer: Answer, before: nat, after: nat)
    requires at < OUTPUT_CAPACITY && moved <= size
    requires Passes(Onward(at, moved), size - moved, answer, before, after)
    ensures Passes(at, size, answer, moved + before, moved + after)
  {
    assert ((at + moved) % OUTPUT_CAPACITY + before) % OUTPUT_CAPACITY == (at + (moved + before)) % OUTPUT_CAPACITY;
  }

  /** What one answer that moves something makes of a flush. */
  lemma FlushMoves(start: nat, gone: nat, at: nat, size: nat, answers: seq<Answer>, moved: nat)
    requires start < OUTPUT_CAPACITY && at == Onward(start, gone) && 0 < size && answers != []
    requires answers[0].Moved? && answers[0].count > 0 && moved == Least(answers[0].count, SideBySide(at, size))
    ensures Onward(start, gone + moved) == Onward(at, moved)
    ensures moved <= size
    ensures Flushing(at, size, answers) ==
      var rest := Flushing(Onward(at, moved), size - moved, answers[1..]);
      rest.(count := moved + rest.count)
  {
  }

  lemma FlushEnds(at: nat, size: nat, answers: seq<Answer>)
    requires at < OUTPUT_CAPACITY
    ensures size == 0 || answers == [] ==> Flushing(at, size, answers) == Flushed(0, false)
    ensures size > 0 && answers != [] ==>
      && (answers[0].Interrupted? ==> Flushing(at, size, answers) == Flushing(at, size, answers[1..]))
      && (answers[0].WouldBlock? ==> Flushing(at, size, answers) == Flushed(0, false))
      && (answers[0].Failed? || answers[0] == Moved(0) ==> Flushing(at, size, answers) == Flushed(0, true))
  {
  }

  lemma Regrouped(a: seq<byte>, b: seq<byte>, c: seq<byte>)
    ensures a + (b + c) == a + b + c
  {
  }

  lemma Still(at: nat)
    requires at < OUTPUT_CAPACITY
    ensures Onward(at, 0) == at
  {
  }

  lemma SideIs(at: nat, size: nat)
    requires at < OUTPUT_CAPACITY
    ensures SideBySide(at, size) == if size < OUTPUT_CAPACITY - at then size else OUTPUT_CAPACITY - at
  {
  }

  lemma SideBounds(at: nat, size: nat)
    requires at < OUTPUT_CAPACITY
    ensures SideBySide(at, size) <= size && (size > 0 ==> SideBySide(at, size) > 0)
  {
  }

  /** How a flush goes on after an answer that does not end it. */
  lemma FlushNext(at: nat, size: nat, answers: seq<Answer>) returns (moved: nat)
    requires at < OUTPUT_CAPACITY && 0 < size && answers != []
    requires answers[0].Interrupted? || (answers[0].Moved? && answers[0].count > 0)
    ensures moved <= size && Passes(at, size, answers[0], 0, moved)
    ensures Flushing(at, size, answers) ==
      var rest := Flushing(Onward(at, moved), size - moved, answers[1..]);
      rest.(count := moved + rest.count)
  {
    hide Flushing;
    moved := if answers[0].Interrupted? then 0 else Least(answers[0].count, SideBySide(at, size));
    FirstPasses(at, size, answers[0], moved);
    if answers[0].Interrupted? {
      Still(at);
      FlushEnds(at, size, answers);
    } else {
      Still(at);
      FlushMoves(at, 0, at, size, answers, moved);
    }
  }

  lemma {:induction false} FlushIs(at: nat, size: nat, answers: seq<Answer>) returns (gone: seq<nat>)
    requires at < OUTPUT_CAPACITY
    ensures FlushTrace(at, size, answers, gone, Flushing(at, size, answers))
    decreases |answers|
  {
    hide Passes, Flushing, Onward;
    gone := [0];
    if size > 0 && answers != [] && (answers[0].Interrupted? || (answers[0].Moved? && answers[0].count > 0)) {
      var moved := FlushNext(at, size, answers);
      var rest := FlushIs(Onward(at, moved), size - moved, answers[1..]);
      gone := [0] + seq(|rest|, i requires 0 <= i < |rest| => moved + rest[i]);
      forall i | 0 <= i < |gone| - 1
        ensures Passes(at, size, answers[i], gone[i], gone[i + 1])
      {
        if i > 0 {
          LaterPasses(at, moved, size, answers[1..][i - 1], rest[i - 1], rest[i]);
        }
      }
    } else {
      FlushEnds(at, size, answers);
    }
  }

  function Moves(answers: seq<Answer>): nat {
    if answers == [] then 0 else (if answers[0].Moved? then 1 else 0) + Moves(answers[1..])
  }

  /** Answers that take something each time. */
  predicate Willing(answers: seq<Answer>) {
    forall a <- answers :: a.Interrupted? || (a.Moved? && a.count > 0)
  }

  /** A socket that keeps taking bytes empties the ring. */
  lemma {:induction false} WillingEmpties(at: nat, size: nat, answers: seq<Answer>)
    requires at < OUTPUT_CAPACITY && Willing(answers)
    ensures !Flushing(at, size, answers).failed && Flushing(at, size, answers).count >= Least(size, Moves(answers))
    decreases |answers|
  {
    hide SideBySide;
    if size > 0 && answers != [] {
      assert answers[0] in answers && forall a <- answers[1..] :: a in answers;
      SideBounds(at, size);
      var moved := if answers[0].Interrupted? then 0 else Least(answers[0].count, SideBySide(at, size));
      assert at % OUTPUT_CAPACITY == at;
      WillingEmpties(Onward(at, moved), size - moved, answers[1..]);
    }
  }

  // ------------------------------------------------------------------- reading

  /** How many bytes the current length or packet still lacks. */
  function Missing(rest: seq<byte>): int {
    (if |rest| < 4 then 4 else FromSize4(rest[..4]) + 4) - |rest|
  }

  /** One turn that does not end the reading: x bytes were taken before it, and y after. */
  ghost predicate Turn(start: seq<byte>, stream: seq<byte>, answer: Answer, x: nat, y: nat) {
    && x <= y <= |stream|
    && !Decode(start + stream[..x]).broken
    && (answer.Interrupted? || (answer.Moved? && answer.count > 0 && x < |stream|))
    && (answer.Interrupted? ==> y == x)
    && (answer.Moved? ==>
         && x < y <= x + answer.count && y <= x + Missing(Decode(start + stream[..x]).rest)
         && (y == x + answer.count || y == x + Missing(Decode(start + stream[..x]).rest) || y == |stream|))
  }

  /**
   The whole of one reading: at most sixty-four turns, each for the current length or packet. It ends
   where nothing more comes, and stops the loop exactly on a bad length, a failure or a closed socket.
   */
  ghost predicate ReadTrace(start: seq<byte>, stream: seq<byte>, answers: seq<Answer>, taken: seq<nat>, failed: bool) {
    && 0 < |taken| <= |answers| + 1 && |taken| <= 65 && taken[0] == 0
    && (forall i :: 0 <= i < |taken| - 1 ==> Turn(start, stream, answers[i], taken[i], taken[i + 1]))
    && var turns, last := |taken| - 1, taken[|taken| - 1];
    && last <= |stream|
    && if Decode(start + stream[..last]).broken then failed
       else if turns == 64 || turns == |answers| then !failed
       else if failed then answers[turns].Failed? || answers[turns] == Moved(0)
       else answers[turns].WouldBlock? || (answers[turns].Moved? && answers[turns].count > 0 && last == |stream|)
  }

  class Loop {
    const output: array<byte>
    var outputRead: nat
    var outputSize: nat
    const input: array<byte>
    var received: nat
    var expected: nat
    var stop: bool

    ghost predicate Valid()
      reads this, output, input
    {
      && output.Length == OUTPUT_CAPACITY && input.Length == INPUT_CAPACITY && output != input
      && outputRead < OUTPUT_CAPACITY && outputSize <= OUTPUT_CAPACITY
      && received < INPUT_CAPACITY
      && (expected == 0 ==> received < 4)
      && (expected != 0 ==>
        4 <= received < expected <= INPUT_CAPACITY && expected >= SMALLEST + 4 && FromSize4(input[..4]) == expected - 4)
    }

    /** The bytes waiting in the ring, oldest first. */
    ghost function Buffered(): seq<byte>
      reads this, output
      requires output.Length > 0
    {
      Around(output[..], outputRead, outputSize)
    }

    /** The bytes of an unfinished frame. */
    ghost function Partial(): seq<byte>
      reads this, input
      requires received <= input.Length
    {
      input[..received]
    }

    constructor ()
      ensures Valid() && Buffered() == [] && Partial() == [] && !stop
      ensures fresh(output) && fresh(input)
    {
      output := new byte[OUTPUT_CAPACITY](_ => 0);
      input := new byte[INPUT_CAPACITY](_ => 0);
      outputRead, outputSize, received, expected, stop := 0, 0, 0, 0, false;
    }

    /** memcpy into the ring: up to its end, then from its start. */
    method Enqueue(data: seq<byte>)
      requires Valid() && outputSize + |data| <= OUTPUT_CAPACITY
      modifies this`outputSize, output
      ensures Valid() && Buffered() == old(Buffered()) + data
    {
      hide Around;
      ghost var before := output[..];
      var writeAt := (outputRead + outputSize) % OUTPUT_CAPACITY;
      var first := if |data| < OUTPUT_CAPACITY - writeAt then |data| else OUTPUT_CAPACITY - writeAt;
      forall i | 0 <= i < first { output[writeAt + i] := data[i]; }
      forall i | 0 <= i < |data| - first { output[i] := data[first + i]; }
      Appended(before, output[..], outputRead, outputSize, data);
      outputSize := outputSize + |data|;
    }

    /** A packet is buffered whole or, when the ring is too full, dropped whole. */
    method SendPacket(packet: seq<byte>) returns (result: int)
      requires Valid()
      modifies this`outputSize, output
      ensures Valid()
      ensures result == if |packet| > LARGEST then -1 else |packet|
      ensures Buffered() == old(Buffered()) +
        if |packet| <= LARGEST && |packet| + 4 <= OUTPUT_CAPACITY - |old(Buffered())| then Frame(packet) else []
    {
      if |packet| > LARGEST { return -1; }
      if |packet| + 4 > OUTPUT_CAPACITY - outputSize { return |packet|; }
      Enqueue(Size4(|packet|));
      Enqueue(packet);
      result := |packet|;
    }

    /** Bytes leave the ring in order, as many at a time as the socket takes. */
    method FlushOutput(answers: seq<Answer>) returns (sent: seq<byte>)
      requires Valid()
      modifies this`outputRead, this`outputSize, this`stop
      ensures Valid() && sent + Buffered() == old(Buffered())
      ensures |sent| == Flushing(old(outputRead), old(outputSize), answers).count
      ensures outputRead == Onward(old(outputRead), |sent|)
      ensures stop == (old(stop) || Flushing(old(outputRead), old(outputSize), answers).failed)
    {
      hide Around, Flushing, FromSize4, SideBySide, Onward;
      sent := [];
      var next := 0;
      ghost var start := outputRead;
      ghost var was, all := Buffered(), Flushing(outputRead, outputSize, answers);
      assert answers[next..] == answers && outputRead == Onward(start, 0) by { Still(start); }
      while outputSize > 0
        invariant Valid() && next <= |answers| && sent + Buffered() == was && stop == old(stop)
        invariant outputRead == Onward(start, |sent|)
        invariant
          var rest := Flushing(outputRead, outputSize, answers[next..]);
          all == rest.(count := |sent| + rest.count)
        decreases |answers| - next
      {
        var count := if outputSize < OUTPUT_CAPACITY - outputRead then outputSize else OUTPUT_CAPACITY - outputRead;
        FlushEnds(outputRead, outputSize, answers[next..]);
        if next == |answers| { return; }
        var answer := answers[next];
        assert answers[next..][1..] == answers[next + 1..];
        next := next + 1;
        if answer.Interrupted? { continue; }
        if answer.WouldBlock? { return; }
        if answer.Failed? || answer.count == 0 { stop := true; return; }
        var moved := if answer.count < count then answer.count else count;
        assert count == SideBySide(outputRead, outputSize) by { SideIs(outputRead, outputSize); }
        FlushMoves(start, |sent|, outputRead, outputSize, answers[next - 1..], moved);
        var gone := Take(moved);
        Regrouped(sent, gone, Buffered());
        sent := sent + gone;
      }
      FlushEnds(outputRead, outputSize, answers[next..]);
    }

    /** The oldest bytes, which lie side by side, leave the ring. */
    method Take(moved: nat) returns (gone: seq<byte>)
      requires Valid() && 0 < moved <= outputSize && outputRead + moved <= OUTPUT_CAPACITY
      modifies this`outputRead, this`outputSize
      ensures Valid() && gone + Buffered() == old(Buffered()) && |gone| == moved
      ensures outputSize == old(outputSize) - moved && outputRead == Onward(old(outputRead), moved)
    {
      hide Around;
      gone := output[outputRead..outputRead + moved];
      Advanced(output[..], outputRead, outputSize - moved, moved);
      assert output[..][outputRead..outputRead + moved] == gone;
      outputRead := (outputRead + moved) % OUTPUT_CAPACITY;
      outputSize := outputSize - moved;
    }

    /** Up to sixty-four reads: each takes what the socket has of the current length or packet. */
    method ReadPackets(stream: seq<byte>, answers: seq<Answer>)
      returns (packets: seq<seq<byte>>, taken: nat, ghost turns: seq<nat>)
      requires Valid() && !stop
      modifies this`received, this`expected, this`stop, input
      ensures ReadTrace(old(Partial()), stream, answers, turns, stop) && taken == turns[|turns| - 1]
      ensures !stop ==> Valid()
      ensures !stop ==> Decode(old(Partial()) + stream[..taken]) == Decoded(packets, Partial(), false)
      ensures Decode(old(Partial()) + stream[..taken]).packets == packets
    {
      hide Decode, FromSize4;
      ghost var start := Partial();
      packets, taken, turns := [], 0, [0];
      PartialDecodes();
      assert start + stream[..0] == start;
      for packetCount := 0 to 64
        invariant Valid() && !stop && taken <= |stream| && packetCount <= |answers|
        invariant |turns| == packetCount + 1 && turns[0] == 0 && turns[packetCount] == taken
        invariant forall i :: 0 <= i < packetCount ==> Turn(start, stream, answers[i], turns[i], turns[i + 1])
        invariant Decode(start + stream[..taken]) == Decoded(packets, Partial(), false)
      {
        var wanted := if expected != 0 then expected else 4;
        if packetCount == |answers| { return; }
        var answer := answers[packetCount];
        if answer.Interrupted? {
          turns := turns + [taken];
          continue;
        }
        if answer.WouldBlock? || (answer.Moved? && answer.count > 0 && taken == |stream|) { return; }
        if answer.Failed? || answer.count == 0 { stop := true; return; }
        var room := wanted - received;
        assert room == Missing(Partial()) by { assert expected != 0 ==> Partial()[..4] == input[..4]; }
        var count := if answer.count < room then answer.count else room;
        if count > |stream| - taken { count := |stream| - taken; }
        ghost var chunk := stream[taken..taken + count];
        DecodeGoesOn(start + stream[..taken], chunk);
        assert start + stream[..taken + count] == start + stream[..taken] + chunk;
        var packet := Receive(stream[taken..taken + count]);
        assert Turn(start, stream, answer, taken, taken + count);
        taken := taken + count;
        packets := packets + packet;
        turns := turns + [taken];
        if stop { return; }
      }
    }

    /** An unfinished frame holds no packet and no bad length. */
    lemma PartialDecodes()
      requires Valid()
      ensures Decode(Partial()) == Decoded([], Partial(), false)
    {
      if expected != 0 {
        assert Partial()[..4] == input[..4];
      }
    }

    /** Bytes appended to the frame being read; a finished length or packet is acted on at once. */
    method Receive(chunk: seq<byte>) returns (packets: seq<seq<byte>>)
      requires Valid() && !stop && |chunk| > 0
      requires received + |chunk| <= if expected != 0 then expected else 4
      modifies this`received, this`expected, this`stop, input
      ensures !stop ==> Valid() && Decode(old(Partial()) + chunk) == Decoded(packets, Partial(), false)
      ensures stop ==> packets == [] && Decode(old(Partial()) + chunk).packets == []
      ensures stop ==> Decode(old(Partial()) + chunk).broken
    {
      packets := [];
      ghost var b := Partial() + chunk;
      forall i | 0 <= i < |chunk| { input[received + i] := chunk[i]; }
      received := received + |chunk|;
      assert input[..received] == b;
      if expected == 0 && received == 4 {
        var length := FromSize4(input[..4]);
        assert b[..4] == input[..4];
        if length < SMALLEST || length > LARGEST { stop := true; return; }
        expected := length + 4;
      }
      if expected != 0 {
        assert b[..4] == input[..4];
        if received == expected {
          packets := [input[4..expected]];
          assert b[4..expected] == input[4..expected] && b[expected..] == [];
          expected, received := 0, 0;
        }
      }
    }
  }

  /** Writing past the used part of a ring, around its end, appends. */
  lemma Appended(before: seq<byte>, after: seq<byte>, start: nat, size: nat, data: seq<byte>)
    requires |before| == |after| > 0 && start < |before| && size + |data| <= |before|
    requires
      var at := (start + size) % |before|;
      var first := if |data| < |before| - at then |data| else |before| - at;
      && (forall i :: 0 <= i < first ==> after[at + i] == data[i])
      && (forall i :: 0 <= i < |data| - first ==> after[i] == data[first + i])
      && (forall k :: 0 <= k < |before| && !(at <= k < at + first) && !(k < |data| - first) ==> after[k] == before[k])
    ensures Around(after, start, size + |data|) == Around(before, start, size) + data
  {
    var n := |before|;
    Wrapped(start + size, n);
    forall i | 0 <= i < size + |data|
      ensures Around(after, start, size + |data|)[i] == (Around(before, start, size) + data)[i]
    {
      Wrapped(start + i, n);
    }
  }

  lemma Advanced(ring: seq<byte>, start: nat, left: nat, moved: nat)
    requires |ring| > 0 && start + moved <= |ring| && start < |ring| && left + moved <= |ring|
    ensures Around(ring, start, left + moved) ==
      ring[start..start + moved] + Around(ring, (start + moved) % |ring|, left)
  {
    var whole, rest := Around(ring, start, left + moved), Around(ring, (start + moved) % |ring|, left);
    Wrapped(start + moved, |ring|);
    forall i | 0 <= i < left + moved
      ensures whole[i] == (ring[start..start + moved] + rest)[i]
    {
      Wrapped(start + i, |ring|);
      if i >= moved {
        Wrapped((start + moved) % |ring| + (i - moved), |ring|);
      }
    }
  }
}
