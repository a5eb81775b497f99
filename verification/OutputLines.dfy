/**
 Command output cut into progress lines as it arrives: one byte loop over whatever each read
 returned. Source: crates/agent/src/process.rs.
 */
module OutputLines {
  import opened Bytes

  const READ_SIZE: nat := 4096
  const LINE_LIMIT: nat := 4096
  const OUTPUT_LIMIT: nat := 4194304

  const LF: byte := 10
  const CR: byte := 13
  const BACKSPACE: byte := 8
  const ESCAPE: byte := 27

  /** One progress call: a line's bytes, or the placeholder for one that is too long. */
  datatype Call = Line(bytes: seq<byte>) | Omitted

  predicate Control(b: byte) { b < 32 || b == 127 }

  predicate Separator(terminal: bool, b: byte) {
    b == LF || b == CR || (terminal && (b == BACKSPACE || b == ESCAPE))
  }

  // ---------------------------------------------------- the whole stream at once

  /** On a terminal, the glyph drawn after a backspace is a spinner's and says nothing. */
  predicate Glyph(terminal: bool, before: byte, b: byte) {
    terminal && before == BACKSPACE && !Control(b)
  }

  /** The stream without spinner glyphs; `before` is the byte that came before it. */
  function Visible(terminal: bool, before: byte, stream: seq<byte>): seq<byte>
    decreases |stream|
  {
    if stream == [] then []
    else (if Glyph(terminal, before, stream[0]) then [] else [stream[0]]) + Visible(terminal, stream[0], stream[1..])
  }

  function Shown(line: seq<byte>): seq<Call> {
    if |line| > LINE_LIMIT then [Omitted] else if line == [] then [] else [Line(line)]
  }

  /** A line ends before a separator; only an escape begins the next. */
  function Lines(terminal: bool, line: seq<byte>, visible: seq<byte>): seq<Call>
    decreases |visible|
  {
    if visible == [] then Shown(line)
    else if Separator(terminal, visible[0]) then
      Shown(line) + Lines(terminal, if visible[0] == ESCAPE then [ESCAPE] else [], visible[1..])
    else Lines(terminal, line + [visible[0]], visible[1..])
  }

  /** Every progress call the stream is worth. */
  function Progress(terminal: bool, stream: seq<byte>): seq<Call> {
    Lines(terminal, [], Visible(terminal, LF, stream))
  }

  // ------------------------------------------------------------- byte by byte

  datatype State = State(line: seq<byte>, overflow: bool, glyph: bool)

  /** The line the loop holds stands for this one, of which it keeps at most the first 4096 bytes. */
  ghost predicate Holds(s: State, line: seq<byte>, terminal: bool, before: byte) {
    && (s.glyph <==> terminal && before == BACKSPACE)
    && (s.overflow <==> |line| > LINE_LIMIT)
    && s.line == (if |line| > LINE_LIMIT then line[..LINE_LIMIT] else line)
  }

  /** One byte: the calls it causes and the state it leaves. */
  method TakeByte(s: State, terminal: bool, b: byte, ghost line: seq<byte>, ghost before: byte, ghost rest: seq<byte>)
    returns (t: State, calls: seq<Call>, ghost line': seq<byte>)
    requires Holds(s, line, terminal, before)
    ensures Holds(t, line', terminal, b)
    ensures Lines(terminal, line, Visible(terminal, before, [b] + rest)) ==
      calls + Lines(terminal, line', Visible(terminal, b, rest))
  {
    calls, line' := [], line;
    if s.glyph && !Control(b) {
      t := s.(glyph := false);
      SkipByte(terminal, before, b, rest);
      return;
    }
    t := s.(glyph := false);
    KeepByte(terminal, before, b, line, rest);
    if b == LF || b == CR || (terminal && (b == BACKSPACE || b == ESCAPE)) {
      if s.overflow {
        calls := [Omitted];
      } else if s.line != [] {
        calls := [Line(s.line)];
      }
      t := State([], false, false);
      line' := [];
      if b == ESCAPE {
        t := t.(line := [b]);
        line' := [b];
      }
      t := t.(glyph := terminal && b == BACKSPACE);
    } else {
      line' := line + [b];
      if |s.line| < LINE_LIMIT {
        t := t.(line := s.line + [b]);
      } else {
        t := t.(overflow := true);
      }
    }
  }

  lemma SkipByte(terminal: bool, before: byte, b: byte, rest: seq<byte>)
    requires Glyph(terminal, before, b)
    ensures Visible(terminal, before, [b] + rest) == Visible(terminal, b, rest)
  {
    assert ([b] + rest)[1..] == rest;
  }

  lemma KeepByte(terminal: bool, before: byte, b: byte, line: seq<byte>, rest: seq<byte>)
    requires !Glyph(terminal, before, b)
    ensures Lines(terminal, line, Visible(terminal, before, [b] + rest)) ==
      if Separator(terminal, b) then
        Shown(line) + Lines(terminal, if b == ESCAPE then [ESCAPE] else [], Visible(terminal, b, rest))
      else Lines(terminal, line + [b], Visible(terminal, b, rest))
  {
    hide Separator;
    assert ([b] + rest)[1..] == rest;
    var visible := Visible(terminal, b, rest);
    assert Visible(terminal, before, [b] + rest) == [b] + visible;
    assert ([b] + visible)[1..] == visible;
  }

  function Joined(pieces: seq<seq<byte>>): seq<byte> {
    if pieces == [] then [] else pieces[0] + Joined(pieces[1..])
  }

  /**
   read_output: whatever sizes the reads had, the calls are those of the whole stream; output over
   4 MiB is an error, after the calls of the reads that still fitted.
   */
  method ReadOutput(pieces: seq<seq<byte>>, terminal: bool) returns (ok: bool, output: seq<byte>, calls: seq<Call>)
    requires forall i :: 0 <= i < |pieces| ==> 0 < |pieces[i]| <= READ_SIZE
    ensures ok == (|Joined(pieces)| <= OUTPUT_LIMIT)
    ensures ok ==> output == Joined(pieces) && calls == Progress(terminal, Joined(pieces))
    ensures !ok ==> |output| <= OUTPUT_LIMIT && output <= Joined(pieces) && calls <= Progress(terminal, Joined(pieces))
  {
    hide Lines, Visible, Holds;
    output, calls := [], [];
    var s := State([], false, false);
    ghost var line: seq<byte> := [];
    ghost var before: byte := LF;
    Start(terminal);
    var i := 0;
    assert [] + Joined(pieces[0..]) == Joined(pieces);
    while i < |pieces|
      invariant i <= |pieces| && |output| <= OUTPUT_LIMIT && output + Joined(pieces[i..]) == Joined(pieces)
      invariant Holds(s, line, terminal, before)
      invariant Progress(terminal, Joined(pieces)) ==
        calls + Lines(terminal, line, Visible(terminal, before, Joined(pieces[i..])))
    {
      var buffer := pieces[i];
      assert pieces[i..][0] == buffer && pieces[i..][1..] == pieces[i + 1..];
      ghost var later := Joined(pieces[i + 1..]);
      if |output| + |buffer| > OUTPUT_LIMIT { return false, output, calls; }
      output := output + buffer;
      var k := 0;
      assert buffer[0..] + later == Joined(pieces[i..]);
      while k < |buffer|
        invariant k <= |buffer| && Holds(s, line, terminal, before)
        invariant Progress(terminal, Joined(pieces)) ==
          calls + Lines(terminal, line, Visible(terminal, before, buffer[k..] + later))
      {
        assert buffer[k..] + later == [buffer[k]] + (buffer[k + 1..] + later);
        var more;
        s, more, line := TakeByte(s, terminal, buffer[k], line, before, buffer[k + 1..] + later);
        before := buffer[k];
        calls := calls + more;
        k := k + 1;
      }
      assert buffer[k..] + later == later;
      i := i + 1;
    }
    assert pieces[i..] == [];
    ok := true;
    Finish(s, line, terminal, before);
    if s.overflow {
      calls := calls + [Omitted];
    } else if s.line != [] {
      calls := calls + [Line(s.line)];
    }
  }

  lemma Start(terminal: bool)
    ensures Holds(State([], false, false), [], terminal, LF)
  {
  }

  lemma Finish(s: State, line: seq<byte>, terminal: bool, before: byte)
    requires Holds(s, line, terminal, before)
    ensures Lines(terminal, line, Visible(terminal, before, [])) == if s.overflow then [Omitted]
      else if s.line != [] then [Line(s.line)] else []
  {
  }

  // -------------------------------------------------------------- what is shown

  /** Line feed and carriage return end a line; on a terminal, backspace and escape do too. */
  predicate Ends(terminal: bool, b: byte) {
    match b as int
    case 10 => true
    case 13 => true
    case 8 => terminal
    case 27 => terminal
    case _ => false
  }

  /** Texts with one ending byte between each and the next. */
  function Interleaved(texts: seq<seq<byte>>, ends: seq<byte>): seq<byte>
    requires |texts| == |ends| + 1
  {
    if ends == [] then texts[0] else texts[0] + [ends[0]] + Interleaved(texts[1..], ends[1..])
  }

  /** One call a text that is not empty, with the escape that came before it; long ones are left out. */
  function Told(texts: seq<seq<byte>>, opening: seq<byte>, ends: seq<byte>): seq<Call>
    requires |texts| == |ends| + 1
  {
    var line := opening + texts[0];
    var call := if |line| == 0 then [] else if |line| < 4097 then [Line(line)] else [Omitted];
    if ends == [] then call
    else call + Told(texts[1..], if ends[0] as int == 27 then [ends[0]] else [], ends[1..])
  }

  ghost predicate Texts(terminal: bool, texts: seq<seq<byte>>, ends: seq<byte>) {
    && |texts| == |ends| + 1
    && (forall text <- texts :: forall b <- text :: !Ends(terminal, b))
    && forall b <- ends :: Ends(terminal, b)
  }

  lemma SeparatorIs(terminal: bool, b: byte)
    ensures Separator(terminal, b) <==> Ends(terminal, b)
  {
  }

  lemma {:induction false} TextRead(terminal: bool, line: seq<byte>, text: seq<byte>, rest: seq<byte>)
    requires forall b <- text :: !Ends(terminal, b)
    ensures Lines(terminal, line, text + rest) == Lines(terminal, line + text, rest)
    decreases |text|
  {
    hide Separator, Ends;
    if text == [] {
      assert text + rest == rest && line + text == line;
    } else {
      assert text[0] in text && forall b <- text[1..] :: b in text;
      SeparatorIs(terminal, text[0]);
      TextRead(terminal, line + [text[0]], text[1..], rest);
      assert (text + rest)[1..] == text[1..] + rest;
      assert line + [text[0]] + text[1..] == line + text;
    }
  }

  lemma EndRead(terminal: bool, line: seq<byte>, end: byte, rest: seq<byte>)
    requires Ends(terminal, end)
    ensures Lines(terminal, line, [end] + rest) ==
      Shown(line) + Lines(terminal, if end as int == 27 then [end] else [], rest)
  {
    SeparatorIs(terminal, end);
    assert ([end] + rest)[1..] == rest;
  }

  /** The calls are the texts between the bytes that end lines, in order. */
  lemma {:induction false} LinesAre(terminal: bool, opening: seq<byte>, texts: seq<seq<byte>>, ends: seq<byte>)
    requires Texts(terminal, texts, ends)
    ensures Lines(terminal, opening, Interleaved(texts, ends)) == Told(texts, opening, ends)
    decreases |ends|
  {
    hide Lines, Separator, Ends;
    assert texts[0] in texts;
    if ends == [] {
      assert texts[0] + [] == texts[0];
      TextRead(terminal, opening, texts[0], []);
      LinesEnd(terminal, opening + texts[0]);
    } else {
      assert ends[0] in ends && forall b <- ends[1..] :: b in ends;
      assert forall text <- texts[1..] :: text in texts;
      var rest := Interleaved(texts[1..], ends[1..]);
      assert Interleaved(texts, ends) == texts[0] + ([ends[0]] + rest);
      TextRead(terminal, opening, texts[0], [ends[0]] + rest);
      EndRead(terminal, opening + texts[0], ends[0], rest);
      LinesAre(terminal, if ends[0] as int == 27 then [ends[0]] else [], texts[1..], ends[1..]);
    }
  }

  lemma LinesEnd(terminal: bool, line: seq<byte>)
    ensures Lines(terminal, line, []) == Shown(line)
  {
  }

  /** Every stream is texts and endings. */
  lemma {:induction false} CutUp(terminal: bool, visible: seq<byte>) returns (texts: seq<seq<byte>>, ends: seq<byte>)
    ensures Texts(terminal, texts, ends) && Interleaved(texts, ends) == visible
    decreases |visible|
  {
    hide Ends;
    if visible == [] {
      texts, ends := [[]], [];
    } else {
      var b := visible[0];
      texts, ends := CutUp(terminal, visible[1..]);
      if Ends(terminal, b) {
        texts, ends := [[]] + texts, [b] + ends;
        assert texts[1..][..] == texts[1..] && ends[1..][..] == ends[1..];
      } else {
        var was := texts;
        texts := [[b] + was[0]] + was[1..];
        assert texts[1..] == was[1..] && was[0] in was;
        assert forall text <- was[1..] :: text in was;
      }
      assert visible == [b] + visible[1..];
    }
  }

  /** A byte is hidden exactly where it is printable and follows a backspace, on a terminal. */
  lemma {:induction false} VisibleIs(terminal: bool, before: byte, a: seq<byte>, b: byte)
    ensures
      var last := if a == [] then before else a[|a| - 1];
      var glyph := terminal && last as int == 8 && 32 <= b as int && b as int != 127;
      Visible(terminal, before, a + [b]) == Visible(terminal, before, a) + if glyph then [] else [b]
    decreases |a|
  {
    var last := if a == [] then before else a[|a| - 1];
    var tail := if terminal && last as int == 8 && 32 <= b as int && b as int != 127 then [] else [b];
    if a == [] {
      assert a + [b] == [b] && [b][1..] == [];
    } else {
      var rest := a[1..];
      var first := if Glyph(terminal, before, a[0]) then [] else [a[0]];
      VisibleIs(terminal, a[0], rest, b);
      assert Visible(terminal, before, a + [b]) == first + Visible(terminal, a[0], rest + [b]) by {
        assert (a + [b])[1..] == rest + [b];
      }
      assert first + (Visible(terminal, a[0], rest) + tail) == (first + Visible(terminal, a[0], rest)) + tail;
    }
  }
}
