/** Frames written as server-sent events come back from the decoder, however the stream is cut. */
module SseRoundTrip {
  import opened Contracts
  import opened SseFrames

  /** The bytes of "data: ". */
  const PREFIX: seq<Byte> := [100, 97, 116, 97, 58, 32]

  function LineEnd(crlf: bool): seq<Byte> {
    if crlf then [13, 10] else [10]
  }

  /** The frame's bytes, with a new data line begun behind each of its line ends. */
  function Lines(f: seq<Byte>, crlf: bool): seq<Byte> {
    if f == [] then [] else (if f[0] == 10 then LineEnd(crlf) + PREFIX else [f[0]]) + Lines(f[1..], crlf)
  }

  /** The same, with the ends of the last line and of the event. */
  function Closed(f: seq<Byte>, crlf: bool): seq<Byte> {
    Lines(f, crlf) + LineEnd(crlf) + LineEnd(crlf)
  }

  /** The frame as an event: its data lines and a blank line. */
  function Wire(f: seq<Byte>, crlf: bool): seq<Byte> {
    PREFIX + Closed(f, crlf)
  }

  function WireAll(frames: seq<seq<Byte>>, crlf: bool): seq<Byte> {
    if frames == [] then [] else WireAll(frames[..|frames| - 1], crlf) + Wire(frames[|frames| - 1], crlf)
  }

  /** With plain line feeds no line of a frame may end with a carriage return; with both bytes any may. */
  predicate IsWritable(f: seq<Byte>, crlf: bool) {
    crlf || forall i :: 0 <= i < |f| && f[i] == 13 ==> i + 1 < |f| && f[i + 1] != 10
  }

  // ---- One line ----

  /** A line that can be closed without losing a byte. */
  predicate IsClosable(line: seq<Byte>, crlf: bool) {
    crlf || line == [] || line[|line| - 1] != 13
  }

  lemma DataIsStripped(line: seq<Byte>)
    ensures DataOf(PREFIX + line) == [line]
  {
    assert (PREFIX + line)[..5] == DATA;
    assert (PREFIX + line)[5..] == [SPACE] + line;
  }

  lemma LineCloses(line: seq<Byte>, lines: seq<seq<Byte>>, frames: seq<seq<Byte>>, crlf: bool)
    requires IsClosable(line, crlf)
    ensures Steps(Decoded(PREFIX + line, lines, frames), LineEnd(crlf)) == Decoded([], lines + [line], frames)
  {
    var d := Decoded(PREFIX + line, lines, frames);
    DataIsStripped(line);
    if crlf {
      StepsTwo(d, CR, LF);
      assert (PREFIX + line + [CR])[..|PREFIX + line|] == PREFIX + line;
    } else {
      StepsOne(d, LF);
      assert StripCr(PREFIX + line) == PREFIX + line;
    }
  }

  lemma EventCloses(lines: seq<seq<Byte>>, frames: seq<seq<Byte>>, crlf: bool)
    requires lines != []
    ensures Steps(Decoded([], lines, frames), LineEnd(crlf)) == Decoded([], [], frames + [Join(lines)])
  {
    var d := Decoded([], lines, frames);
    if crlf {
      StepsTwo(d, CR, LF);
      assert [] + [CR] == [CR] && [CR][..0] == [];
    } else {
      StepsOne(d, LF);
    }
  }

  lemma LineOpens(lines: seq<seq<Byte>>, frames: seq<seq<Byte>>)
    ensures Steps(Decoded([], lines, frames), PREFIX) == Decoded(PREFIX, lines, frames)
  {
    StepsWithin(Decoded([], lines, frames), PREFIX);
    assert [] + PREFIX == PREFIX;
  }

  // ---- One frame ----

  lemma {:induction false} JoinMore(lines: seq<seq<Byte>>, line: seq<Byte>, more: seq<Byte>)
    ensures Join(lines + [line + more]) == Join(lines + [line]) + more
  {
    if lines != [] {
      assert (lines + [line])[1..] == lines[1..] + [line] && (lines + [line + more])[1..] == lines[1..] + [line + more];
      JoinMore(lines[1..], line, more);
    }
  }

  lemma {:induction false} JoinNext(lines: seq<seq<Byte>>, line: seq<Byte>)
    ensures Join(lines + [line] + [[]]) == Join(lines + [line]) + [LF]
  {
    if lines == [] {
      assert [line] + [[]] == [line, []] && [line, []][1..] == [[]];
    } else {
      var all := lines + [line];
      assert all[1..] == lines[1..] + [line] && (all + [[]])[1..] == lines[1..] + [line] + [[]];
      JoinNext(lines[1..], line);
    }
  }

  /** What follows a line that is open is written, so its bytes come behind those of the lines so far. */
  lemma {:induction false} RestIsRead(line: seq<Byte>, rest: seq<Byte>, lines: seq<seq<Byte>>, frames: seq<seq<Byte>>, crlf: bool)
    requires IsWritable(rest, crlf) && (IsClosable(line, crlf) || (rest != [] && rest[0] != 10))
    ensures Steps(Decoded(PREFIX + line, lines, frames), Closed(rest, crlf))
            == Decoded([], [], frames + [Join(lines + [line]) + rest])
    decreases rest
  {
    var d, end := Decoded(PREFIX + line, lines, frames), LineEnd(crlf);
    if rest == [] {
      assert Closed(rest, crlf) == end + end && Join(lines + [line]) + [] == Join(lines + [line]);
      StepsConcat(d, end, end);
      LineCloses(line, lines, frames, crlf);
      EventCloses(lines + [line], frames, crlf);
    } else if rest[0] == 10 {
      NextLineIsRead(line, rest, lines, frames, crlf);
    } else {
      NextByteIsRead(line, rest, lines, frames, crlf);
    }
  }

  lemma {:induction false} NextLineIsRead(line: seq<Byte>, rest: seq<Byte>, lines: seq<seq<Byte>>, frames: seq<seq<Byte>>, crlf: bool)
    requires IsWritable(rest, crlf) && IsClosable(line, crlf) && rest != [] && rest[0] == 10
    ensures Steps(Decoded(PREFIX + line, lines, frames), Closed(rest, crlf))
            == Decoded([], [], frames + [Join(lines + [line]) + rest])
    decreases rest, 0
  {
    var more := Closed(rest[1..], crlf);
    ClosedLine(rest, crlf);
    StepsConcat(Decoded(PREFIX + line, lines, frames), LineEnd(crlf), PREFIX + more);
    LineCloses(line, lines, frames, crlf);
    StepsConcat(Decoded([], lines + [line], frames), PREFIX, more);
    LineOpens(lines + [line], frames);
    assert PREFIX + [] == PREFIX;
    StaysWritable([], rest, crlf);
    RestIsRead([], rest[1..], lines + [line], frames, crlf);
    JoinNext(lines, line);
    TailOf(Join(lines + [line]), rest);
  }

  lemma ClosedLine(rest: seq<Byte>, crlf: bool)
    requires rest != [] && rest[0] == 10
    ensures Closed(rest, crlf) == LineEnd(crlf) + (PREFIX + Closed(rest[1..], crlf))
  {
  }

  lemma ClosedByte(rest: seq<Byte>, crlf: bool)
    requires rest != [] && rest[0] != 10
    ensures Closed(rest, crlf) == [rest[0]] + Closed(rest[1..], crlf)
  {
  }

  lemma TailOf(front: seq<Byte>, rest: seq<Byte>)
    requires rest != []
    ensures front + [rest[0]] + rest[1..] == front + rest
  {
  }

  lemma {:induction false} NextByteIsRead(line: seq<Byte>, rest: seq<Byte>, lines: seq<seq<Byte>>, frames: seq<seq<Byte>>, crlf: bool)
    requires IsWritable(rest, crlf) && rest != [] && rest[0] != 10
    ensures Steps(Decoded(PREFIX + line, lines, frames), Closed(rest, crlf))
            == Decoded([], [], frames + [Join(lines + [line]) + rest])
    decreases rest, 0
  {
    ByteOpens(line, rest, lines, frames, crlf);
    StaysWritable(line, rest, crlf);
    RestIsRead(line + [rest[0]], rest[1..], lines, frames, crlf);
    ByteJoins(lines, line, rest);
  }

  lemma ByteOpens(line: seq<Byte>, rest: seq<Byte>, lines: seq<seq<Byte>>, frames: seq<seq<Byte>>, crlf: bool)
    requires rest != [] && rest[0] != 10
    ensures Steps(Decoded(PREFIX + line, lines, frames), Closed(rest, crlf))
            == Steps(Decoded(PREFIX + (line + [rest[0]]), lines, frames), Closed(rest[1..], crlf))
  {
    var d := Decoded(PREFIX + line, lines, frames);
    ClosedByte(rest, crlf);
    StepsConcat(d, [rest[0]], Closed(rest[1..], crlf));
    StepsOne(d, rest[0]);
    assert PREFIX + line + [rest[0]] == PREFIX + (line + [rest[0]]);
  }

  lemma ByteJoins(lines: seq<seq<Byte>>, line: seq<Byte>, rest: seq<Byte>)
    requires rest != []
    ensures Join(lines + [line + [rest[0]]]) + rest[1..] == Join(lines + [line]) + rest
  {
    JoinMore(lines, line, [rest[0]]);
    TailOf(Join(lines + [line]), rest);
  }

  lemma StaysWritable(line: seq<Byte>, rest: seq<Byte>, crlf: bool)
    requires IsWritable(rest, crlf) && rest != []
    ensures IsWritable(rest[1..], crlf)
    ensures IsClosable(line + [rest[0]], crlf) || (rest[1..] != [] && rest[1..][0] != 10)
  {
    if !crlf {
      forall i | 0 <= i < |rest[1..]| && rest[1..][i] == 13 ensures i + 1 < |rest[1..]| && rest[1..][i + 1] != 10 {
        assert rest[i + 1] == 13;
      }
    }
  }

  lemma FrameIsRead(f: seq<Byte>, frames: seq<seq<Byte>>, crlf: bool)
    requires IsWritable(f, crlf)
    ensures Steps(Decoded([], [], frames), Wire(f, crlf)) == Decoded([], [], frames + [f])
  {
    StepsConcat(Decoded([], [], frames), PREFIX, Closed(f, crlf));
    LineOpens([], frames);
    assert PREFIX + [] == PREFIX && Join([] + [[]]) + f == f;
    RestIsRead([], f, [], frames, crlf);
  }

  // ---- Whole streams ----

  lemma {:induction false} StreamIsRead(frames: seq<seq<Byte>>, crlf: bool)
    requires forall f :: f in frames ==> IsWritable(f, crlf)
    ensures Decode(WireAll(frames, crlf)) == Decoded([], [], frames)
  {
    if frames != [] {
      var init, last := frames[..|frames| - 1], frames[|frames| - 1];
      assert frames == init + [last];
      StreamIsRead(init, crlf);
      OneMoreFrame(WireAll(init, crlf), init, last, crlf);
    }
  }

  lemma OneMoreFrame(s: seq<Byte>, frames: seq<seq<Byte>>, f: seq<Byte>, crlf: bool)
    requires Decode(s) == Decoded([], [], frames) && IsWritable(f, crlf)
    ensures Decode(s + Wire(f, crlf)) == Decoded([], [], frames + [f])
  {
    DecodeIsSteps(s, Wire(f, crlf));
    FrameIsRead(f, frames, crlf);
  }

  /** Frames written as events are delivered as they were, however the stream is cut, if they are UTF-8 and fit the limit. */
  lemma FramesAreDelivered(frames: seq<seq<Byte>>, crlf: bool, chunks: seq<seq<Byte>>)
    requires forall f :: f in frames ==> IsWritable(f, crlf)
    requires Concat(chunks) == WireAll(frames, crlf)
    ensures Pushes(chunks).Ok? <==> |Concat(chunks)| <= 2 * 1024 * 1024 && AllUtf8(frames)
    ensures Pushes(chunks).Ok? ==> Pushes(chunks).value == Run(State([], [], |Concat(chunks)|), frames)
  {
    StreamIsRead(frames, crlf);
    ChunkingDoesNotMatter(chunks);
  }

  /** A line that is no data line, such as a comment or an event name, may stand between any lines. */
  lemma OtherLinesAreIgnored(before: seq<Byte>, line: seq<Byte>, behind: seq<Byte>)
    requires before == [] || before[|before| - 1] == 10
    requires 10 !in line && line != [] && line != [13] && !([100, 97, 116, 97, 58] <= line)
    ensures Decode(before + (line + [10]) + behind) == Decode(before + behind)
  {
    LineWasClosed(before);
    DecodeIsSteps(before, behind);
    DecodeIsSteps(before, line + [10] + behind);
    assert before + (line + [10]) + behind == before + (line + [10] + behind);
    StepsConcat(Decode(before), line + [10], behind);
    LineIsIgnored(Decode(before), line);
  }

  lemma LineIsIgnored(d: Decoded, line: seq<Byte>)
    requires d.pending == [] && 10 !in line && line != [] && line != [13] && !([100, 97, 116, 97, 58] <= line)
    ensures Steps(d, line + [10]) == d
  {
    StepsSnoc(d, line, LF);
    StepsWithin(d, line);
    assert [] + line == line && d.lines + [] == d.lines;
    NoData(line);
  }

  lemma NoData(line: seq<Byte>)
    requires line != [] && line != [13] && !([100, 97, 116, 97, 58] <= line)
    ensures StripCr(line) != [] && DataOf(StripCr(line)) == []
  {
    assert DATA == [100, 97, 116, 97, 58];
  }

  lemma LineWasClosed(s: seq<Byte>)
    requires s == [] || s[|s| - 1] == 10
    ensures Decode(s).pending == []
  {
  }
}
