/** The incremental decoder of server-sent event frames, and the stream it denotes. */
module SseFrames {
  import opened Contracts

  type Byte = b: nat | b < 256

  const LF: Byte := 10
  const CR: Byte := 13
  const SPACE: Byte := 32
  const DATA: seq<Byte> := [100, 97, 116, 97, 58]
  const MAX_RESPONSE_BYTES: nat := 2 * 1024 * 1024

  datatype SseError = ResponseTooLarge | InvalidUtf8

  // ---- UTF-8 ----

  predicate IsTail(b: Byte) {
    0x80 <= b <= 0xBF
  }

  /** Length of the well-formed character at the front, or zero. */
  function CharLen(s: seq<Byte>): (n: nat)
    ensures n <= |s|
  {
    if s == [] then 0
    else if s[0] <= 0x7F then 1
    else if |s| < 2 || !IsTail(s[1]) then 0
    else if 0xC2 <= s[0] <= 0xDF then 2
    else if |s| < 3 || !IsTail(s[2]) then 0
    else if 0xE0 <= s[0] <= 0xEF then
      if (s[0] == 0xE0 && s[1] < 0xA0) || (s[0] == 0xED && s[1] > 0x9F) then 0 else 3
    else if |s| < 4 || !IsTail(s[3]) then 0
    else if 0xF0 <= s[0] <= 0xF4 then
      if (s[0] == 0xF0 && s[1] < 0x90) || (s[0] == 0xF4 && s[1] > 0x8F) then 0 else 4
    else 0
  }

  predicate IsUtf8(s: seq<Byte>) {
    s == [] || (CharLen(s) > 0 && IsUtf8(s[CharLen(s)..]))
  }

  predicate AllUtf8(frames: seq<seq<Byte>>) {
    forall f :: f in frames ==> IsUtf8(f)
  }

  // ---- What a stream means ----

  /** The closed pieces before each separator, and what is left open after the last one. */
  datatype Pieces<T> = Pieces(closed: seq<seq<T>>, rest: seq<T>)

  function LinesOf(s: seq<Byte>): Pieces<Byte> {
    if s == [] then Pieces([], [])
    else
      var before, last := LinesOf(s[..|s| - 1]), s[|s| - 1];
      if last == LF then Pieces(before.closed + [before.rest], []) else Pieces(before.closed, before.rest + [last])
  }

  function StripCr(line: seq<Byte>): seq<Byte> {
    if line != [] && line[|line| - 1] == CR then line[..|line| - 1] else line
  }

  /** The lines of each event are those between blank lines. */
  function EventsOf(lines: seq<seq<Byte>>): Pieces<seq<Byte>> {
    if lines == [] then Pieces([], [])
    else
      var before, last := EventsOf(lines[..|lines| - 1]), StripCr(lines[|lines| - 1]);
      if last == [] then Pieces(before.closed + [before.rest], []) else Pieces(before.closed, before.rest + [last])
  }

  /** The value of a data line: what follows the colon, less one leading space. */
  function DataOf(line: seq<Byte>): seq<seq<Byte>> {
    if DATA <= line then
      var value := line[|DATA|..];
      [if value != [] && value[0] == SPACE then value[1..] else value]
    else []
  }

  function DataLines(lines: seq<seq<Byte>>): seq<seq<Byte>> {
    if lines == [] then [] else DataLines(lines[..|lines| - 1]) + DataOf(lines[|lines| - 1])
  }

  function Join(lines: seq<seq<Byte>>): seq<Byte> {
    if lines == [] then []
    else if |lines| == 1 then lines[0]
    else lines[0] + [LF] + Join(lines[1..])
  }

  /** One frame per event that has data. */
  function FramesOf(events: seq<seq<seq<Byte>>>): seq<seq<Byte>> {
    if events == [] then []
    else
      var data := DataLines(events[|events| - 1]);
      FramesOf(events[..|events| - 1]) + if data == [] then [] else [Join(data)]
  }

  datatype Decoded = Decoded(pending: seq<Byte>, lines: seq<seq<Byte>>, frames: seq<seq<Byte>>)

  /** The whole stream at once: its lines, its events, their frames, and what is still open. */
  function Decode(s: seq<Byte>): Decoded {
    var lines := LinesOf(s);
    var events := EventsOf(lines.closed);
    Decoded(lines.rest, DataLines(events.rest), FramesOf(events.closed))
  }

  // ---- Specification of the decoder ----

  datatype State = State(pending: seq<Byte>, lines: seq<seq<Byte>>, received: nat)

  const START: State := State([], [], 0)

  function FirstLf(s: seq<Byte>): (i: nat)
    ensures i <= |s|
    ensures LF !in s[..i] && (i < |s| ==> s[i] == LF)
  {
    if s == [] || s[0] == LF then 0 else
      var i := 1 + FirstLf(s[1..]);
      assert s[..i] == [s[0]] + s[1..][..i - 1];
      i
  }

  datatype Drained = Drained(pending: seq<Byte>, lines: seq<seq<Byte>>, frames: seq<seq<Byte>>, ok: bool)

  /** Complete lines are taken from the front; an event that is not UTF-8 stops the work. */
  function Drain(pending: seq<Byte>, lines: seq<seq<Byte>>): Drained
    decreases |pending|
  {
    var end := FirstLf(pending);
    if end == |pending| then Drained(pending, lines, [], true)
    else
      var line, rest := StripCr(pending[..end]), pending[end + 1..];
      if line != [] then Drain(rest, lines + DataOf(line))
      else if lines == [] then Drain(rest, [])
      else if !IsUtf8(Join(lines)) then Drained(rest, lines, [], false)
      else
        var more := Drain(rest, []);
        more.(frames := [Join(lines)] + more.frames)
  }

  datatype Pushed = Pushed(state: State, result: Result<seq<seq<Byte>>, SseError>)

  function PushTo(st: State, bytes: seq<Byte>): Pushed {
    var received := st.received + |bytes|;
    if received > MAX_RESPONSE_BYTES then Pushed(st.(received := received), Err(ResponseTooLarge))
    else
      var d := Drain(st.pending + bytes, st.lines);
      Pushed(State(d.pending, d.lines, received), if d.ok then Ok(d.frames) else Err(InvalidUtf8))
  }

  /** A missing last line end is supplied without counting it; the blank line after it is counted. */
  function FinishOf(st: State): Pushed {
    var first := PushTo(st.(pending := st.pending + [LF]), []);
    if first.result.Err? then first
    else
      var second := PushTo(first.state, [LF]);
      if second.result.Err? then second
      else second.(result := Ok(first.result.value + second.result.value))
  }

  // ---- The decoder ----

  /** What the loop has, with what remains to be drained, makes up the whole. */
  predicate Remains(all: Drained, frames: seq<seq<Byte>>, rest: Drained) {
    && all.pending == rest.pending && all.lines == rest.lines && all.ok == rest.ok
    && (all.ok ==> all.frames == frames + rest.frames)
  }

  lemma RemainsAfterLine(all: Drained, frames: seq<seq<Byte>>, pending: seq<Byte>, lines: seq<seq<Byte>>)
    requires FirstLf(pending) < |pending|
    requires Remains(all, frames, Drain(pending, lines))
    ensures var end := FirstLf(pending);
            var line, rest := StripCr(pending[..end]), pending[end + 1..];
            if line != [] then Remains(all, frames, Drain(rest, lines + DataOf(line)))
            else if lines == [] then Remains(all, frames, Drain(rest, []))
            else if !IsUtf8(Join(lines)) then all.pending == rest && all.lines == lines && !all.ok
            else Remains(all, frames + [Join(lines)], Drain(rest, []))
  {
    var end := FirstLf(pending);
    var line, rest := StripCr(pending[..end]), pending[end + 1..];
    DrainLine(lines, pending, pending[..end], rest);
    if line == [] && lines != [] && IsUtf8(Join(lines)) && all.ok {
      var more := Drain(rest, []).frames;
      assert frames + ([Join(lines)] + more) == frames + [Join(lines)] + more;
    }
  }

  class SseDecoder {
    var pending: seq<Byte>
    var lines: seq<seq<Byte>>
    var received: nat

    constructor ()
      ensures Now() == START
    {
      pending, lines, received := [], [], 0;
    }

    function Now(): State
      reads this
    {
      State(pending, lines, received)
    }

    method Push(bytes: seq<Byte>) returns (result: Result<seq<seq<Byte>>, SseError>)
      modifies this
      ensures Pushed(Now(), result) == PushTo(old(Now()), bytes)
    {
      received := received + |bytes|;
      if received > MAX_RESPONSE_BYTES {
        return Err(ResponseTooLarge);
      }
      pending := pending + bytes;
      var frames := [];
      ghost var all := Drain(pending, lines);
      var end := FirstLf(pending);
      while end < |pending|
        invariant received == old(received) + |bytes|
        invariant end == FirstLf(pending)
        invariant Remains(all, frames, Drain(pending, lines))
        decreases |pending|
      {
        RemainsAfterLine(all, frames, pending, lines);
        var line := StripCr(pending[..end]);
        pending := pending[end + 1..];
        if line == [] {
          if lines != [] {
            var joined := Join(lines);
            if !IsUtf8(joined) {
              return Err(InvalidUtf8);
            }
            frames := frames + [joined];
            lines := [];
          }
        } else {
          lines := lines + DataOf(line);
        }
        end := FirstLf(pending);
      }
      assert frames + [] == frames;
      return Ok(frames);
    }

    method Finish() returns (result: Result<seq<seq<Byte>>, SseError>)
      modifies this
      ensures Pushed(Now(), result) == FinishOf(old(Now()))
    {
      pending := pending + [LF];
      var frames := Push([]);
      if frames.Err? {
        return frames;
      }
      var more := Push([LF]);
      if more.Err? {
        return more;
      }
      return Ok(frames.value + more.value);
    }
  }

  // ---- One byte at a time ----

  function StepLine(d: Decoded, line: seq<Byte>): Decoded {
    if line != [] then Decoded([], d.lines + DataOf(line), d.frames)
    else if d.lines == [] then Decoded([], [], d.frames)
    else Decoded([], [], d.frames + [Join(d.lines)])
  }

  function Step(d: Decoded, b: Byte): Decoded {
    if b == LF then StepLine(d, StripCr(d.pending)) else d.(pending := d.pending + [b])
  }

  function Steps(d: Decoded, s: seq<Byte>): Decoded {
    if s == [] then d else Step(Steps(d, s[..|s| - 1]), s[|s| - 1])
  }

  lemma DecodeStep(s: seq<Byte>, b: Byte)
    ensures Decode(s + [b]) == Step(Decode(s), b)
  {
    assert (s + [b])[..|s|] == s;
    var lines := LinesOf(s);
    if b == LF {
      var closed, line := lines.closed + [lines.rest], StripCr(lines.rest);
      assert closed[..|closed| - 1] == lines.closed;
      DecodeLine(EventsOf(lines.closed), line);
    }
  }

  lemma DecodeLine(events: Pieces<seq<Byte>>, line: seq<Byte>)
    ensures line != [] ==> DataLines(events.rest + [line]) == DataLines(events.rest) + DataOf(line)
    ensures FramesOf(events.closed + [events.rest]) ==
            FramesOf(events.closed) + if DataLines(events.rest) == [] then [] else [Join(DataLines(events.rest))]
  {
    assert (events.rest + [line])[..|events.rest|] == events.rest;
    assert (events.closed + [events.rest])[..|events.closed|] == events.closed;
  }

  lemma {:induction false} StepsConcat(d: Decoded, a: seq<Byte>, b: seq<Byte>)
    ensures Steps(d, a + b) == Steps(Steps(d, a), b)
  {
    if b == [] {
      assert a + b == a;
    } else {
      var init := b[..|b| - 1];
      StepsConcat(d, a, init);
      StepsConcatLast(d, a, init, b[|b| - 1]);
      assert b == init + [b[|b| - 1]];
    }
  }

  lemma StepsConcatLast(d: Decoded, a: seq<Byte>, init: seq<Byte>, last: Byte)
    requires Steps(d, a + init) == Steps(Steps(d, a), init)
    ensures Steps(d, a + (init + [last])) == Steps(Steps(d, a), init + [last])
  {
    StepsSnoc(d, a + init, last);
    StepsSnoc(Steps(d, a), init, last);
    assert a + (init + [last]) == a + init + [last];
  }

  lemma StepsSnoc(d: Decoded, s: seq<Byte>, b: Byte)
    ensures Steps(d, s + [b]) == Step(Steps(d, s), b)
  {
    assert (s + [b])[..|s|] == s;
  }

  lemma {:induction false} DecodeIsSteps(s: seq<Byte>, more: seq<Byte>)
    ensures Decode(s + more) == Steps(Decode(s), more)
  {
    if more == [] {
      assert s + more == s;
    } else {
      DecodeIsSteps(s, more[..|more| - 1]);
      assert s + more == s + more[..|more| - 1] + [more[|more| - 1]];
      DecodeStep(s + more[..|more| - 1], more[|more| - 1]);
    }
  }

  /** Bytes without a line end only gather. */
  lemma {:induction false} StepsWithin(d: Decoded, s: seq<Byte>)
    requires LF !in s
    ensures Steps(d, s) == d.(pending := d.pending + s)
  {
    if s == [] {
      assert d.pending + s == d.pending;
    } else {
      StepsWithin(d, s[..|s| - 1]);
      assert d.pending + s == d.pending + s[..|s| - 1] + [s[|s| - 1]];
    }
  }

  lemma {:induction false} StepsFrames(d: Decoded, frames: seq<seq<Byte>>, s: seq<Byte>)
    ensures Steps(d.(frames := frames + d.frames), s) ==
            var r := Steps(d, s); r.(frames := frames + r.frames)
  {
    if s != [] {
      StepsFrames(d, frames, s[..|s| - 1]);
      StepFrames(Steps(d, s[..|s| - 1]), frames, s[|s| - 1]);
    }
  }

  lemma StepFrames(d: Decoded, frames: seq<seq<Byte>>, b: Byte)
    ensures Step(d.(frames := frames + d.frames), b) == var r := Step(d, b); r.(frames := frames + r.frames)
  {
  }

  /** The same outcome, unless a frame is not UTF-8. */
  predicate Agrees(d: Drained, r: Decoded) {
    (d.ok <==> AllUtf8(r.frames)) && (d.ok ==> Decoded(d.pending, d.lines, d.frames) == r)
  }

  /** The line loop does what the byte steps do, unless an event on the way is not UTF-8. */
  lemma {:induction false} DrainIsSteps(pending: seq<Byte>, lines: seq<seq<Byte>>)
    ensures Agrees(Drain(pending, lines), Steps(Decoded([], lines, []), pending))
    decreases |pending|
  {
    var end := FirstLf(pending);
    if end == |pending| {
      assert pending[..end] == pending;
      StepsWithin(Decoded([], lines, []), pending);
      assert [] + pending == pending;
    } else {
      var head, rest := pending[..end], pending[end + 1..];
      var line := StripCr(head);
      assert pending == head + [LF] + rest;
      StepsOfLine(lines, head, rest);
      DrainLine(lines, pending, head, rest);
      if line != [] {
        DrainIsSteps(rest, lines + DataOf(line));
      } else {
        DrainIsSteps(rest, []);
        if lines != [] {
          EmittedFrame(lines, rest);
          assert [] + [Join(lines)] == [Join(lines)];
          AgreesBehind(Drain(rest, []), Steps(Decoded([], [], []), rest), Drain(pending, lines),
                       Steps(Decoded([], lines, []), pending), lines, rest);
        }
      }
    }
  }

  lemma AgreesBehind(d: Drained, r: Decoded, all: Drained, whole: Decoded, lines: seq<seq<Byte>>, rest: seq<Byte>)
    requires Agrees(d, r)
    requires all == if IsUtf8(Join(lines)) then d.(frames := [Join(lines)] + d.frames) else Drained(rest, lines, [], false)
    requires whole == r.(frames := [Join(lines)] + r.frames)
    requires AllUtf8(whole.frames) <==> IsUtf8(Join(lines)) && AllUtf8(r.frames)
    ensures Agrees(all, whole)
  {
  }

  /** Draining one line: the rest is drained after it, behind the frame it closes, if any. */
  lemma DrainLine(lines: seq<seq<Byte>>, pending: seq<Byte>, head: seq<Byte>, rest: seq<Byte>)
    requires var end := FirstLf(pending); end < |pending| && head == pending[..end] && rest == pending[end + 1..]
    ensures var d := Drain(pending, lines);
            var line := StripCr(head);
            if line != [] then d == Drain(rest, lines + DataOf(line))
            else if lines == [] then d == Drain(rest, [])
            else if !IsUtf8(Join(lines)) then d == Drained(rest, lines, [], false)
            else d == Drain(rest, []).(frames := [Join(lines)] + Drain(rest, []).frames)
  {
  }

  lemma StepsOfLine(lines: seq<seq<Byte>>, head: seq<Byte>, rest: seq<Byte>)
    requires LF !in head
    ensures var added := Decoded([], lines, []);
            Steps(added, head + [LF] + rest) == Steps(StepLine(added, StripCr(head)), rest)
  {
    var added := Decoded([], lines, []);
    StepsConcat(added, head + [LF], rest);
    LineEnds(lines, head);
  }

  lemma LineEnds(lines: seq<seq<Byte>>, head: seq<Byte>)
    requires LF !in head
    ensures Steps(Decoded([], lines, []), head + [LF]) == StepLine(Decoded([], lines, []), StripCr(head))
  {
    var added := Decoded([], lines, []);
    StepsSnoc(added, head, LF);
    StepsWithin(added, head);
    assert [] + head == head;
  }

  lemma EmittedFrame(lines: seq<seq<Byte>>, rest: seq<Byte>)
    ensures var tail := Steps(Decoded([], [], []), rest);
            var r := Steps(Decoded([], [], [Join(lines)]), rest);
            && r == tail.(frames := [Join(lines)] + tail.frames)
            && (AllUtf8(r.frames) <==> IsUtf8(Join(lines)) && AllUtf8(tail.frames))
  {
    var frame := [Join(lines)];
    StepsFrames(Decoded([], [], []), frame, rest);
    assert frame + [] == frame;
    AllUtf8Concat(frame, Steps(Decoded([], [], []), rest).frames);
    assert AllUtf8(frame) <==> IsUtf8(Join(lines));
  }

  // ---- Chunking does not matter ----

  function Concat(chunks: seq<seq<Byte>>): seq<Byte> {
    if chunks == [] then [] else Concat(chunks[..|chunks| - 1]) + chunks[|chunks| - 1]
  }

  datatype Run = Run(state: State, frames: seq<seq<Byte>>)

  /** All pushes in order; the first failure ends the run. */
  function Pushes(chunks: seq<seq<Byte>>): Result<Run, SseError> {
    if chunks == [] then Ok(Run(START, []))
    else
      match Pushes(chunks[..|chunks| - 1])
      case Err(e) => Err(e)
      case Ok(run) =>
        var p := PushTo(run.state, chunks[|chunks| - 1]);
        match p.result
        case Err(e) => Err(e)
        case Ok(frames) => Ok(Run(p.state, run.frames + frames))
  }

  function StateAfter(s: seq<Byte>): State {
    State(Decode(s).pending, Decode(s).lines, |s|)
  }

  lemma {:induction false} PendingHasNoLf(s: seq<Byte>)
    ensures LF !in LinesOf(s).rest
  {
    if s != [] {
      PendingHasNoLf(s[..|s| - 1]);
    }
  }

  /** Pushing more onto the state after a stream gives the state after the longer stream, and its new frames. */
  lemma PushContinues(s: seq<Byte>, bytes: seq<Byte>)
    ensures var p := PushTo(StateAfter(s), bytes);
            var d := Decode(s + bytes);
            var added := Steps(Decode(s).(frames := []), bytes).frames;
            && d.frames == Decode(s).frames + added
            && (p.result.Ok? <==> |s + bytes| <= MAX_RESPONSE_BYTES && AllUtf8(added))
            && (p.result.Ok? ==> p.state == StateAfter(s + bytes) && p.result.value == added)
  {
    DecodeGoesOn(s, bytes);
    DrainGoesOn(s, bytes);
  }

  /** Decoding more bytes adds what they add to the open rest. */
  lemma DecodeGoesOn(s: seq<Byte>, bytes: seq<Byte>)
    ensures var more := Steps(Decode(s).(frames := []), bytes);
            Decode(s + bytes) == more.(frames := Decode(s).frames + more.frames)
  {
    DecodeIsSteps(s, bytes);
    StepsFrames(Decode(s).(frames := []), Decode(s).frames, bytes);
    assert Decode(s).frames + [] == Decode(s).frames;
  }

  /** So does draining the open rest with the bytes behind it. */
  lemma DrainGoesOn(s: seq<Byte>, bytes: seq<Byte>)
    ensures var drained := Drain(Decode(s).pending + bytes, Decode(s).lines);
            var more := Steps(Decode(s).(frames := []), bytes);
            && drained.ok == AllUtf8(more.frames)
            && (drained.ok ==> drained.pending == more.pending && drained.lines == more.lines && drained.frames == more.frames)
  {
    var d := Decode(s);
    var empty := Decoded([], d.lines, []);
    PendingHasNoLf(s);
    StepsWithin(empty, d.pending);
    assert [] + d.pending == d.pending;
    StepsConcat(empty, d.pending, bytes);
    DrainIsSteps(d.pending + bytes, d.lines);
  }

  /**
   * However a stream is cut into pushes: all of them succeed exactly when the stream is within the limit and its
   * frames are UTF-8, and then frames and state are those of the stream decoded at once.
   */
  lemma {:induction false} ChunkingDoesNotMatter(chunks: seq<seq<Byte>>)
    ensures var s := Concat(chunks);
            && (Pushes(chunks).Ok? <==> |s| <= MAX_RESPONSE_BYTES && AllUtf8(Decode(s).frames))
            && (Pushes(chunks).Ok? ==> Pushes(chunks).value == Run(StateAfter(s), Decode(s).frames))
  {
    if chunks == [] {
      assert Decode([]) == Decoded([], [], []);
    } else {
      var init, last := chunks[..|chunks| - 1], chunks[|chunks| - 1];
      ChunkingDoesNotMatter(init);
      PushContinues(Concat(init), last);
      var added := Steps(Decode(Concat(init)).(frames := []), last).frames;
      AllUtf8Concat(Decode(Concat(init)).frames, added);
    }
  }

  lemma AllUtf8Concat(a: seq<seq<Byte>>, b: seq<seq<Byte>>)
    ensures AllUtf8(a + b) <==> AllUtf8(a) && AllUtf8(b)
  {
    if AllUtf8(a + b) {
      forall f | f in a ensures IsUtf8(f) { assert f in a + b; }
      forall f | f in b ensures IsUtf8(f) { assert f in a + b; }
    }
  }

  /** One push of everything gives the same frames and state as any cutting, and fails exactly when the cutting does. */
  lemma SameAsOnePush(chunks: seq<seq<Byte>>)
    ensures Pushes(chunks).Ok? <==> Pushes([Concat(chunks)]).Ok?
    ensures Pushes(chunks).Ok? ==> Pushes(chunks) == Pushes([Concat(chunks)])
  {
    var s := Concat(chunks);
    var one: seq<seq<Byte>> := [s];
    assert one[..0] == [];
    assert Concat(one) == s;
    ChunkingDoesNotMatter(chunks);
    ChunkingDoesNotMatter([s]);
  }

  // ---- The end of the stream ----

  lemma StepsOne(d: Decoded, b: Byte)
    ensures Steps(d, [b]) == Step(d, b)
  {
    var one: seq<Byte> := [b];
    assert one[..0] == [];
    assert Steps(d, one[..0]) == d;
  }

  lemma StepsTwo(d: Decoded, a: Byte, b: Byte)
    ensures Steps(d, [a, b]) == Step(Step(d, a), b)
  {
    StepsConcat(d, [a], [b]);
    StepsOne(d, a);
    StepsOne(Step(d, a), b);
    assert [a] + [b] == [a, b];
  }

  /** Two line ends close at most one event. */
  lemma AtMostOneMore(d: Decoded)
    ensures var r := Steps(d, [LF, LF]);
            r.frames == d.frames || exists f :: r.frames == d.frames + [f]
  {
    StepsTwo(d, LF, LF);
    var one := StepLine(d, StripCr(d.pending));
    assert Step(d, LF) == one;
    assert StripCr([]) == [];
    if one.frames != d.frames {
      assert one.frames == d.frames + [Join(d.lines)];
    } else if Step(one, LF).frames != one.frames {
      assert Step(one, LF).frames == d.frames + [Join(one.lines)];
    }
  }

  /**
   * Finishing is the stream followed by two line ends: it adds at most one frame, and it fails exactly when the
   * stream already fills the whole limit or that frame is not UTF-8.
   */
  lemma FinishClosesTheStream(s: seq<Byte>)
    requires |s| <= MAX_RESPONSE_BYTES
    ensures var f := FinishOf(StateAfter(s));
            var whole := Decode(s + [LF, LF]).frames;
            var added := Steps(Decode(s).(frames := []), [LF, LF]).frames;
            && whole == Decode(s).frames + added && |added| <= 1
            && (f.result.Ok? <==> |s| < MAX_RESPONSE_BYTES && AllUtf8(added))
            && (f.result.Ok? ==> f.result.value == added)
  {
    var d := Decode(s).(frames := []);
    FinishIsTwoSteps(s);
    DecodeIsSteps(s, [LF, LF]);
    StepsFrames(d, Decode(s).frames, [LF, LF]);
    assert Decode(s).frames + [] == Decode(s).frames;
    AtMostOneMore(d);
  }

  lemma FinishIsTwoSteps(s: seq<Byte>)
    requires |s| <= MAX_RESPONSE_BYTES
    ensures var f := FinishOf(StateAfter(s));
            var added := Steps(Decode(s).(frames := []), [LF, LF]).frames;
            && (f.result.Ok? <==> |s| < MAX_RESPONSE_BYTES && AllUtf8(added))
            && (f.result.Ok? ==> f.result.value == added)
  {
    var d := Decode(s).(frames := []);
    StepsTwo(d, LF, LF);
    FinishFirst(s);
    var one := Step(d, LF);
    FinishSecond(one.lines, |s|);
    SecondStepFrames(one);
    AllUtf8Concat(one.frames, Step(one.(frames := []), LF).frames);
  }

  lemma SecondStepFrames(one: Decoded)
    requires one.pending == []
    ensures Step(one, LF).frames == one.frames + Step(Decoded([], one.lines, []), LF).frames
  {
    assert one.frames + [] == one.frames;
    assert StripCr([]) == [];
  }

  lemma FinishFirst(s: seq<Byte>)
    requires |s| <= MAX_RESPONSE_BYTES
    ensures var d := Decode(s).(frames := []);
            var one := Step(d, LF);
            var p := PushTo(StateAfter(s).(pending := Decode(s).pending + [LF]), []);
            && (p.result.Ok? <==> AllUtf8(one.frames))
            && (p.result.Ok? ==> p.state == State([], one.lines, |s|) && p.result.value == one.frames)
  {
    var d := Decode(s);
    var line := d.pending + [LF];
    PendingHasNoLf(s);
    assert line + [] == line;
    DrainIsSteps(line, d.lines);
    var empty := Decoded([], d.lines, []);
    StepsConcat(empty, d.pending, [LF]);
    StepsWithin(empty, d.pending);
    assert [] + d.pending == d.pending;
    assert [LF][..0] == [];
  }

  lemma FinishSecond(lines: seq<seq<Byte>>, received: nat)
    ensures var one := Decoded([], lines, []);
            var p := PushTo(State([], lines, received), [LF]);
            var r := Step(one, LF);
            && (p.result.Ok? <==> received < MAX_RESPONSE_BYTES && AllUtf8(r.frames))
            && (p.result.Ok? ==> p.result.value == r.frames)
  {
    assert [] + [LF] == [LF];
    DrainIsSteps([LF], lines);
    StepsOne(Decoded([], lines, []), LF);
  }

  // ---- The splitter loses nothing ----

  function Unsplit(p: Pieces<Byte>): seq<Byte> {
    Glue(p.closed) + p.rest
  }

  function Glue(lines: seq<seq<Byte>>): seq<Byte> {
    if lines == [] then [] else Glue(lines[..|lines| - 1]) + lines[|lines| - 1] + [LF]
  }

  /** The lines and the open rest, put together with line ends, are the stream; none of them holds a line end. */
  lemma {:induction false} LinesAreTheStream(s: seq<Byte>)
    ensures Unsplit(LinesOf(s)) == s
    ensures LF !in LinesOf(s).rest && forall l :: l in LinesOf(s).closed ==> LF !in l
  {
    if s != [] {
      var before := LinesOf(s[..|s| - 1]);
      LinesAreTheStream(s[..|s| - 1]);
      assert s == s[..|s| - 1] + [s[|s| - 1]];
      if s[|s| - 1] == LF {
        var closed := before.closed + [before.rest];
        assert closed[..|closed| - 1] == before.closed;
      }
    }
  }
}
