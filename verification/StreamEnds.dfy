/** Streams that are accepted while they run and fail at their end. */
module StreamEnds {
  import opened Contracts
  import opened SseFrames

  lemma {:induction false} OneOpenLine(s: seq<Byte>)
    requires LF !in s
    ensures LinesOf(s) == Pieces([], s)
  {
    if s != [] {
      var init, last := s[..|s| - 1], s[|s| - 1];
      assert s == init + [last] && last in s;
      OneOpenLine(init);
    }
  }

  lemma OpenLineDecodes(s: seq<Byte>)
    requires LF !in s
    ensures Decode(s) == Decoded(s, [], [])
  {
    OneOpenLine(s);
  }

  /** A stream that fills the limit is accepted, in one piece or any other way, and then cannot be finished. */
  lemma FullStreamCannotFinish(s: seq<Byte>, chunks: seq<seq<Byte>>)
    requires |s| == MAX_RESPONSE_BYTES && LF !in s && Concat(chunks) == s
    ensures Pushes(chunks).Ok? && FinishOf(StateAfter(s)).result.Err?
  {
    OpenLineDecodes(s);
    ChunkingDoesNotMatter(chunks);
    FinishClosesTheStream(s);
  }

  lemma FullStreamExists() returns (s: seq<Byte>)
    ensures |s| == MAX_RESPONSE_BYTES && LF !in s
  {
    var a: Byte := 97;
    s := seq(MAX_RESPONSE_BYTES, _ => a);
  }

  /** One open data line decodes, at its two line ends, to its value. */
  lemma OpenDataLine(tail: seq<Byte>)
    requires tail != [] && LF !in tail && CR !in tail && tail[0] != SPACE
    ensures Decode(DATA + tail).frames == []
    ensures Steps(Decode(DATA + tail).(frames := []), [LF, LF]).frames == [tail]
  {
    var s := DATA + tail;
    OpenLineDecodes(s);
    StepsTwo(Decoded(s, [], []), LF, LF);
    DataLineEnds(tail);
    BlankLineEnds(tail);
  }

  /** At its line end the data line becomes one value. */
  lemma DataLineEnds(tail: seq<Byte>)
    requires tail != [] && LF !in tail && CR !in tail && tail[0] != SPACE
    ensures Step(Decoded(DATA + tail, [], []), LF) == Decoded([], [tail], [])
  {
    var s := DATA + tail;
    assert StripCr(s) == s && s[|DATA|..] == tail;
    assert DataOf(s) == [tail] && [] + [tail] == [tail];
  }

  lemma BlankLineEnds(value: seq<Byte>)
    ensures Step(Decoded([], [value], []), LF).frames == [value]
  {
    assert StripCr([]) == [];
  }

  /** An open data line that is not UTF-8 is accepted while the stream runs and fails at its end. */
  lemma BrokenTailCannotFinish(tail: seq<Byte>)
    requires tail != [] && |tail| < 100 && LF !in tail && CR !in tail && tail[0] != SPACE && !IsUtf8(tail)
    ensures Pushes([DATA + tail]).Ok? && FinishOf(StateAfter(DATA + tail)).result.Err?
  {
    var s := DATA + tail;
    var one: seq<seq<Byte>> := [s];
    assert one[..0] == [] && Concat(one) == s;
    OpenDataLine(tail);
    ChunkingDoesNotMatter(one);
    FinishClosesTheStream(s);
    assert tail in Steps(Decode(s).(frames := []), [LF, LF]).frames;
  }

  /** The byte 255 is such a line. */
  lemma BrokenTailExists()
    ensures Pushes([DATA + [255]]).Ok? && FinishOf(StateAfter(DATA + [255])).result.Err?
  {
    var tail: seq<Byte> := [255];
    BrokenTailCannotFinish(tail);
  }
}
