/** A reply cut into frames in any way is put together again, and exactly when it keeps the limits. */
module ReplyRoundTrip {
  import opened Contracts
  import opened Unicode
  import opened ReplyStream

  // ---- Cutting a reply into frames ----

  /** A piece of a tool call, and what one frame carries. */
  datatype Part = Part(index: nat, id: string, name: string, arguments: string)

  datatype Delta = Delta(text: string, parts: seq<Part>, model: Option<string>)

  /** The value gives the text; an empty text need not be there. */
  predicate IsText(v: Option<Value>, text: string) {
    if v.Some? && v.value.VString? then v.value.s == text else text == ""
  }

  /** What is printed under a key of an object; nothing for other values and other keys. */
  function Field(v: Value, key: string): Option<Value> {
    if v.VObject? && key in v.fields then Some(v.fields[key]) else None
  }

  predicate IsPiece(v: Value, part: Part) {
    && Field(v, "index") == Some(VInt(part.index)) && IsText(Field(v, "id"), part.id)
    && match Field(v, "function")
       case Some(f) => IsText(Field(f, "name"), part.name) && IsText(Field(f, "arguments"), part.arguments)
       case None => part.name == "" && part.arguments == ""
  }

  predicate ArePieces(pieces: seq<Value>, parts: seq<Part>) {
    |pieces| == |parts| && forall k :: 0 <= k < |parts| ==> IsPiece(pieces[k], parts[k])
  }

  /** The pieces of tool calls; none need not be there, or may be null. */
  predicate GivesParts(v: Option<Value>, parts: seq<Part>) {
    match v
    case None => parts == []
    case Some(VNull) => parts == []
    case Some(VArray(pieces)) => ArePieces(pieces, parts)
    case _ => false
  }

  predicate IsContents(v: Value, delta: Delta) {
    IsText(Field(v, "content"), delta.text) && GivesParts(Field(v, "tool_calls"), delta.parts)
  }

  /** No error, and a first choice with this delta; the model is named or not. */
  predicate IsValueOf(v: Value, delta: Delta) {
    && Field(v, "error") == None && delta.model == AsText(Field(v, "model"))
    && match Field(v, "choices")
       case Some(VArray(choices)) =>
         choices != [] && Field(choices[0], "delta").Some? && IsContents(Field(choices[0], "delta").value, delta)
       case _ => false
  }

  function AsText(v: Option<Value>): Option<string> {
    if v.Some? && v.value.VString? then Some(v.value.s) else None
  }

  const NOTHING: Delta := Delta("", [], None)

  /** A frame with this delta in it, however it is printed; the mark of the end carries nothing. */
  predicate Carries(frame: Frame, delta: Delta) {
    if frame.text == "[DONE]" then delta == NOTHING else frame.parsed.Some? && IsValueOf(frame.parsed.value, delta)
  }

  predicate AllCarry(frames: seq<Frame>, deltas: seq<Delta>) {
    |frames| == |deltas| && forall k :: 0 <= k < |frames| ==> Carries(frames[k], deltas[k])
  }

  // ---- The reply as a whole ----

  function AllText(deltas: seq<Delta>): string {
    if deltas == [] then "" else AllText(deltas[..|deltas| - 1]) + deltas[|deltas| - 1].text
  }

  /** The model named last. */
  function LastModel(deltas: seq<Delta>): string {
    if deltas == [] then ""
    else if deltas[|deltas| - 1].model.Some? then deltas[|deltas| - 1].model.value
    else LastModel(deltas[..|deltas| - 1])
  }

  /** The texts that are not empty. */
  function Texts(deltas: seq<Delta>): seq<string> {
    if deltas == [] then []
    else Texts(deltas[..|deltas| - 1]) + if deltas[|deltas| - 1].text == "" then [] else [deltas[|deltas| - 1].text]
  }

  function AllParts(deltas: seq<Delta>): seq<Part> {
    if deltas == [] then [] else AllParts(deltas[..|deltas| - 1]) + deltas[|deltas| - 1].parts
  }

  /** The parts of one call, joined. */
  function CallOf(parts: seq<Part>, index: nat): ToolCall {
    if parts == [] then ToolCall("", "", "")
    else
      var before, last := CallOf(parts[..|parts| - 1], index), parts[|parts| - 1];
      if last.index != index then before
      else ToolCall(before.id + last.id, before.name + last.name, before.arguments + last.arguments)
  }

  function Indexes(parts: seq<Part>): set<nat> {
    set p | p in parts :: p.index
  }

  function Calls(parts: seq<Part>): map<nat, ToolCall> {
    map i | i in Indexes(parts) :: CallOf(parts, i)
  }

  predicate CallFits(call: ToolCall) {
    Bytes(call.id) <= 128 && Bytes(call.arguments) <= 16 * 1024
  }

  predicate PartsFit(parts: seq<Part>) {
    forall i :: i in Indexes(parts) ==> i < 0x1_0000_0000_0000_0000 && CallFits(CallOf(parts, i))
  }

  // ---- Pieces ----

  lemma PieceIsRead(v: Value, part: Part)
    requires IsPiece(v, part)
    ensures IndexOf(v) == if part.index < 0x1_0000_0000_0000_0000 then Some(part.index) else None
    ensures IdPart(v) == part.id && (part.id != "" ==> HasId(v)) && NamePart(v) == part.name
    ensures ArgumentsPart(v) == part.arguments && (part.arguments != "" ==> HasArguments(v))
  {
  }

  lemma IndexesGrow(parts: seq<Part>, part: Part)
    ensures Indexes(parts + [part]) == Indexes(parts) + {part.index}
  {
    assert part in parts + [part];
    forall i ensures i in Indexes(parts + [part]) <==> i in Indexes(parts) || i == part.index {
      if i in Indexes(parts) {
        var p :| p in parts && p.index == i;
        assert p in parts + [part];
      }
    }
  }

  lemma {:induction false} NoPartsNoCall(parts: seq<Part>, index: nat)
    requires index !in Indexes(parts)
    ensures CallOf(parts, index) == ToolCall("", "", "")
  {
    if parts != [] {
      assert parts[|parts| - 1] in parts;
      assert forall p :: p in parts[..|parts| - 1] ==> p in parts;
      NoPartsNoCall(parts[..|parts| - 1], index);
    }
  }

  lemma CallsGrow(parts: seq<Part>, part: Part)
    ensures Calls(parts + [part]) == Calls(parts)[part.index := CallOf(parts + [part], part.index)]
    ensures CallAt(Calls(parts), part.index) == CallOf(parts, part.index)
  {
    IndexesGrow(parts, part);
    assert (parts + [part])[..|parts|] == parts;
    if part.index !in Indexes(parts) {
      NoPartsNoCall(parts, part.index);
    }
  }

  /** One more piece is taken exactly when its call stays within its limits. */
  lemma PieceIsTaken(parts: seq<Part>, piece: Value, part: Part)
    requires PartsFit(parts) && IsPiece(piece, part)
    ensures var r := AcceptPiece(Calls(parts), piece);
            && (r.Ok? <==> PartsFit(parts + [part]))
            && (r.Ok? ==> r.value == Calls(parts + [part]))
  {
    PieceIsRead(piece, part);
    CallsGrow(parts, part);
    FitsMore(parts, part);
    CallFitsNow(parts, part.index);
  }

  lemma CallFitsNow(parts: seq<Part>, index: nat)
    requires PartsFit(parts)
    ensures CallFits(CallOf(parts, index))
  {
    if index !in Indexes(parts) {
      NoPartsNoCall(parts, index);
    }
  }

  lemma FitsMore(parts: seq<Part>, part: Part)
    requires PartsFit(parts)
    ensures var call := CallOf(parts, part.index);
            PartsFit(parts + [part]) <==>
            && part.index < 0x1_0000_0000_0000_0000
            && Bytes(call.id) + Bytes(part.id) <= 128 && Bytes(call.arguments) + Bytes(part.arguments) <= 16 * 1024
    ensures CallOf(parts + [part], part.index) ==
            var call := CallOf(parts, part.index);
            ToolCall(call.id + part.id, call.name + part.name, call.arguments + part.arguments)
  {
    IndexesGrow(parts, part);
    assert (parts + [part])[..|parts|] == parts;
    var call := CallOf(parts, part.index);
    BytesConcat(call.id, part.id);
    BytesConcat(call.arguments, part.arguments);
    forall i | i != part.index ensures CallOf(parts + [part], i) == CallOf(parts, i) {}
  }

  /** Nor can later pieces mend what has gone over its limit. */
  lemma {:induction false} StaysUnfit(parts: seq<Part>, more: seq<Part>)
    requires !PartsFit(parts)
    ensures !PartsFit(parts + more)
    decreases |more|
  {
    if more == [] {
      assert parts + more == parts;
    } else {
      var init, last := more[..|more| - 1], more[|more| - 1];
      StaysUnfit(parts, init);
      assert parts + more == parts + init + [last];
      UnfitMore(parts + init, last);
    }
  }

  lemma UnfitMore(parts: seq<Part>, part: Part)
    requires !PartsFit(parts)
    ensures !PartsFit(parts + [part])
  {
    var i :| i in Indexes(parts) && !(i < 0x1_0000_0000_0000_0000 && CallFits(CallOf(parts, i)));
    IndexesGrow(parts, part);
    assert (parts + [part])[..|parts|] == parts;
    BytesConcat(CallOf(parts, i).id, part.id);
    BytesConcat(CallOf(parts, i).arguments, part.arguments);
    assert i in Indexes(parts + [part]);
  }

  lemma {:induction false} PiecesAreTaken(before: seq<Part>, pieces: seq<Value>, parts: seq<Part>)
    requires PartsFit(before) && ArePieces(pieces, parts)
    ensures var r := AcceptPieces(Calls(before), pieces);
            && (r.Ok? <==> PartsFit(before + parts))
            && (r.Ok? ==> r.value == Calls(before + parts))
    decreases |parts|
  {
    if parts == [] {
      assert before + parts == before;
    } else {
      var n := |parts| - 1;
      PiecesAreTaken(before, pieces[..n], parts[..n]);
      assert before + parts == before + parts[..n] + [parts[n]];
      if PartsFit(before + parts[..n]) {
        PieceIsTaken(before + parts[..n], pieces[n], parts[n]);
      } else {
        UnfitMore(before + parts[..n], parts[n]);
      }
    }
  }

  // ---- Frames ----

  lemma DeltaIsRead(v: Value, delta: Delta)
    requires IsValueOf(v, delta)
    ensures DeltaOf(v).Ok? && TextOf(DeltaOf(v).value) == delta.text
    ensures PiecesOf(DeltaOf(v).value).Ok? && ArePieces(PiecesOf(DeltaOf(v).value).value, delta.parts)
    ensures AsString(Get(v, "model")) == delta.model
  {
  }

  predicate Fits(deltas: seq<Delta>) {
    Bytes(AllText(deltas)) <= 2 * 1024 * 1024 && PartsFit(AllParts(deltas))
  }

  function Whole(deltas: seq<Delta>): Reply {
    Reply(AllText(deltas), LastModel(deltas), Calls(AllParts(deltas)))
  }

  lemma FrameIsTaken(deltas: seq<Delta>, frame: Frame, delta: Delta)
    requires Fits(deltas) && Carries(frame, delta)
    ensures var r := AcceptFrame(Whole(deltas), frame);
            && (r.Ok? <==> Fits(deltas + [delta]))
            && (r.Ok? ==> r.value.0 == Whole(deltas + [delta]) && Texts(deltas) + Emitted(r.value.1) == Texts(deltas + [delta]))
            && (r.Ok? ==> (r.value.1.done <==> frame.text == "[DONE]"))
  {
    assert (deltas + [delta])[..|deltas|] == deltas;
    if frame.text == "[DONE]" {
      assert AllText(deltas) + "" == AllText(deltas) && AllParts(deltas) + [] == AllParts(deltas);
    } else {
      DeltaIsTaken(deltas, frame.parsed.value, delta);
    }
  }

  lemma DeltaIsTaken(deltas: seq<Delta>, v: Value, delta: Delta)
    requires Fits(deltas) && IsValueOf(v, delta)
    ensures DeltaOf(v).Ok? && AsString(Get(v, "model")) == delta.model
    ensures var reply := Whole(deltas);
            var r := AcceptDelta(if delta.model.Some? then reply.(model := delta.model.value) else reply, DeltaOf(v).value);
            && (r.Ok? <==> Fits(deltas + [delta]))
            && (r.Ok? ==> r.value.0 == Whole(deltas + [delta])
                          && r.value.1 == Accepted(if delta.text != "" then Some(delta.text) else None, false))
  {
    DeltaIsRead(v, delta);
    PiecesAreTaken(AllParts(deltas), PiecesOf(DeltaOf(v).value).value, delta.parts);
    FitsNext(deltas, delta);
  }

  lemma FitsNext(deltas: seq<Delta>, delta: Delta)
    ensures Fits(deltas + [delta]) <==>
            Bytes(AllText(deltas)) + Bytes(delta.text) <= 2 * 1024 * 1024 && PartsFit(AllParts(deltas) + delta.parts)
    ensures Whole(deltas + [delta]) ==
            Reply(AllText(deltas) + delta.text, if delta.model.Some? then delta.model.value else LastModel(deltas),
                  Calls(AllParts(deltas) + delta.parts))
  {
    assert (deltas + [delta])[..|deltas|] == deltas;
    BytesConcat(AllText(deltas), delta.text);
  }

  lemma UnfitStays(deltas: seq<Delta>)
    requires deltas != [] && !Fits(deltas[..|deltas| - 1])
    ensures !Fits(deltas)
  {
    var init, last := deltas[..|deltas| - 1], deltas[|deltas| - 1];
    BytesConcat(AllText(init), last.text);
    if !PartsFit(AllParts(init)) {
      StaysUnfit(AllParts(init), last.parts);
    }
  }

  /** The frames are accepted exactly when the deltas fit, and then they make up the whole. */
  predicate MakeUp(frames: seq<Frame>, deltas: seq<Delta>) {
    && (Play(frames).Ok? <==> Fits(deltas))
    && (Play(frames).Ok? ==> Play(frames).value.reply == Whole(deltas) && Play(frames).value.deltas == Texts(deltas))
  }

  lemma OneMoreFrame(frames: seq<Frame>, deltas: seq<Delta>, n: nat)
    requires AllCarry(frames, deltas) && |frames| == n + 1 && MakeUp(frames[..n], deltas[..n])
    ensures MakeUp(frames, deltas)
  {
    assert deltas == deltas[..n] + [deltas[n]];
    if Fits(deltas[..n]) {
      FrameIsTaken(deltas[..n], frames[n], deltas[n]);
    } else {
      UnfitStays(deltas);
    }
  }

  /**
   * However a reply is cut into frames, it is accepted exactly when text, call IDs and arguments keep their limits,
   * and then it is the whole text, each call's parts in order and the model named last, shown text by text.
   */
  lemma {:induction false} CutReplyIsWhole(frames: seq<Frame>, deltas: seq<Delta>)
    requires AllCarry(frames, deltas)
    ensures MakeUp(frames, deltas)
  {
    if frames != [] {
      var n := |frames| - 1;
      CutReplyIsWhole(frames[..n], deltas[..n]);
      OneMoreFrame(frames, deltas, n);
    }
  }

  // ---- What is accepted at all ----

  lemma AcceptedPiece(calls: map<nat, ToolCall>, piece: Value) returns (part: Part)
    requires AcceptPiece(calls, piece).Ok?
    ensures IsPiece(piece, part)
  {
    part := Part(IndexOf(piece).value, IdPart(piece), NamePart(piece), ArgumentsPart(piece));
  }

  lemma {:induction false} AcceptedPieces(calls: map<nat, ToolCall>, pieces: seq<Value>) returns (parts: seq<Part>)
    requires AcceptPieces(calls, pieces).Ok?
    ensures ArePieces(pieces, parts)
  {
    if pieces == [] {
      parts := [];
    } else {
      var n := |pieces| - 1;
      var before := AcceptedPieces(calls, pieces[..n]);
      var part := AcceptedPiece(AcceptPieces(calls, pieces[..n]).value, pieces[n]);
      parts := before + [part];
    }
  }

  lemma AcceptedFrame(reply: Reply, frame: Frame) returns (delta: Delta)
    requires AcceptFrame(reply, frame).Ok?
    ensures Carries(frame, delta)
  {
    if frame.text == "[DONE]" {
      delta := NOTHING;
    } else {
      var v := frame.parsed.value;
      var contents := DeltaOf(v).value;
      var model := AsString(Get(v, "model"));
      var parts := AcceptedPieces(reply.calls, PiecesOf(contents).value);
      delta := Delta(TextOf(contents), parts, model);
    }
  }

  lemma {:induction false} AcceptedFrames(frames: seq<Frame>) returns (deltas: seq<Delta>)
    requires Play(frames).Ok?
    ensures AllCarry(frames, deltas)
  {
    if frames == [] {
      deltas := [];
    } else {
      var n := |frames| - 1;
      var before := AcceptedFrames(frames[..n]);
      var delta := AcceptedFrame(Play(frames[..n]).value.reply, frames[n]);
      deltas := before + [delta];
    }
  }

  /** Frames are accepted exactly when each carries something, or ends the stream, and together they keep the limits. */
  lemma AcceptedExactlyWhen(frames: seq<Frame>)
    ensures Play(frames).Ok? <==> exists deltas :: AllCarry(frames, deltas) && Fits(deltas)
  {
    if Play(frames).Ok? {
      var deltas := AcceptedFrames(frames);
      CutReplyIsWhole(frames, deltas);
    }
    if deltas :| AllCarry(frames, deltas) && Fits(deltas) {
      CutReplyIsWhole(frames, deltas);
    }
  }
}
