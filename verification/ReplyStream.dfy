/** Assembling a streamed reply from its frames: the text and the tool calls arrive in pieces. */
module ReplyStream {
  import opened Contracts
  import opened Unicode

  const MAX_RESPONSE_BYTES: nat := 2 * 1024 * 1024
  const MAX_ID_BYTES: nat := 128
  const MAX_ARGUMENT_BYTES: nat := 16 * 1024

  /** A parsed JSON value; whole numbers are kept apart from others. */
  datatype Value =
    | VNull
    | VBool(b: bool)
    | VInt(i: int)
    | VFloat(r: real)
    | VString(s: string)
    | VArray(elements: seq<Value>)
    | VObject(fields: map<string, Value>)

  datatype ToolCall = ToolCall(id: string, name: string, arguments: string)

  datatype Reply = Reply(content: string, model: string, calls: map<nat, ToolCall>)

  datatype FrameError =
    | InvalidJson | ServiceError | NoChoices | NoDelta | NoIndex
    | IdTooLarge | ArgumentsTooLarge | BadToolCalls | ReplyTooLarge

  /** A frame with its parsed form, absent when it is not JSON. */
  datatype Frame = Frame(text: string, parsed: Option<Value>)

  datatype Accepted = Accepted(delta: Option<string>, done: bool)

  // ---- Reading values ----

  function Get(v: Value, key: string): Option<Value> {
    if v.VObject? && key in v.fields then Some(v.fields[key]) else None
  }

  function AsString(v: Option<Value>): Option<string> {
    if v.Some? && v.value.VString? then Some(v.value.s) else None
  }

  function AsArray(v: Option<Value>): Option<seq<Value>> {
    if v.Some? && v.value.VArray? then Some(v.value.elements) else None
  }

  function AsU64(v: Option<Value>): Option<nat> {
    if v.Some? && v.value.VInt? && 0 <= v.value.i < 0x1_0000_0000_0000_0000 then Some(v.value.i) else None
  }

  function OrEmpty(s: Option<string>): string {
    if s.Some? then s.value else ""
  }

  // ---- Specification: the pieces of tool calls ----

  function IndexOf(piece: Value): Option<nat> { AsU64(Get(piece, "index")) }

  function IdPart(piece: Value): string { OrEmpty(AsString(Get(piece, "id"))) }

  function NamePart(piece: Value): string {
    match Get(piece, "function")
    case Some(f) => OrEmpty(AsString(Get(f, "name")))
    case None => ""
  }

  function ArgumentsPart(piece: Value): string {
    match Get(piece, "function")
    case Some(f) => OrEmpty(AsString(Get(f, "arguments")))
    case None => ""
  }

  function CallAt(calls: map<nat, ToolCall>, index: nat): ToolCall {
    if index in calls then calls[index] else ToolCall("", "", "")
  }

  function Extended(call: ToolCall, piece: Value): ToolCall {
    ToolCall(call.id + IdPart(piece), call.name + NamePart(piece), call.arguments + ArgumentsPart(piece))
  }

  predicate HasId(piece: Value) { AsString(Get(piece, "id")).Some? }

  predicate HasArguments(piece: Value) {
    Get(piece, "function").Some? && AsString(Get(Get(piece, "function").value, "arguments")).Some?
  }

  function AcceptPiece(calls: map<nat, ToolCall>, piece: Value): Result<map<nat, ToolCall>, FrameError> {
    match IndexOf(piece)
    case None => Err(NoIndex)
    case Some(index) =>
      var call := CallAt(calls, index);
      if HasId(piece) && Bytes(call.id) + Bytes(IdPart(piece)) > MAX_ID_BYTES then Err(IdTooLarge)
      else if HasArguments(piece) && Bytes(call.arguments) + Bytes(ArgumentsPart(piece)) > MAX_ARGUMENT_BYTES
      then Err(ArgumentsTooLarge)
      else Ok(calls[index := Extended(call, piece)])
  }

  function AcceptPieces(calls: map<nat, ToolCall>, pieces: seq<Value>): Result<map<nat, ToolCall>, FrameError> {
    if pieces == [] then Ok(calls)
    else
      match AcceptPieces(calls, pieces[..|pieces| - 1])
      case Err(e) => Err(e)
      case Ok(before) => AcceptPiece(before, pieces[|pieces| - 1])
  }

  // ---- Specification: one frame ----

  /** The delta object of a frame's first choice. */
  function DeltaOf(value: Value): Result<Value, FrameError> {
    if Get(value, "error").Some? then Err(ServiceError)
    else
      match AsArray(Get(value, "choices"))
      case None => Err(NoChoices)
      case Some(choices) =>
        if choices == [] then Err(NoChoices)
        else
          match Get(choices[0], "delta")
          case None => Err(NoDelta)
          case Some(delta) => Ok(delta)
  }

  /** The tool-call pieces of a delta; null and absence mean none. */
  function PiecesOf(delta: Value): Result<seq<Value>, FrameError> {
    match AsArray(Get(delta, "tool_calls"))
    case Some(pieces) => Ok(pieces)
    case None =>
      if Get(delta, "tool_calls").Some? && Get(delta, "tool_calls") != Some(VNull) then Err(BadToolCalls) else Ok([])
  }

  function TextOf(delta: Value): string {
    OrEmpty(AsString(Get(delta, "content")))
  }

  function AcceptDelta(reply: Reply, delta: Value): Result<(Reply, Accepted), FrameError> {
    match PiecesOf(delta)
    case Err(e) => Err(e)
    case Ok(pieces) =>
      match AcceptPieces(reply.calls, pieces)
      case Err(e) => Err(e)
      case Ok(calls) =>
        var text := TextOf(delta);
        if Bytes(reply.content) + Bytes(text) > MAX_RESPONSE_BYTES then Err(ReplyTooLarge)
        else
          Ok((reply.(content := reply.content + text, calls := calls),
              Accepted(if text != "" then Some(text) else None, false)))
  }

  function AcceptFrame(reply: Reply, frame: Frame): Result<(Reply, Accepted), FrameError> {
    if frame.text == "[DONE]" then Ok((reply, Accepted(None, true)))
    else
      match frame.parsed
      case None => Err(InvalidJson)
      case Some(value) =>
        match DeltaOf(value)
        case Err(e) => Err(e)
        case Ok(delta) =>
          var model := AsString(Get(value, "model"));
          AcceptDelta(if model.Some? then reply.(model := model.value) else reply, delta)
  }

  // ---- The accumulator ----

  class ReplyBuilder {
    var content: string
    var model: string
    var calls: map<nat, ToolCall>

    constructor ()
      ensures Now() == EMPTY
    {
      content, model, calls := "", "", map[];
    }

    function Now(): Reply
      reads this
    {
      Reply(content, model, calls)
    }

    method TakePiece(piece: Value) returns (error: Option<FrameError>)
      modifies this`calls
      ensures var r := AcceptPiece(old(calls), piece);
              error == (if r.Err? then Some(r.error) else None) && (r.Ok? ==> calls == r.value)
    {
      var index := AsU64(Get(piece, "index"));
      if index.None? {
        return Some(NoIndex);
      }
      var call := CallAt(calls, index.value);
      calls := calls[index.value := call];
      var id := AsString(Get(piece, "id"));
      if id.Some? {
        if Bytes(call.id) + Bytes(id.value) > MAX_ID_BYTES {
          return Some(IdTooLarge);
        }
        call := call.(id := call.id + id.value);
      }
      var callee := Get(piece, "function");
      if callee.Some? {
        var name := AsString(Get(callee.value, "name"));
        if name.Some? {
          call := call.(name := call.name + name.value);
        }
        var arguments := AsString(Get(callee.value, "arguments"));
        if arguments.Some? {
          if Bytes(call.arguments) + Bytes(arguments.value) > MAX_ARGUMENT_BYTES {
            return Some(ArgumentsTooLarge);
          }
          call := call.(arguments := call.arguments + arguments.value);
        }
      }
      ExtendedByParts(CallAt(old(calls), index.value), piece);
      calls := calls[index.value := call];
      return None;
    }

    method TakePieces(pieces: seq<Value>) returns (error: Option<FrameError>)
      modifies this`calls
      ensures var r := AcceptPieces(old(calls), pieces);
              error == (if r.Err? then Some(r.error) else None) && (r.Ok? ==> calls == r.value)
    {
      for k := 0 to |pieces|
        invariant AcceptPieces(old(calls), pieces[..k]) == Ok(calls)
      {
        assert pieces[..k + 1][..k] == pieces[..k];
        error := TakePiece(pieces[k]);
        if error.Some? {
          FirstErrorStays(old(calls), pieces, k + 1);
          return;
        }
      }
      assert pieces[..|pieces|] == pieces;
      return None;
    }

    method Accept(frame: Frame) returns (result: Result<Accepted, FrameError>)
      modifies this
      ensures var r := AcceptFrame(old(Now()), frame);
              if r.Err? then result == Err(r.error) && content == old(content)
              else result == Ok(r.value.1) && Now() == r.value.0
    {
      if frame.text == "[DONE]" {
        return Ok(Accepted(None, true));
      }
      if frame.parsed.None? {
        return Err(InvalidJson);
      }
      var value := frame.parsed.value;
      if Get(value, "error").Some? {
        return Err(ServiceError);
      }
      var name := AsString(Get(value, "model"));
      if name.Some? {
        model := name.value;
      }
      var found := DeltaOf(value);
      if found.Err? {
        return Err(found.error);
      }
      var delta := found.value;
      var pieces := PiecesOf(delta);
      if pieces.Err? {
        return Err(pieces.error);
      }
      var error := TakePieces(pieces.value);
      if error.Some? {
        return Err(error.value);
      }
      var text := TextOf(delta);
      if Bytes(content) + Bytes(text) > MAX_RESPONSE_BYTES {
        return Err(ReplyTooLarge);
      }
      content := content + text;
      return Ok(Accepted(if text != "" then Some(text) else None, false));
    }
  }

  const EMPTY: Reply := Reply("", "", map[])

  lemma ExtendedByParts(call: ToolCall, piece: Value)
    ensures !HasId(piece) ==> Extended(call, piece).id == call.id
    ensures !HasArguments(piece) ==> Extended(call, piece).arguments == call.arguments
    ensures NamePart(piece) == "" ==> Extended(call, piece).name == call.name
  {
    assert call.id + "" == call.id && call.arguments + "" == call.arguments && call.name + "" == call.name;
  }

  lemma {:induction false} FirstErrorStays(calls: map<nat, ToolCall>, pieces: seq<Value>, k: nat)
    requires k <= |pieces| && AcceptPieces(calls, pieces[..k]).Err?
    ensures AcceptPieces(calls, pieces) == AcceptPieces(calls, pieces[..k])
    decreases |pieces|
  {
    if k == |pieces| {
      assert pieces[..k] == pieces;
    } else {
      var init := pieces[..|pieces| - 1];
      assert init[..k] == pieces[..k];
      FirstErrorStays(calls, init, k);
    }
  }

  // ---- Whole replies ----

  datatype Progress = Progress(reply: Reply, deltas: seq<string>, pieces: seq<Value>)

  function Emitted(a: Accepted): seq<string> {
    if a.delta.Some? then [a.delta.value] else []
  }

  function FramePieces(frame: Frame): seq<Value> {
    if frame.text == "[DONE]" || frame.parsed.None? then []
    else
      match DeltaOf(frame.parsed.value)
      case Err(_) => []
      case Ok(delta) => if PiecesOf(delta).Ok? then PiecesOf(delta).value else []
  }

  /** All frames in order; the first error ends the reply. */
  function Play(frames: seq<Frame>): Result<Progress, FrameError> {
    if frames == [] then Ok(Progress(EMPTY, [], []))
    else
      var last := frames[|frames| - 1];
      match Play(frames[..|frames| - 1])
      case Err(e) => Err(e)
      case Ok(p) =>
        match AcceptFrame(p.reply, last)
        case Err(e) => Err(e)
        case Ok(r) => Ok(Progress(r.0, p.deltas + Emitted(r.1), p.pieces + FramePieces(last)))
  }

  function Concat(parts: seq<string>): string {
    if parts == [] then "" else Concat(parts[..|parts| - 1]) + parts[|parts| - 1]
  }

  /** The text of a reply is what its frames emitted, in order, and it stays within the limit. */
  lemma {:induction false} ContentIsTheDeltas(frames: seq<Frame>)
    requires Play(frames).Ok?
    ensures var p := Play(frames).value;
            p.reply.content == Concat(p.deltas) && Bytes(p.reply.content) <= MAX_RESPONSE_BYTES
  {
    if frames != [] {
      var last := frames[|frames| - 1];
      var p := Play(frames[..|frames| - 1]).value;
      ContentIsTheDeltas(frames[..|frames| - 1]);
      ContentGrows(p.reply, last);
      var r := AcceptFrame(p.reply, last).value;
      if r.1.delta.Some? {
        assert (p.deltas + [r.1.delta.value])[..|p.deltas|] == p.deltas;
      } else {
        assert p.deltas + [] == p.deltas;
      }
    }
  }

  lemma ContentGrows(reply: Reply, frame: Frame)
    requires AcceptFrame(reply, frame).Ok? && Bytes(reply.content) <= MAX_RESPONSE_BYTES
    ensures var r := AcceptFrame(reply, frame).value;
            && r.0.content == reply.content + (if r.1.delta.Some? then r.1.delta.value else "")
            && Bytes(r.0.content) <= MAX_RESPONSE_BYTES
  {
    assert reply.content + "" == reply.content;
    if frame.text != "[DONE]" {
      BytesConcat(reply.content, TextOf(DeltaOf(frame.parsed.value).value));
    }
  }

  /** The pieces of one tool call. */
  function Own(pieces: seq<Value>, index: nat): seq<Value> {
    if pieces == [] then []
    else
      var last := pieces[|pieces| - 1];
      Own(pieces[..|pieces| - 1], index) + if IndexOf(last) == Some(index) then [last] else []
  }

  function Merged(pieces: seq<Value>): ToolCall {
    if pieces == [] then ToolCall("", "", "") else Extended(Merged(pieces[..|pieces| - 1]), pieces[|pieces| - 1])
  }

  /** Each call is made of exactly its own pieces in order, and no call is without pieces. */
  ghost predicate AreMerged(calls: map<nat, ToolCall>, pieces: seq<Value>) {
    && (forall index :: index in calls ==> calls[index] == Merged(Own(pieces, index)))
    && (forall index: nat :: Own(pieces, index) != [] ==> index in calls)
  }

  predicate WithinLimits(calls: map<nat, ToolCall>) {
    forall index :: index in calls ==>
      Bytes(calls[index].id) <= MAX_ID_BYTES && Bytes(calls[index].arguments) <= MAX_ARGUMENT_BYTES
  }

  ghost predicate AreSound(calls: map<nat, ToolCall>, pieces: seq<Value>) {
    AreMerged(calls, pieces) && WithinLimits(calls)
  }

  lemma PieceMerges(calls: map<nat, ToolCall>, pieces: seq<Value>, piece: Value)
    requires AreSound(calls, pieces) && AcceptPiece(calls, piece).Ok?
    ensures AreSound(AcceptPiece(calls, piece).value, pieces + [piece])
  {
    var at := IndexOf(piece).value;
    var after := AcceptPiece(calls, piece).value;
    PieceStaysWithin(CallAt(calls, at), piece);
    forall index | index in after ensures after[index] == Merged(Own(pieces + [piece], index)) {
      OwnAfter(pieces, piece, index);
      if index == at {
        assert CallAt(calls, at) == Merged(Own(pieces, at));
        MergedAfter(Own(pieces, at), piece);
      }
    }
    forall index: nat | Own(pieces + [piece], index) != [] ensures index in after {
      OwnAfter(pieces, piece, index);
    }
  }

  lemma OwnAfter(pieces: seq<Value>, piece: Value, index: nat)
    ensures Own(pieces + [piece], index) == if IndexOf(piece) == Some(index) then Own(pieces, index) + [piece] else Own(pieces, index)
  {
    assert (pieces + [piece])[..|pieces|] == pieces;
    assert Own(pieces, index) + [] == Own(pieces, index);
  }

  lemma MergedAfter(own: seq<Value>, piece: Value)
    ensures Merged(own + [piece]) == Extended(Merged(own), piece)
  {
    assert (own + [piece])[..|own|] == own;
  }

  lemma PieceStaysWithin(call: ToolCall, piece: Value)
    requires Bytes(call.id) <= MAX_ID_BYTES && Bytes(call.arguments) <= MAX_ARGUMENT_BYTES
    requires HasId(piece) ==> Bytes(call.id) + Bytes(IdPart(piece)) <= MAX_ID_BYTES
    requires HasArguments(piece) ==> Bytes(call.arguments) + Bytes(ArgumentsPart(piece)) <= MAX_ARGUMENT_BYTES
    ensures Bytes(Extended(call, piece).id) <= MAX_ID_BYTES
    ensures Bytes(Extended(call, piece).arguments) <= MAX_ARGUMENT_BYTES
  {
    BytesConcat(call.id, IdPart(piece));
    BytesConcat(call.arguments, ArgumentsPart(piece));
    assert call.id + "" == call.id && call.arguments + "" == call.arguments;
  }

  lemma {:induction false} PiecesMerge(calls: map<nat, ToolCall>, before: seq<Value>, pieces: seq<Value>)
    requires AreSound(calls, before) && AcceptPieces(calls, pieces).Ok?
    ensures AreSound(AcceptPieces(calls, pieces).value, before + pieces)
    decreases |pieces|
  {
    if pieces == [] {
      assert before + pieces == before;
    } else {
      var init, last := pieces[..|pieces| - 1], pieces[|pieces| - 1];
      PiecesMerge(calls, before, init);
      PieceMerges(AcceptPieces(calls, init).value, before + init, last);
      AppendLast(before, pieces);
    }
  }

  lemma AppendLast<T>(a: seq<T>, b: seq<T>)
    requires b != []
    ensures a + b == a + b[..|b| - 1] + [b[|b| - 1]]
  {
  }

  /** The tool calls of a reply are the pieces of all its frames, put together call by call, within their limits. */
  lemma {:induction false} CallsAreTheirPieces(frames: seq<Frame>)
    requires Play(frames).Ok?
    ensures var p := Play(frames).value; AreSound(p.reply.calls, p.pieces)
  {
    if frames != [] {
      var last := frames[|frames| - 1];
      var p := Play(frames[..|frames| - 1]).value;
      CallsAreTheirPieces(frames[..|frames| - 1]);
      FrameCalls(p.reply, last);
      PiecesMerge(p.reply.calls, p.pieces, FramePieces(last));
    }
  }

  lemma FrameCalls(reply: Reply, frame: Frame)
    requires AcceptFrame(reply, frame).Ok?
    ensures AcceptPieces(reply.calls, FramePieces(frame)) == Ok(AcceptFrame(reply, frame).value.0.calls)
  {
  }
}
