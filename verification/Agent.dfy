/** The bounded agent loop and the gateway's check of every request it sends. */
module Agent {
  import opened Contracts
  import opened Strings
  import opened Unicode

  const MAX_REQUEST_BYTES: nat := 48 * 1024
  const MAX_MESSAGES: nat := 64
  const MAX_CALLS_PER_MESSAGE: nat := 4
  const MAX_MODEL_CALLS: nat := 6
  const MAX_TOOL_CALLS: nat := 12
  const MAX_HISTORY: nat := 22
  const MAX_CALL_ID_BYTES: nat := 128
  const MAX_TOOL_RESULT_BYTES: nat := 12 * 1024

  // ---- Messages ----

  datatype ToolCall = ToolCall(id: string, name: string, arguments: string)

  datatype Message = Message(
    role: string, content: string, calls: Option<seq<ToolCall>>, toolCallId: Option<string>, name: Option<string>)

  function Plain(role: string, content: string): Message {
    Message(role, content, None, None, None)
  }

  // ---- Sizes as JSON ----

  /** Bytes of one character inside a JSON string. */
  function EscapedLen(c: char): nat {
    if c == '"' || c == '\\' || c == '\n' || c == '\r' || c == '\t' || c == '\U{8}' || c == '\U{C}' then 2
    else if c < ' ' then 6
    else Utf8Len(c)
  }

  function EscapedBytes(s: string): nat {
    if s == "" then 0 else EscapedBytes(s[..|s| - 1]) + EscapedLen(s[|s| - 1])
  }

  function JsonString(s: string): nat {
    EscapedBytes(s) + 2
  }

  /** `{"id":…,"type":"function","function":{"name":…,"arguments":…}}` */
  function JsonCall(c: ToolCall): nat {
    6 + JsonString(c.id) + 18 + 12 + 8 + JsonString(c.name) + 13 + JsonString(c.arguments) + 2
  }

  function JsonCalls(cs: seq<ToolCall>): nat {
    if cs == [] then 0 else JsonCalls(cs[..|cs| - 1]) + JsonCall(cs[|cs| - 1]) + if |cs| > 1 then 1 else 0
  }

  function JsonOptional(before: nat, s: Option<string>): nat {
    if s.Some? then before + JsonString(s.value) else 0
  }

  /** The message as an object; absent fields are left out. */
  function JsonMessage(m: Message): nat {
    8 + JsonString(m.role) + 11 + JsonString(m.content)
    + (if m.calls.Some? then 14 + 2 + JsonCalls(m.calls.value) else 0)
    + JsonOptional(16, m.toolCallId) + JsonOptional(8, m.name) + 1
  }

  function JsonMessages(ms: seq<Message>): nat {
    if ms == [] then 0 else JsonMessages(ms[..|ms| - 1]) + JsonMessage(ms[|ms| - 1]) + if |ms| > 1 then 1 else 0
  }

  // ---- The gateway's check ----

  datatype GatewayError = BadCount | BadRole | BadCalls | NoCallId | TooLarge

  predicate IsRole(role: string) {
    role == "system" || role == "user" || role == "assistant" || role == "tool"
  }

  function CallBytes(m: Message): nat {
    if m.calls.Some? then 2 + JsonCalls(m.calls.value) else 0
  }

  function MessageBytes(m: Message): nat {
    Bytes(m.content) + CallBytes(m)
  }

  function TotalBytes(ms: seq<Message>): nat {
    if ms == [] then 0 else TotalBytes(ms[..|ms| - 1]) + MessageBytes(ms[|ms| - 1])
  }

  predicate IsMessage(m: Message) {
    && IsRole(m.role)
    && (m.calls.Some? ==> m.role == "assistant" && |m.calls.value| <= MAX_CALLS_PER_MESSAGE)
    && (m.role == "tool" ==> m.toolCallId.Some? && m.toolCallId.value != "")
  }

  predicate PassesGateway(ms: seq<Message>) {
    && 0 < |ms| <= MAX_MESSAGES
    && (forall i :: 0 <= i < |ms| ==> IsMessage(ms[i]))
    && TotalBytes(ms) <= MAX_REQUEST_BYTES
  }

  method ValidateMessages(ms: seq<Message>) returns (error: Option<GatewayError>)
    ensures error.None? <==> PassesGateway(ms)
  {
    if ms == [] || |ms| > MAX_MESSAGES {
      return Some(BadCount);
    }
    var bytes := 0;
    for i := 0 to |ms|
      invariant forall k :: 0 <= k < i ==> IsMessage(ms[k])
      invariant bytes == TotalBytes(ms[..i]) && bytes <= MAX_REQUEST_BYTES
    {
      assert ms[..i + 1][..i] == ms[..i];
      var m := ms[i];
      if !IsRole(m.role) {
        return Some(BadRole);
      }
      if m.calls.Some? && (m.role != "assistant" || |m.calls.value| > MAX_CALLS_PER_MESSAGE) {
        return Some(BadCalls);
      }
      bytes := bytes + MessageBytes(m);
      if m.role == "tool" && (m.toolCallId.None? || m.toolCallId.value == "") {
        return Some(NoCallId);
      }
      if bytes > MAX_REQUEST_BYTES {
        BytesGrow(ms, i + 1);
        return Some(TooLarge);
      }
    }
    assert ms[..|ms|] == ms;
    return None;
  }

  lemma {:induction false} BytesGrow(ms: seq<Message>, n: nat)
    requires n <= |ms|
    ensures TotalBytes(ms[..n]) <= TotalBytes(ms)
    decreases |ms|
  {
    if n == |ms| {
      assert ms[..n] == ms;
    } else {
      assert ms[..|ms| - 1][..n] == ms[..n];
      BytesGrow(ms[..|ms| - 1], n);
    }
  }

  lemma {:induction false} EscapingNeverShortens(s: string)
    ensures Bytes(s) <= EscapedBytes(s)
  {
    if s != "" {
      EscapingNeverShortens(s[..|s| - 1]);
    }
  }

  /** The gateway counts no more than the request is as JSON, so the loop's own budget is enough. */
  lemma {:induction false} GatewayCountsNoMore(ms: seq<Message>)
    ensures TotalBytes(ms) <= JsonMessages(ms)
  {
    if ms != [] {
      GatewayCountsNoMore(ms[..|ms| - 1]);
      EscapingNeverShortens(ms[|ms| - 1].content);
    }
  }

  // ---- The first request ----

  datatype Stored = Stored(role: string, text: string)

  function Conversation(items: seq<Stored>): seq<Message> {
    if items == [] then []
    else
      var last := items[|items| - 1];
      Conversation(items[..|items| - 1]) + if last.role == "user" || last.role == "assistant" then [Plain(last.role, last.text)] else []
  }

  function LastOf<T>(s: seq<T>, n: nat): seq<T> {
    if |s| <= n then s else s[|s| - n..]
  }

  /** None when the last stored message is not the user's, or the policy or the user's text is refused. */
  function BuildMessages(stored: seq<Stored>, system: Option<string>, user: Option<string>): Option<seq<Message>> {
    if stored == [] || stored[|stored| - 1].role != "user" || system.None? || user.None? then None
    else
      Some([Plain("system", system.value)] + LastOf(Conversation(stored[..|stored| - 1]), MAX_HISTORY)
           + [Plain("user", user.value)])
  }

  predicate IsFirstRequest(ms: seq<Message>) {
    && 0 < |ms| <= MAX_HISTORY + 2
    && forall i :: 0 <= i < |ms| ==> IsMessage(ms[i]) && ms[i].calls.None? && ms[i].role != "tool"
  }

  lemma {:induction false} ConversationIsPlain(items: seq<Stored>)
    ensures forall i :: 0 <= i < |Conversation(items)| ==>
              IsMessage(Conversation(items)[i]) && Conversation(items)[i].calls.None? && Conversation(items)[i].role != "tool"
  {
    if items != [] {
      ConversationIsPlain(items[..|items| - 1]);
    }
  }

  lemma BuiltIsFirstRequest(stored: seq<Stored>, system: Option<string>, user: Option<string>)
    requires BuildMessages(stored, system, user).Some?
    ensures IsFirstRequest(BuildMessages(stored, system, user).value)
  {
    ConversationIsPlain(stored[..|stored| - 1]);
  }

  // ---- Specification of the loop ----

  datatype Reply = Reply(content: string, model: string, calls: seq<ToolCall>)

  /** A tool's answer as text, whether it blames the arguments, and the suggestion it adds, if any. */
  datatype ToolResult = ToolResult(content: string, invalid: bool, draft: Option<string>)

  /** Cancellation and time at each point, the model, the tools, and how suggestions are printed. */
  datatype World = World(
    stopsBefore: nat -> bool, stopsAfter: nat -> bool, stopsAtTool: nat -> bool,
    model: seq<Message> -> Option<Reply>, tool: (ToolCall, nat) -> ToolResult, printed: seq<string> -> string)

  datatype RunError =
    | Stopped | ContextTooLarge | TransportFailed | ToolsOff | TooManyCalls | BadCallId
    | InvalidTwice | ResultTooLarge | TooManyTurns

  datatype Run = Run(
    messages: seq<Message>, seen: set<string>, transcript: seq<string>, drafts: seq<string>,
    toolCalls: nat, modelCalls: nat, invalid: nat, requests: seq<seq<Message>>)

  datatype Finished = Finished(content: string, model: string, modelCalls: nat, toolCalls: nat, drafts: seq<string>)

  datatype Outcome = Going(run: Run) | Done(run: Run, result: Finished) | Failed(run: Run, error: RunError)

  function StartRun(messages: seq<Message>): Run {
    Run(messages, {}, [], [], 0, 0, 0, [])
  }

  function JoinText(parts: seq<string>): string {
    if parts == [] then ""
    else if |parts| == 1 then parts[0]
    else JoinText(parts[..|parts| - 1]) + "\n\n" + parts[|parts| - 1]
  }

  function Ending(r: Run, model: string, w: World): Finished {
    Finished(JoinText(r.transcript) + (if r.drafts == [] then "" else w.printed(r.drafts)),
             model, r.modelCalls, r.toolCalls, r.drafts)
  }

  predicate IsCallId(id: string) {
    id != "" && Bytes(id) <= MAX_CALL_ID_BYTES
  }

  /** The IDs seen after a reply; none when one is malformed or was seen before. */
  function SeenAfter(calls: seq<ToolCall>, seen: set<string>): Option<set<string>> {
    if calls == [] then Some(seen)
    else
      match SeenAfter(calls[..|calls| - 1], seen)
      case None => None
      case Some(before) =>
        var id := calls[|calls| - 1].id;
        if !IsCallId(id) || id in before then None else Some(before + {id})
  }

  function AssistantMessage(reply: Reply): Message {
    Message("assistant", reply.content, Some(reply.calls), None, None)
  }

  function ToolMessage(call: ToolCall, content: string): Message {
    Message("tool", content, None, Some(call.id), Some(call.name))
  }

  function RunTool(r: Run, call: ToolCall, at: nat, w: World): Outcome {
    if w.stopsAtTool(at) then Failed(r, Stopped)
    else
      var result := w.tool(call, |r.drafts|);
      var drafts := if result.draft.Some? then r.drafts + [result.draft.value] else r.drafts;
      var invalid := if result.invalid then r.invalid + 1 else r.invalid;
      var after := r.(drafts := drafts, invalid := invalid);
      if result.invalid && invalid > 1 then Failed(after, InvalidTwice)
      else if Bytes(result.content) > MAX_TOOL_RESULT_BYTES then Failed(after, ResultTooLarge)
      else Going(after.(messages := r.messages + [ToolMessage(call, result.content)]))
  }

  /** The tools of one reply in order; `at` numbers them over the whole run. */
  function RunTools(r: Run, calls: seq<ToolCall>, at: nat, w: World): Outcome {
    if calls == [] then Going(r)
    else
      match RunTools(r, calls[..|calls| - 1], at, w)
      case Going(before) => RunTool(before, calls[|calls| - 1], at + |calls| - 1, w)
      case other => other
  }

  function OnReply(r: Run, reply: Reply, toolsEnabled: bool, w: World): Outcome {
    var heard := if IsBlank(reply.content) then r else r.(transcript := r.transcript + [reply.content]);
    if !toolsEnabled && reply.calls != [] then Failed(heard, ToolsOff)
    else if reply.calls == [] then Done(heard, Ending(heard, reply.model, w))
    else if |reply.calls| > MAX_CALLS_PER_MESSAGE || r.toolCalls + |reply.calls| > MAX_TOOL_CALLS
    then Failed(heard, TooManyCalls)
    else
      match SeenAfter(reply.calls, r.seen)
      case None => Failed(heard, BadCallId)
      case Some(seen) =>
        var asked := heard.(seen := seen, toolCalls := r.toolCalls + |reply.calls|,
                            messages := r.messages + [AssistantMessage(reply)]);
        match RunTools(asked, reply.calls, r.toolCalls, w)
        case Failed(after, e) => Failed(after, e)
        case Done(after, result) => Done(after, result)
        case Going(after) => if after.drafts == [] then Going(after) else Done(after, Ending(after, reply.model, w))
  }

  function OneTurn(r: Run, k: nat, toolsEnabled: bool, w: World): Outcome {
    if w.stopsBefore(k) then Failed(r, Stopped)
    else if JsonMessages(r.messages) + 2 > MAX_REQUEST_BYTES then Failed(r, ContextTooLarge)
    else
      var sent := r.(modelCalls := r.modelCalls + 1, requests := r.requests + [r.messages]);
      match w.model(r.messages)
      case None => Failed(sent, TransportFailed)
      case Some(reply) => if w.stopsAfter(k) then Failed(sent, Stopped) else OnReply(sent, reply, toolsEnabled, w)
  }

  function Turns(r: Run, k: nat, toolsEnabled: bool, w: World): Outcome
    requires k <= MAX_MODEL_CALLS
    decreases MAX_MODEL_CALLS - k, 1
  {
    if k == MAX_MODEL_CALLS then Failed(r, TooManyTurns)
    else TurnsAfter(OneTurn(r, k, toolsEnabled, w), k, toolsEnabled, w)
  }

  function TurnsAfter(turn: Outcome, k: nat, toolsEnabled: bool, w: World): Outcome
    requires k < MAX_MODEL_CALLS
    decreases MAX_MODEL_CALLS - k, 0
  {
    if turn.Going? then Turns(turn.run, k + 1, toolsEnabled, w) else turn
  }

  // ---- The loop ----

  class AgentRun {
    var messages: seq<Message>
    var seen: set<string>
    var transcript: seq<string>
    var drafts: seq<string>
    var toolCalls: nat
    var modelCalls: nat
    var invalid: nat
    var requests: seq<seq<Message>>

    constructor (first: seq<Message>)
      ensures Now() == StartRun(first)
    {
      messages, seen, transcript, drafts := first, {}, [], [];
      toolCalls, modelCalls, invalid, requests := 0, 0, 0, [];
    }

    function Now(): Run
      reads this
    {
      Run(messages, seen, transcript, drafts, toolCalls, modelCalls, invalid, requests)
    }

    method CheckIds(calls: seq<ToolCall>) returns (ok: bool)
      modifies this`seen
      ensures var r := SeenAfter(calls, old(seen)); ok == r.Some? && (ok ==> seen == r.value)
    {
      for i := 0 to |calls|
        invariant SeenAfter(calls[..i], old(seen)) == Some(seen)
      {
        assert calls[..i + 1][..i] == calls[..i];
        if !IsCallId(calls[i].id) || calls[i].id in seen {
          BadIdStays(calls, i + 1, old(seen));
          return false;
        }
        seen := seen + {calls[i].id};
      }
      assert calls[..|calls|] == calls;
      return true;
    }

    method RunOneTool(call: ToolCall, at: nat, w: World) returns (error: Option<RunError>)
      modifies this`messages, this`drafts, this`invalid
      ensures RunTool(old(Now()), call, at, w) == if error.Some? then Failed(Now(), error.value) else Going(Now())
    {
      if w.stopsAtTool(at) {
        return Some(Stopped);
      }
      var result := w.tool(call, |drafts|);
      if result.draft.Some? {
        drafts := drafts + [result.draft.value];
      }
      if result.invalid {
        invalid := invalid + 1;
        if invalid > 1 {
          return Some(InvalidTwice);
        }
      }
      if Bytes(result.content) > MAX_TOOL_RESULT_BYTES {
        return Some(ResultTooLarge);
      }
      messages := messages + [ToolMessage(call, result.content)];
      return None;
    }

    method RunAllTools(calls: seq<ToolCall>, at: nat, w: World) returns (error: Option<RunError>)
      modifies this`messages, this`drafts, this`invalid
      ensures RunTools(old(Now()), calls, at, w) == if error.Some? then Failed(Now(), error.value) else Going(Now())
    {
      ghost var start := Now();
      for i := 0 to |calls|
        invariant RunTools(start, calls[..i], at, w) == Going(Now())
      {
        OneMoreTool(start, calls, i, at, Now(), w);
        error := RunOneTool(calls[i], at + i, w);
        if error.Some? {
          return;
        }
      }
      WholeList(calls);
      return None;
    }

    /** What a failing step leaves behind is discarded with the run, so only its error is stated. */
    method TakeReply(reply: Reply, toolsEnabled: bool, w: World) returns (done: Option<Finished>, error: Option<RunError>)
      modifies this`messages, this`seen, this`transcript, this`drafts, this`toolCalls, this`invalid
      ensures match OnReply(old(Now()), reply, toolsEnabled, w)
              case Failed(_, e) => error == Some(e) && done == None
              case Done(r, result) => error == None && done == Some(result) && Now() == r
              case Going(r) => error == None && done == None && Now() == r
    {
      if !IsBlank(reply.content) {
        transcript := transcript + [reply.content];
      }
      if !toolsEnabled && reply.calls != [] {
        return None, Some(ToolsOff);
      }
      if reply.calls == [] {
        return Some(Ending(Now(), reply.model, w)), None;
      }
      if |reply.calls| > MAX_CALLS_PER_MESSAGE || toolCalls + |reply.calls| > MAX_TOOL_CALLS {
        return None, Some(TooManyCalls);
      }
      var ok := CheckIds(reply.calls);
      if !ok {
        return None, Some(BadCallId);
      }
      var at := toolCalls;
      toolCalls := toolCalls + |reply.calls|;
      messages := messages + [AssistantMessage(reply)];
      error := RunAllTools(reply.calls, at, w);
      if error.Some? {
        return None, error;
      }
      if drafts != [] {
        return Some(Ending(Now(), reply.model, w)), None;
      }
      return None, None;
    }

    /** At most six turns: send everything so far, then run the tools that the reply asks for. */
    method RunTurns(toolsEnabled: bool, w: World) returns (done: Option<Finished>, error: Option<RunError>)
      modifies this
      ensures var r := Turns(old(Now()), 0, toolsEnabled, w);
              && (r.Done? ==> done == Some(r.result) && error == None && Now() == r.run)
              && (!r.Done? ==> done == None && r.Failed? && error == Some(r.error))
              && requests == r.run.requests
    {
      done, error := None, None;
      for k := 0 to MAX_MODEL_CALLS
        invariant Turns(old(Now()), 0, toolsEnabled, w) == Turns(Now(), k, toolsEnabled, w)
        invariant done == None && error == None
      {
        if w.stopsBefore(k) {
          return None, Some(Stopped);
        }
        if JsonMessages(messages) + 2 > MAX_REQUEST_BYTES {
          return None, Some(ContextTooLarge);
        }
        modelCalls := modelCalls + 1;
        requests := requests + [messages];
        var reply := w.model(messages);
        if reply.None? {
          return None, Some(TransportFailed);
        }
        if w.stopsAfter(k) {
          return None, Some(Stopped);
        }
        ReplyKeepsRequests(Now(), reply.value, toolsEnabled, w);
        done, error := TakeReply(reply.value, toolsEnabled, w);
        if error.Some? || done.Some? {
          return;
        }
      }
      return None, Some(TooManyTurns);
    }
  }

  lemma {:induction false} BadIdStays(calls: seq<ToolCall>, n: nat, seen: set<string>)
    requires n <= |calls| && SeenAfter(calls[..n], seen).None?
    ensures SeenAfter(calls, seen).None?
    decreases |calls|
  {
    if n == |calls| {
      assert calls[..n] == calls;
    } else {
      assert calls[..|calls| - 1][..n] == calls[..n];
      BadIdStays(calls[..|calls| - 1], n, seen);
    }
  }

  /** The next tool decides what the first tools give, and a failure decides what all of them give. */
  lemma OneMoreTool(start: Run, calls: seq<ToolCall>, i: nat, at: nat, now: Run, w: World)
    requires i < |calls| && RunTools(start, calls[..i], at, w) == Going(now)
    ensures RunTools(start, calls[..i + 1], at, w) == RunTool(now, calls[i], at + i, w)
    ensures !RunTool(now, calls[i], at + i, w).Going? ==> RunTools(start, calls, at, w) == RunTool(now, calls[i], at + i, w)
  {
    NextTool(start, calls, i, at, w);
    if !RunTool(now, calls[i], at + i, w).Going? {
      ToolErrorStays(start, calls, i + 1, at, w);
    }
  }

  lemma NextTool(r: Run, calls: seq<ToolCall>, i: nat, at: nat, w: World)
    requires i < |calls| && RunTools(r, calls[..i], at, w).Going?
    ensures RunTools(r, calls[..i + 1], at, w) == RunTool(RunTools(r, calls[..i], at, w).run, calls[i], at + i, w)
  {
    assert calls[..i + 1][..i] == calls[..i];
  }

  /** Tools add messages, suggestions and blame, and touch nothing else. */
  predicate OnlyTools(before: Run, after: Run) {
    after == before.(messages := after.messages, drafts := after.drafts, invalid := after.invalid)
  }

  lemma {:induction false} ToolsKeepTheRest(r: Run, calls: seq<ToolCall>, at: nat, w: World)
    ensures OnlyTools(r, RunTools(r, calls, at, w).run) && !RunTools(r, calls, at, w).Done?
  {
    if calls != [] {
      ToolsKeepTheRest(r, calls[..|calls| - 1], at, w);
    }
  }

  lemma ReplyKeepsRequests(r: Run, reply: Reply, toolsEnabled: bool, w: World)
    ensures OnReply(r, reply, toolsEnabled, w).run.requests == r.requests
    ensures OnReply(r, reply, toolsEnabled, w).run.modelCalls == r.modelCalls
  {
    var heard := if IsBlank(reply.content) then r else r.(transcript := r.transcript + [reply.content]);
    if SeenAfter(reply.calls, r.seen).Some? {
      var asked := heard.(seen := SeenAfter(reply.calls, r.seen).value, toolCalls := r.toolCalls + |reply.calls|,
                          messages := r.messages + [AssistantMessage(reply)]);
      ToolsKeepTheRest(asked, reply.calls, r.toolCalls, w);
    }
  }

  lemma WholeList<T>(xs: seq<T>)
    ensures xs[..|xs|] == xs
  {
  }

  lemma {:induction false} ToolErrorStays(r: Run, calls: seq<ToolCall>, n: nat, at: nat, w: World)
    requires n <= |calls| && !RunTools(r, calls[..n], at, w).Going?
    ensures RunTools(r, calls, at, w) == RunTools(r, calls[..n], at, w)
    decreases |calls|
  {
    if n == |calls| {
      assert calls[..n] == calls;
    } else {
      assert calls[..|calls| - 1][..n] == calls[..n];
      ToolErrorStays(r, calls[..|calls| - 1], n, at, w);
    }
  }

  // ---- Every request passes the gateway ----

  predicate AllMessages(ms: seq<Message>) {
    forall i :: 0 <= i < |ms| ==> IsMessage(ms[i])
  }

  /** Before a turn: every message is well formed, and their number follows from the calls made so far. */
  predicate IsSized(r: Run, first: nat) {
    AllMessages(r.messages) && |r.messages| == first + r.modelCalls + r.toolCalls && r.toolCalls <= MAX_TOOL_CALLS
  }

  lemma {:induction false} ToolsAreSized(r: Run, calls: seq<ToolCall>, at: nat, w: World)
    requires AllMessages(r.messages) && forall i :: 0 <= i < |calls| ==> calls[i].id != ""
    requires RunTools(r, calls, at, w).Going?
    ensures AllMessages(RunTools(r, calls, at, w).run.messages)
    ensures |RunTools(r, calls, at, w).run.messages| == |r.messages| + |calls|
    ensures r.messages <= RunTools(r, calls, at, w).run.messages
  {
    if calls != [] {
      ToolsAreSized(r, calls[..|calls| - 1], at, w);
    }
  }

  lemma {:induction false} SeenIdsAreGood(calls: seq<ToolCall>, seen: set<string>)
    requires SeenAfter(calls, seen).Some?
    ensures forall i :: 0 <= i < |calls| ==> IsCallId(calls[i].id) && calls[i].id !in seen && calls[i].id in SeenAfter(calls, seen).value
    ensures seen <= SeenAfter(calls, seen).value
    ensures forall i, j :: 0 <= i < j < |calls| ==> calls[i].id != calls[j].id
  {
    if calls != [] {
      SeenIdsAreGood(calls[..|calls| - 1], seen);
    }
  }

  function Asked(r: Run, reply: Reply): Run
    requires SeenAfter(reply.calls, r.seen).Some?
  {
    var heard := if IsBlank(reply.content) then r else r.(transcript := r.transcript + [reply.content]);
    heard.(seen := SeenAfter(reply.calls, r.seen).value, toolCalls := r.toolCalls + |reply.calls|,
           messages := r.messages + [AssistantMessage(reply)])
  }

  /** A turn that goes on has asked the model once and run the tools of its reply. */
  lemma TurnGoesOn(r: Run, k: nat, toolsEnabled: bool, w: World) returns (reply: Reply)
    requires OneTurn(r, k, toolsEnabled, w).Going?
    ensures w.model(r.messages) == Some(reply)
    ensures reply.calls != [] && |reply.calls| <= MAX_CALLS_PER_MESSAGE && r.toolCalls + |reply.calls| <= MAX_TOOL_CALLS
    ensures SeenAfter(reply.calls, r.seen).Some?
    ensures var sent := r.(modelCalls := r.modelCalls + 1, requests := r.requests + [r.messages]);
            var tools := RunTools(Asked(sent, reply), reply.calls, r.toolCalls, w);
            OneTurn(r, k, toolsEnabled, w) == tools && tools.run.drafts == []
  {
    reply := w.model(r.messages).value;
  }

  lemma TurnIsSized(r: Run, k: nat, toolsEnabled: bool, w: World, first: nat)
    requires IsSized(r, first) && OneTurn(r, k, toolsEnabled, w).Going?
    ensures var next := OneTurn(r, k, toolsEnabled, w).run;
            IsSized(next, first) && next.modelCalls == r.modelCalls + 1 && next.requests == r.requests + [r.messages]
  {
    var reply := TurnGoesOn(r, k, toolsEnabled, w);
    var sent := r.(modelCalls := r.modelCalls + 1, requests := r.requests + [r.messages]);
    SeenIdsAreGood(reply.calls, r.seen);
    ToolsAreSized(Asked(sent, reply), reply.calls, r.toolCalls, w);
    ToolsKeepTheRest(Asked(sent, reply), reply.calls, r.toolCalls, w);
  }

  predicate AllPass(requests: seq<seq<Message>>) {
    forall i :: 0 <= i < |requests| ==> PassesGateway(requests[i])
  }

  lemma RequestPasses(r: Run, k: nat, first: nat)
    requires IsSized(r, first) && r.modelCalls == k < MAX_MODEL_CALLS && 0 < first <= MAX_HISTORY + 2
    requires JsonMessages(r.messages) + 2 <= MAX_REQUEST_BYTES
    ensures PassesGateway(r.messages)
  {
    GatewayCountsNoMore(r.messages);
  }

  /** A turn sends the conversation once, and only within the byte budget, or sends nothing. */
  lemma TurnRequests(r: Run, k: nat, toolsEnabled: bool, w: World)
    ensures var t := OneTurn(r, k, toolsEnabled, w);
            || t.run.requests == r.requests
            || (t.run.requests == r.requests + [r.messages] && JsonMessages(r.messages) + 2 <= MAX_REQUEST_BYTES)
  {
    if w.model(r.messages).Some? {
      var sent := r.(modelCalls := r.modelCalls + 1, requests := r.requests + [r.messages]);
      ReplyKeepsRequests(sent, w.model(r.messages).value, toolsEnabled, w);
    }
  }

  /** What the run keeps between turns: sizes within bounds, and every request so far accepted. */
  predicate IsPassing(r: Run, first: nat) {
    IsSized(r, first) && AllPass(r.requests)
  }

  lemma TurnPasses(r: Run, k: nat, toolsEnabled: bool, w: World, first: nat)
    requires IsPassing(r, first) && r.modelCalls == k < MAX_MODEL_CALLS && 0 < first <= MAX_HISTORY + 2
    ensures var turn := OneTurn(r, k, toolsEnabled, w);
            AllPass(turn.run.requests) && (turn.Going? ==> IsPassing(turn.run, first) && turn.run.modelCalls == k + 1)
  {
    var turn := OneTurn(r, k, toolsEnabled, w);
    TurnRequests(r, k, toolsEnabled, w);
    if turn.run.requests != r.requests {
      RequestPasses(r, k, first);
      OneMorePasses(r.requests, r.messages);
    }
    if turn.Going? {
      TurnIsSized(r, k, toolsEnabled, w, first);
    }
  }

  lemma {:induction false} EveryRequestPassesFrom(r: Run, k: nat, toolsEnabled: bool, w: World, first: nat)
    requires IsPassing(r, first) && r.modelCalls == k <= MAX_MODEL_CALLS && 0 < first <= MAX_HISTORY + 2
    ensures AllPass(Turns(r, k, toolsEnabled, w).run.requests)
    decreases MAX_MODEL_CALLS - k, 1
  {
    if k < MAX_MODEL_CALLS {
      TurnPasses(r, k, toolsEnabled, w, first);
      EveryRequestPassesAfter(OneTurn(r, k, toolsEnabled, w), k, toolsEnabled, w, first);
    }
  }

  lemma {:induction false} EveryRequestPassesAfter(turn: Outcome, k: nat, toolsEnabled: bool, w: World, first: nat)
    requires AllPass(turn.run.requests) && k < MAX_MODEL_CALLS && 0 < first <= MAX_HISTORY + 2
    requires turn.Going? ==> IsPassing(turn.run, first) && turn.run.modelCalls == k + 1
    ensures AllPass(TurnsAfter(turn, k, toolsEnabled, w).run.requests)
    decreases MAX_MODEL_CALLS - k, 0
  {
    if turn.Going? {
      EveryRequestPassesFrom(turn.run, k + 1, toolsEnabled, w, first);
    }
  }

  lemma OneMorePasses(requests: seq<seq<Message>>, ms: seq<Message>)
    requires AllPass(requests) && PassesGateway(ms)
    ensures AllPass(requests + [ms])
  {
  }

  /** From a built conversation, every request of the run passes the gateway's check, whatever model and tools do. */
  lemma EveryRequestPasses(stored: seq<Stored>, system: Option<string>, user: Option<string>, toolsEnabled: bool, w: World)
    requires BuildMessages(stored, system, user).Some?
    ensures AllPass(Turns(StartRun(BuildMessages(stored, system, user).value), 0, toolsEnabled, w).run.requests)
  {
    var first := BuildMessages(stored, system, user).value;
    BuiltIsFirstRequest(stored, system, user);
    EveryRequestPassesFrom(StartRun(first), 0, toolsEnabled, w, |first|);
  }

  // ---- Calls and replies ----

  /** The tool messages after an assistant message answer its calls one by one, in order. */
  predicate Answers(ms: seq<Message>, at: nat, calls: seq<ToolCall>) {
    at + |calls| <= |ms| && forall i :: 0 <= i < |calls| ==> IsAnswer(ms, at, calls, i)
  }

  predicate IsAnswer(ms: seq<Message>, at: nat, calls: seq<ToolCall>, i: nat)
    requires at + |calls| <= |ms| && i < |calls|
  {
    ms[at + i].role == "tool" && ms[at + i].toolCallId == Some(calls[i].id)
  }

  /** Every call in the conversation has its one reply at its place. */
  predicate AllAnswered(ms: seq<Message>) {
    forall i :: 0 <= i < |ms| && ms[i].calls.Some? ==> Answers(ms, i + 1, ms[i].calls.value)
  }

  function CallIds(ms: seq<Message>): seq<string> {
    if ms == [] then []
    else CallIds(ms[..|ms| - 1]) + (if ms[|ms| - 1].calls.Some? then Ids(ms[|ms| - 1].calls.value) else [])
  }

  /** The IDs that the tool messages of a conversation answer, in order. */
  function AnswerIds(ms: seq<Message>): seq<string> {
    if ms == [] then []
    else AnswerIds(ms[..|ms| - 1]) + AnsweredBy(ms[|ms| - 1])
  }

  function AnsweredBy(m: Message): seq<string> {
    if m.role == "tool" && m.toolCallId.Some? then [m.toolCallId.value] else []
  }

  function Ids(calls: seq<ToolCall>): (r: seq<string>)
    ensures |r| == |calls| && forall i :: 0 <= i < |calls| ==> r[i] == calls[i].id
  {
    seq(|calls|, i requires 0 <= i < |calls| => calls[i].id)
  }

  predicate AreDistinct(ids: seq<string>) {
    forall i, j :: 0 <= i < j < |ids| ==> ids[i] != ids[j]
  }

  /** All call IDs of the conversation are distinct and were noted. */
  predicate IdsAreSeen(r: Run) {
    AreDistinct(CallIds(r.messages)) && forall i :: 0 <= i < |CallIds(r.messages)| ==> CallIds(r.messages)[i] in r.seen
  }

  /** The tool messages answer each call of the conversation once, in the order of the calls, and nothing else. */
  predicate AnsweredOnce(ms: seq<Message>) {
    AnswerIds(ms) == CallIds(ms)
  }

  predicate IsTold(r: Run) {
    AllAnswered(r.messages) && IdsAreSeen(r) && AnsweredOnce(r.messages)
  }

  predicate AddsAnswers(before: seq<Message>, after: seq<Message>, calls: seq<ToolCall>) {
    AnswerIds(after) == AnswerIds(before) + Ids(calls)
  }

  lemma AddsNone(ms: seq<Message>)
    ensures AddsAnswers(ms, ms, [])
  {
    assert Ids([]) == [];
  }

  lemma AddsOne(before: seq<Message>, ms: seq<Message>, calls: seq<ToolCall>, content: string)
    requires calls != [] && AddsAnswers(before, ms, calls[..|calls| - 1])
    ensures AddsAnswers(before, ms + [ToolMessage(calls[|calls| - 1], content)], calls)
  {
    var m := ToolMessage(calls[|calls| - 1], content);
    assert (ms + [m])[..|ms|] == ms;
    assert AnswerIds(ms + [m]) == AnswerIds(ms) + AnsweredBy(m);
    assert Ids(calls) == Ids(calls[..|calls| - 1]) + AnsweredBy(m);
  }

  lemma {:induction false} ToolsAddAnswers(r: Run, calls: seq<ToolCall>, at: nat, w: World)
    requires RunTools(r, calls, at, w).Going?
    ensures AddsAnswers(r.messages, RunTools(r, calls, at, w).run.messages, calls)
  {
    if calls == [] {
      AddsNone(r.messages);
    } else {
      var content := ToolAddsAnswer(r, calls, at, w);
      ToolsAddAnswers(r, calls[..|calls| - 1], at, w);
      AddsOne(r.messages, RunTools(r, calls[..|calls| - 1], at, w).run.messages, calls, content);
    }
  }

  lemma ToolAddsAnswer(r: Run, calls: seq<ToolCall>, at: nat, w: World) returns (content: string)
    requires calls != [] && RunTools(r, calls, at, w).Going?
    ensures RunTools(r, calls[..|calls| - 1], at, w).Going?
    ensures var before := RunTools(r, calls[..|calls| - 1], at, w).run.messages;
            RunTools(r, calls, at, w).run.messages == before + [ToolMessage(calls[|calls| - 1], content)]
  {
    var before := RunTools(r, calls[..|calls| - 1], at, w).run;
    content := w.tool(calls[|calls| - 1], |before.drafts|).content;
  }

  lemma AskingAnswersNothing(ms: seq<Message>, reply: Reply)
    ensures var after := ms + [AssistantMessage(reply)];
            AnswerIds(after) == AnswerIds(ms) && CallIds(after) == CallIds(ms) + Ids(reply.calls)
  {
    var after := ms + [AssistantMessage(reply)];
    assert after[..|ms|] == ms;
    assert AnswerIds(ms) + [] == AnswerIds(ms);
  }

  /** Running the tools of a reply answers its calls and no others. */
  lemma ReplyIsAnsweredOnce(r: Run, reply: Reply, at: nat, w: World)
    requires AnsweredOnce(r.messages) && SeenAfter(reply.calls, r.seen).Some?
    requires RunTools(Asked(r, reply), reply.calls, at, w).Going?
    ensures AnsweredOnce(RunTools(Asked(r, reply), reply.calls, at, w).run.messages)
  {
    AskingAnswersNothing(r.messages, reply);
    ToolsAddAnswers(Asked(r, reply), reply.calls, at, w);
    ToolsMakeNoCalls(Asked(r, reply), reply.calls, at, w);
  }

  lemma {:induction false} ToolsAnswer(r: Run, calls: seq<ToolCall>, at: nat, w: World)
    requires RunTools(r, calls, at, w).Going?
    ensures var ms := RunTools(r, calls, at, w).run.messages;
            |ms| == |r.messages| + |calls| && r.messages <= ms && Answers(ms, |r.messages|, calls)
  {
    if calls != [] {
      var init, last := calls[..|calls| - 1], calls[|calls| - 1];
      ToolsAnswer(r, init, at, w);
      var before := RunTools(r, init, at, w).run.messages;
      var ms := RunTools(r, calls, at, w).run.messages;
      assert ms[..|before|] == before && ms[|before|].role == "tool" && ms[|before|].toolCallId == Some(last.id);
      OneMoreAnswer(before, ms, |r.messages|, calls);
    }
  }

  lemma OneMoreAnswer(before: seq<Message>, ms: seq<Message>, at: nat, calls: seq<ToolCall>)
    requires calls != [] && at + |calls| == |ms| && |before| == |ms| - 1 && ms[..|before|] == before
    requires Answers(before, at, calls[..|calls| - 1])
    requires ms[|before|].role == "tool" && ms[|before|].toolCallId == Some(calls[|calls| - 1].id)
    ensures Answers(ms, at, calls)
  {
    forall i | 0 <= i < |calls| ensures IsAnswer(ms, at, calls, i) {
      if i < |calls| - 1 {
        assert IsAnswer(before, at, calls[..|calls| - 1], i);
        assert ms[at + i] == before[at + i];
      }
    }
  }

  lemma {:induction false} ToolsMakeNoCalls(r: Run, calls: seq<ToolCall>, at: nat, w: World)
    requires RunTools(r, calls, at, w).Going?
    ensures var ms := RunTools(r, calls, at, w).run.messages;
            && |ms| >= |r.messages| && CallIds(ms) == CallIds(r.messages)
            && forall i :: |r.messages| <= i < |ms| ==> ms[i].calls.None?
  {
    if calls != [] {
      var init := calls[..|calls| - 1];
      ToolsMakeNoCalls(r, init, at, w);
      var before := RunTools(r, init, at, w).run.messages;
      var ms := RunTools(r, calls, at, w).run.messages;
      assert ms[..|ms| - 1] == before;
      assert CallIds(before) + [] == CallIds(before);
    }
  }

  lemma AnswersStay(before: seq<Message>, after: seq<Message>, at: nat, calls: seq<ToolCall>)
    requires before <= after && Answers(before, at, calls)
    ensures Answers(after, at, calls)
  {
    forall i | 0 <= i < |calls| ensures IsAnswer(after, at, calls, i) {
      assert IsAnswer(before, at, calls, i);
      assert after[at + i] == before[at + i];
    }
  }

  lemma NewIdsAreSeen(r: Run, reply: Reply)
    requires IdsAreSeen(r) && SeenAfter(reply.calls, r.seen).Some?
    ensures IdsAreSeen(Asked(r, reply))
  {
    SeenIdsAreGood(reply.calls, r.seen);
    var ms := r.messages + [AssistantMessage(reply)];
    assert ms[..|r.messages|] == r.messages;
    assert CallIds(ms) == CallIds(r.messages) + Ids(reply.calls);
  }

  /** An assistant message with its answers keeps the conversation complete. */
  lemma AnsweredNext(before: seq<Message>, reply: Reply, after: seq<Message>)
    requires AllAnswered(before) && before + [AssistantMessage(reply)] <= after
    requires Answers(after, |before| + 1, reply.calls)
    requires forall i :: |before| < i < |after| ==> after[i].calls.None?
    ensures AllAnswered(after)
  {
    forall i | 0 <= i < |after| && after[i].calls.Some? ensures Answers(after, i + 1, after[i].calls.value) {
      if i < |before| {
        assert after[i] == before[i];
        AnswersStay(before, after, i + 1, before[i].calls.value);
      } else {
        assert i == |before| && after[i] == AssistantMessage(reply);
      }
    }
  }

  lemma TurnIsTold(r: Run, k: nat, toolsEnabled: bool, w: World)
    requires IsTold(r) && OneTurn(r, k, toolsEnabled, w).Going?
    ensures IsTold(OneTurn(r, k, toolsEnabled, w).run)
  {
    var reply := TurnGoesOn(r, k, toolsEnabled, w);
    var sent := r.(modelCalls := r.modelCalls + 1, requests := r.requests + [r.messages]);
    NewIdsAreSeen(sent, reply);
    ToolsAreTold(sent, reply, r.toolCalls, w);
    ReplyIsAnsweredOnce(sent, reply, r.toolCalls, w);
  }

  lemma ToolsAreTold(r: Run, reply: Reply, at: nat, w: World)
    requires AllAnswered(r.messages) && SeenAfter(reply.calls, r.seen).Some? && IdsAreSeen(Asked(r, reply))
    requires RunTools(Asked(r, reply), reply.calls, at, w).Going?
    ensures var run := RunTools(Asked(r, reply), reply.calls, at, w).run; AllAnswered(run.messages) && IdsAreSeen(run)
  {
    var asked := Asked(r, reply);
    ToolsAnswer(asked, reply.calls, at, w);
    ToolsMakeNoCalls(asked, reply.calls, at, w);
    ToolsKeepTheRest(asked, reply.calls, at, w);
    AnsweredNext(r.messages, reply, RunTools(asked, reply.calls, at, w).run.messages);
  }

  /** A complete conversation: distinct call IDs, each call answered once, at its place. */
  predicate IsComplete(ms: seq<Message>) {
    AllAnswered(ms) && AreDistinct(CallIds(ms)) && AnsweredOnce(ms)
  }

  predicate AllTold(requests: seq<seq<Message>>) {
    forall i :: 0 <= i < |requests| ==> IsComplete(requests[i])
  }

  lemma TurnKeepsTelling(r: Run, k: nat, toolsEnabled: bool, w: World)
    requires IsTold(r) && AllTold(r.requests)
    ensures var turn := OneTurn(r, k, toolsEnabled, w);
            AllTold(turn.run.requests) && (turn.Going? ==> IsTold(turn.run))
  {
    TurnRequests(r, k, toolsEnabled, w);
    OneMoreTold(r.requests, r.messages);
    if OneTurn(r, k, toolsEnabled, w).Going? {
      TurnIsTold(r, k, toolsEnabled, w);
    }
  }

  lemma {:induction false} EveryRequestIsToldFrom(r: Run, k: nat, toolsEnabled: bool, w: World)
    requires IsTold(r) && k <= MAX_MODEL_CALLS && AllTold(r.requests)
    ensures AllTold(Turns(r, k, toolsEnabled, w).run.requests)
    decreases MAX_MODEL_CALLS - k, 1
  {
    if k < MAX_MODEL_CALLS {
      TurnKeepsTelling(r, k, toolsEnabled, w);
      EveryRequestIsToldAfter(OneTurn(r, k, toolsEnabled, w), k, toolsEnabled, w);
    }
  }

  lemma {:induction false} EveryRequestIsToldAfter(turn: Outcome, k: nat, toolsEnabled: bool, w: World)
    requires AllTold(turn.run.requests) && (turn.Going? ==> IsTold(turn.run)) && k < MAX_MODEL_CALLS
    ensures AllTold(TurnsAfter(turn, k, toolsEnabled, w).run.requests)
    decreases MAX_MODEL_CALLS - k, 0
  {
    if turn.Going? {
      EveryRequestIsToldFrom(turn.run, k + 1, toolsEnabled, w);
    }
  }

  lemma OneMoreTold(requests: seq<seq<Message>>, ms: seq<Message>)
    requires AllTold(requests) && IsComplete(ms)
    ensures AllTold(requests + [ms])
  {
  }

  lemma {:induction false} NoCalls(ms: seq<Message>)
    requires forall i :: 0 <= i < |ms| ==> ms[i].calls.None? && ms[i].role != "tool"
    ensures CallIds(ms) == [] && AnswerIds(ms) == []
  {
    if ms != [] {
      NoCalls(ms[..|ms| - 1]);
    }
  }

  lemma EveryRequestIsTold(first: seq<Message>, toolsEnabled: bool, w: World)
    requires IsFirstRequest(first)
    ensures AllTold(Turns(StartRun(first), 0, toolsEnabled, w).run.requests)
  {
    NoCalls(first);
    EveryRequestIsToldFrom(StartRun(first), 0, toolsEnabled, w);
  }

  // ---- The bounds of a successful run ----

  lemma {:induction false} ToolDrafts(r: Run, calls: seq<ToolCall>, at: nat, w: World)
    ensures |RunTools(r, calls, at, w).run.drafts| <= |r.drafts| + |calls|
  {
    if calls != [] {
      ToolDrafts(r, calls[..|calls| - 1], at, w);
    }
  }

  lemma ReplyBounds(r: Run, reply: Reply, toolsEnabled: bool, w: World)
    requires r.drafts == [] && r.toolCalls <= MAX_TOOL_CALLS && OnReply(r, reply, toolsEnabled, w).Done?
    ensures var d := OnReply(r, reply, toolsEnabled, w).result;
            d.modelCalls == r.modelCalls && d.toolCalls <= MAX_TOOL_CALLS && |d.drafts| <= MAX_CALLS_PER_MESSAGE
  {
    if reply.calls != [] {
      ToolDrafts(Asked(r, reply), reply.calls, r.toolCalls, w);
      ToolsKeepTheRest(Asked(r, reply), reply.calls, r.toolCalls, w);
    }
  }

  predicate IsWithinBounds(d: Finished) {
    0 < d.modelCalls <= MAX_MODEL_CALLS && d.toolCalls <= MAX_TOOL_CALLS && |d.drafts| <= MAX_CALLS_PER_MESSAGE
  }

  predicate CanGoOn(r: Run, k: nat) {
    r.drafts == [] && r.toolCalls <= MAX_TOOL_CALLS && r.modelCalls == k <= MAX_MODEL_CALLS
  }

  lemma TurnIsBounded(r: Run, k: nat, toolsEnabled: bool, w: World)
    requires CanGoOn(r, k) && k < MAX_MODEL_CALLS
    ensures var turn := OneTurn(r, k, toolsEnabled, w);
            (turn.Going? ==> CanGoOn(turn.run, k + 1)) && (turn.Done? ==> IsWithinBounds(turn.result))
  {
    var turn := OneTurn(r, k, toolsEnabled, w);
    var sent := r.(modelCalls := r.modelCalls + 1, requests := r.requests + [r.messages]);
    if turn.Going? {
      var reply := TurnGoesOn(r, k, toolsEnabled, w);
      ToolsKeepTheRest(Asked(sent, reply), reply.calls, r.toolCalls, w);
    } else if turn.Done? {
      ReplyBounds(sent, w.model(r.messages).value, toolsEnabled, w);
    }
  }

  lemma {:induction false} SuccessIsBoundedFrom(r: Run, k: nat, toolsEnabled: bool, w: World)
    requires CanGoOn(r, k) && Turns(r, k, toolsEnabled, w).Done?
    ensures IsWithinBounds(Turns(r, k, toolsEnabled, w).result)
    decreases MAX_MODEL_CALLS - k, 1
  {
    TurnIsBounded(r, k, toolsEnabled, w);
    SuccessIsBoundedAfter(OneTurn(r, k, toolsEnabled, w), k, toolsEnabled, w);
  }

  lemma {:induction false} SuccessIsBoundedAfter(turn: Outcome, k: nat, toolsEnabled: bool, w: World)
    requires k < MAX_MODEL_CALLS && TurnsAfter(turn, k, toolsEnabled, w).Done?
    requires (turn.Going? ==> CanGoOn(turn.run, k + 1)) && (turn.Done? ==> IsWithinBounds(turn.result))
    ensures IsWithinBounds(TurnsAfter(turn, k, toolsEnabled, w).result)
    decreases MAX_MODEL_CALLS - k, 0
  {
    if turn.Going? {
      SuccessIsBoundedFrom(turn.run, k + 1, toolsEnabled, w);
    }
  }

  /** A run that succeeds used at most six model calls and twelve tool calls, and made at most four suggestions. */
  lemma SuccessIsBounded(first: seq<Message>, toolsEnabled: bool, w: World)
    requires Turns(StartRun(first), 0, toolsEnabled, w).Done?
    ensures var d := Turns(StartRun(first), 0, toolsEnabled, w).result;
            d.modelCalls <= MAX_MODEL_CALLS && d.toolCalls <= MAX_TOOL_CALLS && |d.drafts| <= 4
  {
    SuccessIsBoundedFrom(StartRun(first), 0, toolsEnabled, w);
  }
}
