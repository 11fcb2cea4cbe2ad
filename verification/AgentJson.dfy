/** The sizes that the agent loop counts are the sizes of its messages printed as JSON. */
module AgentJson {
  import opened Contracts
  import opened Unicode
  import opened Agent

  // ---- Printing ----

  predicate IsAscii(s: string) {
    forall i :: 0 <= i < |s| ==> s[i] < '\U{80}'
  }

  type Ascii = s: string | IsAscii(s)

  const ID: Ascii := "{\"id\":"
  const FUNCTION: Ascii := ",\"type\":\"function\",\"function\":{\"name\":"
  const ARGUMENTS: Ascii := ",\"arguments\":"
  const ROLE: Ascii := "{\"role\":"
  const CONTENT: Ascii := ",\"content\":"
  const CALL_ID: Ascii := ",\"tool_call_id\":"
  const NAME: Ascii := ",\"name\":"
  const CALLS: Ascii := ",\"tool_calls\":["
  const OPEN: Ascii := "["
  const CLOSE: Ascii := "]"
  const END: Ascii := "}"
  const END_CALL: Ascii := "}}"

  const HEX: string := "0123456789abcdef"

  /** One character inside a JSON string. */
  function EscapedChar(c: char): string {
    match c
    case '"' => "\\\""
    case '\\' => "\\\\"
    case '\n' => "\\n"
    case '\r' => "\\r"
    case '\t' => "\\t"
    case '\U{8}' => "\\b"
    case '\U{C}' => "\\f"
    case _ => if c < ' ' then "\\u00" + [HEX[c as int / 16], HEX[c as int % 16]] else [c]
  }

  function Escaped(s: string): string {
    if s == "" then "" else Escaped(s[..|s| - 1]) + EscapedChar(s[|s| - 1])
  }

  function Quoted(s: string): string {
    "\"" + Escaped(s) + "\""
  }

  function PrintedCall(c: ToolCall): string {
    PrintedField(ID, Some(c.id)) + PrintedField(FUNCTION, Some(c.name))
    + PrintedField(ARGUMENTS, Some(c.arguments)) + END_CALL
  }

  /** The items with commas between them. */
  function Commas(items: seq<string>): string {
    if items == [] then ""
    else Commas(items[..|items| - 1]) + (if |items| > 1 then "," else "") + items[|items| - 1]
  }

  function PrintedCalls(cs: seq<ToolCall>): seq<string> {
    seq(|cs|, i requires 0 <= i < |cs| => PrintedCall(cs[i]))
  }

  function PrintedField(key: Ascii, value: Option<string>): string {
    if value.Some? then key + Quoted(value.value) else ""
  }

  /** An object with its fields in order; absent ones are left out. */
  function PrintedMessage(m: Message): string {
    PrintedField(ROLE, Some(m.role)) + PrintedField(CONTENT, Some(m.content)) + PrintedToolCalls(m)
    + PrintedField(CALL_ID, m.toolCallId) + PrintedField(NAME, m.name) + END
  }

  function PrintedToolCalls(m: Message): string {
    if m.calls.Some? then CALLS + Commas(PrintedCalls(m.calls.value)) + CLOSE else ""
  }

  function PrintedMessages(ms: seq<Message>): seq<string> {
    seq(|ms|, i requires 0 <= i < |ms| => PrintedMessage(ms[i]))
  }

  // ---- Counting ----

  lemma {:induction false} AsciiBytes(s: string)
    requires IsAscii(s)
    ensures Bytes(s) == |s|
  {
    if s != "" {
      AsciiBytes(s[..|s| - 1]);
    }
  }

  lemma EscapedCharBytes(c: char)
    ensures Bytes(EscapedChar(c)) == EscapedLen(c)
  {
    var s := EscapedChar(c);
    if c < '\U{80}' {
      AsciiBytes(s);
    } else {
      assert s == [c] && [c][..0] == "";
      assert Bytes("") == 0;
    }
  }

  lemma {:induction false} EscapedCount(s: string)
    ensures Bytes(Escaped(s)) == EscapedBytes(s)
  {
    if s != "" {
      EscapedCount(s[..|s| - 1]);
      EscapedCharBytes(s[|s| - 1]);
      BytesConcat(Escaped(s[..|s| - 1]), EscapedChar(s[|s| - 1]));
    }
  }

  lemma QuotedCount(s: string)
    ensures Bytes(Quoted(s)) == JsonString(s)
  {
    EscapedCount(s);
    AsciiBytes("\"");
    BytesConcat("\"", Escaped(s));
    BytesConcat("\"" + Escaped(s), "\"");
  }

  lemma FieldCount(key: Ascii, value: Option<string>)
    ensures Bytes(PrintedField(key, value)) == JsonOptional(|key|, value)
  {
    if value.Some? {
      AsciiBytes(key);
      QuotedCount(value.value);
      BytesConcat(key, Quoted(value.value));
    }
  }

  lemma SumOfThree(a: string, b: string, c: string)
    ensures Bytes(a + b + c) == Bytes(a) + Bytes(b) + Bytes(c)
  {
    BytesConcat(a, b);
    BytesConcat(a + b, c);
  }

  lemma Enclosed(open: Ascii, inner: string, close: Ascii)
    ensures Bytes(open + inner + close) == |open| + Bytes(inner) + |close|
  {
    AsciiBytes(open);
    AsciiBytes(close);
    SumOfThree(open, inner, close);
  }

  lemma SumWithEnd(a: string, b: string, c: string, end: Ascii)
    ensures Bytes(a + b + c + end) == Bytes(a) + Bytes(b) + Bytes(c) + |end|
  {
    SumOfThree(a, b, c);
    AsciiBytes(end);
    BytesConcat(a + b + c, end);
  }

  lemma CallCount(c: ToolCall)
    ensures Bytes(PrintedCall(c)) == JsonCall(c)
  {
    FieldCount(ID, Some(c.id));
    FieldCount(FUNCTION, Some(c.name));
    FieldCount(ARGUMENTS, Some(c.arguments));
    SumWithEnd(PrintedField(ID, Some(c.id)), PrintedField(FUNCTION, Some(c.name)),
               PrintedField(ARGUMENTS, Some(c.arguments)), END_CALL);
  }

  lemma CommasCount(items: seq<string>)
    requires items != []
    ensures Bytes(Commas(items)) ==
            Bytes(Commas(items[..|items| - 1])) + (if |items| > 1 then 1 else 0) + Bytes(items[|items| - 1])
  {
    var before, comma := Commas(items[..|items| - 1]), if |items| > 1 then "," else "";
    AsciiBytes(comma);
    BytesConcat(before, comma);
    BytesConcat(before + comma, items[|items| - 1]);
  }

  lemma {:induction false} CallsCount(cs: seq<ToolCall>)
    ensures Bytes(Commas(PrintedCalls(cs))) == JsonCalls(cs)
  {
    if cs != [] {
      CallsCount(cs[..|cs| - 1]);
      assert PrintedCalls(cs)[..|cs| - 1] == PrintedCalls(cs[..|cs| - 1]);
      CommasCount(PrintedCalls(cs));
      CallCount(cs[|cs| - 1]);
    }
  }

  lemma ToolCallsCount(m: Message)
    ensures Bytes(PrintedToolCalls(m)) == if m.calls.Some? then 14 + 2 + JsonCalls(m.calls.value) else 0
  {
    if m.calls.Some? {
      CallsCount(m.calls.value);
      Enclosed(CALLS, Commas(PrintedCalls(m.calls.value)), CLOSE);
    }
  }

  lemma SumOfSix(a: string, b: string, c: string, d: string, e: string, end: Ascii)
    ensures Bytes(a + b + c + d + e + end) == Bytes(a) + Bytes(b) + Bytes(c) + Bytes(d) + Bytes(e) + |end|
  {
    SumOfThree(a, b, c);
    SumWithEnd(a + b + c, d, e, end);
  }

  lemma MessageCount(m: Message)
    ensures Bytes(PrintedMessage(m)) == JsonMessage(m)
  {
    FieldCount(ROLE, Some(m.role));
    FieldCount(CONTENT, Some(m.content));
    ToolCallsCount(m);
    FieldCount(CALL_ID, m.toolCallId);
    FieldCount(NAME, m.name);
    SumOfSix(PrintedField(ROLE, Some(m.role)), PrintedField(CONTENT, Some(m.content)), PrintedToolCalls(m),
             PrintedField(CALL_ID, m.toolCallId), PrintedField(NAME, m.name), END);
  }

  lemma {:induction false} MessagesCount(ms: seq<Message>)
    ensures Bytes(Commas(PrintedMessages(ms))) == JsonMessages(ms)
  {
    if ms != [] {
      MessagesCount(ms[..|ms| - 1]);
      assert PrintedMessages(ms)[..|ms| - 1] == PrintedMessages(ms[..|ms| - 1]);
      CommasCount(PrintedMessages(ms));
      MessageCount(ms[|ms| - 1]);
    }
  }

  /** A conversation as a JSON array has as many bytes as the loop counts for it, with two for the brackets. */
  lemma CountsPrintedBytes(ms: seq<Message>)
    ensures Bytes(OPEN + Commas(PrintedMessages(ms)) + CLOSE) == JsonMessages(ms) + 2
  {
    MessagesCount(ms);
    Enclosed(OPEN, Commas(PrintedMessages(ms)), CLOSE);
  }

  /** The gateway counts the text of each message and its calls as a JSON array. */
  lemma GatewayCountsPrintedCalls(m: Message)
    ensures MessageBytes(m) ==
            Bytes(m.content) + if m.calls.Some? then Bytes(OPEN + Commas(PrintedCalls(m.calls.value)) + CLOSE) else 0
  {
    if m.calls.Some? {
      CallsCount(m.calls.value);
      Enclosed(OPEN, Commas(PrintedCalls(m.calls.value)), CLOSE);
    }
  }
}
