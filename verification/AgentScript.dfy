/** What an agent run is as a whole: which replies it takes, what it asks in each request, and when it succeeds. */
module AgentScript {
  import opened Contracts
  import opened Strings
  import opened Unicode
  import opened Agent

  // ---- The tools of one reply ----

  /** The suggestions that the calls of one reply make; each tool is told how many there are already. */
  function DraftsOf(calls: seq<ToolCall>, w: World): seq<string> {
    if calls == [] then []
    else
      var before := DraftsOf(calls[..|calls| - 1], w);
      var draft := w.tool(calls[|calls| - 1], |before|).draft;
      before + if draft.Some? then [draft.value] else []
  }

  function ResultOf(calls: seq<ToolCall>, i: nat, w: World): ToolResult
    requires i < |calls|
  {
    w.tool(calls[i], |DraftsOf(calls[..i], w)|)
  }

  function InvalidCount(calls: seq<ToolCall>, w: World): nat {
    if calls == [] then 0
    else InvalidCount(calls[..|calls| - 1], w) + if ResultOf(calls, |calls| - 1, w).invalid then 1 else 0
  }

  function AnswersTo(calls: seq<ToolCall>, w: World): seq<Message> {
    seq(|calls|, i requires 0 <= i < |calls| =>
      Message("tool", ResultOf(calls, i, w).content, None, Some(calls[i].id), Some(calls[i].name)))
  }

  /** The i-th tool is not stopped, its result is short enough, and it is not the second to blame its arguments. */
  predicate Runs(calls: seq<ToolCall>, i: nat, at: nat, invalid: nat, w: World)
    requires i < |calls|
  {
    var result := ResultOf(calls, i, w);
    && !w.stopsAtTool(at + i) && Bytes(result.content) <= 12 * 1024
    && (result.invalid ==> invalid + InvalidCount(calls[..i], w) == 0)
  }

  predicate AllRun(calls: seq<ToolCall>, at: nat, invalid: nat, w: World) {
    forall i :: 0 <= i < |calls| ==> Runs(calls, i, at, invalid, w)
  }

  function AfterTools(r: Run, calls: seq<ToolCall>, w: World): Run {
    r.(messages := r.messages + AnswersTo(calls, w), drafts := DraftsOf(calls, w), invalid := r.invalid + InvalidCount(calls, w))
  }

  lemma {:induction false} ToolsRun(r: Run, calls: seq<ToolCall>, at: nat, w: World)
    requires r.drafts == []
    ensures RunTools(r, calls, at, w).Going? <==> AllRun(calls, at, r.invalid, w)
    ensures RunTools(r, calls, at, w).Going? ==> RunTools(r, calls, at, w).run == AfterTools(r, calls, w)
  {
    if calls == [] {
      assert r.messages + AnswersTo(calls, w) == r.messages;
    } else {
      var init := calls[..|calls| - 1];
      ToolsRun(r, init, at, w);
      RunsBefore(calls, at, r.invalid, w);
      if AllRun(init, at, r.invalid, w) {
        ToolRuns(r, calls, at, w);
      }
    }
  }

  lemma RunsBefore(calls: seq<ToolCall>, at: nat, invalid: nat, w: World)
    requires calls != []
    ensures AllRun(calls, at, invalid, w) <==>
            AllRun(calls[..|calls| - 1], at, invalid, w) && Runs(calls, |calls| - 1, at, invalid, w)
  {
    var n := |calls| - 1;
    forall i | 0 <= i < n ensures Runs(calls[..n], i, at, invalid, w) <==> Runs(calls, i, at, invalid, w) {
      assert calls[..n][..i] == calls[..i];
    }
  }

  lemma ToolRuns(r: Run, calls: seq<ToolCall>, at: nat, w: World)
    requires calls != [] && r.drafts == []
    ensures var n := |calls| - 1;
            var t := RunTool(AfterTools(r, calls[..n], w), calls[n], at + n, w);
            && (t.Going? <==> Runs(calls, n, at, r.invalid, w))
            && (t.Going? ==> t.run == AfterTools(r, calls, w))
  {
    var n := |calls| - 1;
    AnswersMore(calls, w);
    assert r.messages + (AnswersTo(calls[..n], w) + [AnswersTo(calls, w)[n]])
        == r.messages + AnswersTo(calls[..n], w) + [AnswersTo(calls, w)[n]];
  }

  lemma AnswersMore(calls: seq<ToolCall>, w: World)
    requires calls != []
    ensures var n := |calls| - 1; AnswersTo(calls, w) == AnswersTo(calls[..n], w) + [AnswersTo(calls, w)[n]]
  {
    var n := |calls| - 1;
    assert forall i :: 0 <= i < n ==> calls[..n][..i] == calls[..i];
  }

  // ---- Call IDs ----

  function IdSet(calls: seq<ToolCall>): set<string> {
    set c | c in calls :: c.id
  }

  /** The IDs are proper ones, not seen before, and pairwise different. */
  predicate AreNew(calls: seq<ToolCall>, seen: set<string>) {
    && (forall i :: 0 <= i < |calls| ==> calls[i].id != "" && Bytes(calls[i].id) <= 128 && calls[i].id !in seen)
    && (forall i, j :: 0 <= i < j < |calls| ==> calls[i].id != calls[j].id)
  }

  lemma {:induction false} NewIdsArePassed(calls: seq<ToolCall>, seen: set<string>)
    ensures SeenAfter(calls, seen) == if AreNew(calls, seen) then Some(seen + IdSet(calls)) else None
  {
    if calls == [] {
      assert seen + IdSet(calls) == seen;
    } else {
      var init, id := calls[..|calls| - 1], calls[|calls| - 1].id;
      NewIdsArePassed(init, seen);
      NewIdsBefore(calls, seen);
      IdSetMore(calls);
      assert seen + IdSet(calls) == seen + IdSet(init) + {id};
    }
  }

  lemma IdSetMore(calls: seq<ToolCall>)
    requires calls != []
    ensures IdSet(calls) == IdSet(calls[..|calls| - 1]) + {calls[|calls| - 1].id}
  {
    var init, last := calls[..|calls| - 1], calls[|calls| - 1];
    assert calls == init + [last];
    forall id ensures id in IdSet(calls) <==> id in IdSet(init) || id == last.id {
      if id in IdSet(init) {
        var c :| c in init && c.id == id;
        assert c in calls;
      }
    }
  }

  lemma NewIdsBefore(calls: seq<ToolCall>, seen: set<string>)
    requires calls != []
    ensures var init, id := calls[..|calls| - 1], calls[|calls| - 1].id;
            AreNew(calls, seen) <==> AreNew(init, seen) && IsCallId(id) && id !in seen && id !in IdSet(init)
  {
    var n := |calls| - 1;
    var init, id := calls[..n], calls[n].id;
    if AreNew(calls, seen) {
      forall c | c in init ensures c.id != id {
        var i :| 0 <= i < n && init[i] == c;
        assert calls[i].id != calls[n].id;
      }
    }
    if AreNew(init, seen) && IsCallId(id) && id !in seen && id !in IdSet(init) {
      forall i, j | 0 <= i < j < |calls| ensures calls[i].id != calls[j].id {
        assert init[i] in init;
        if j < n {
          assert init[i].id != init[j].id;
        }
      }
      assert forall i :: 0 <= i < n ==> calls[i] == init[i];
    }
  }

  // ---- The replies of a run ----

  /** The conversation after these replies: each one and the answers to its calls follow the first messages. */
  function Script(first: seq<Message>, rs: seq<Reply>, w: World): seq<Message> {
    if rs == [] then first
    else
      var last := rs[|rs| - 1];
      Script(first, rs[..|rs| - 1], w) + [Message("assistant", last.content, Some(last.calls), None, None)] + AnswersTo(last.calls, w)
  }

  /** What was said: the contents that are not blank. */
  function Said(rs: seq<Reply>): seq<string> {
    if rs == [] then []
    else Said(rs[..|rs| - 1]) + if IsBlank(rs[|rs| - 1].content) then [] else [rs[|rs| - 1].content]
  }

  function CallCount(rs: seq<Reply>): nat {
    if rs == [] then 0 else CallCount(rs[..|rs| - 1]) + |rs[|rs| - 1].calls|
  }

  function InvalidIn(rs: seq<Reply>, w: World): nat {
    if rs == [] then 0 else InvalidIn(rs[..|rs| - 1], w) + InvalidCount(rs[|rs| - 1].calls, w)
  }

  function IdsIn(rs: seq<Reply>): set<string> {
    if rs == [] then {} else IdsIn(rs[..|rs| - 1]) + IdSet(rs[|rs| - 1].calls)
  }

  function Requests(first: seq<Message>, rs: seq<Reply>, w: World): seq<seq<Message>> {
    seq(|rs|, i requires 0 <= i < |rs| => Script(first, rs[..i], w))
  }

  function StateAfter(first: seq<Message>, rs: seq<Reply>, w: World): Run {
    Run(Script(first, rs, w), IdsIn(rs), Said(rs), [], CallCount(rs), |rs|, InvalidIn(rs, w), Requests(first, rs, w))
  }

  /** The next request is sent, in time and within 48 KB as JSON, and this reply to it is taken in time. */
  predicate IsHeard(first: seq<Message>, rs: seq<Reply>, reply: Reply, w: World) {
    && |rs| < 6 && !w.stopsBefore(|rs|) && !w.stopsAfter(|rs|)
    && JsonMessages(Script(first, rs, w)) + 2 <= 48 * 1024
    && w.model(Script(first, rs, w)) == Some(reply)
  }

  /** Tools are on, the reply has one to four calls and no more than twelve in all, with new IDs, and all of them run. */
  predicate CallsRun(rs: seq<Reply>, reply: Reply, toolsEnabled: bool, w: World) {
    && toolsEnabled && 1 <= |reply.calls| <= 4 && CallCount(rs) + |reply.calls| <= 12
    && AreNew(reply.calls, IdsIn(rs)) && AllRun(reply.calls, CallCount(rs), InvalidIn(rs, w), w)
  }

  /** The run asks again after this reply: its calls ran and made no suggestion. */
  predicate GoesOn(first: seq<Message>, rs: seq<Reply>, reply: Reply, toolsEnabled: bool, w: World) {
    IsHeard(first, rs, reply, w) && CallsRun(rs, reply, toolsEnabled, w) && DraftsOf(reply.calls, w) == []
  }

  /** The run succeeds with this reply: it has no calls, or its calls ran and made a suggestion. */
  predicate Succeeds(first: seq<Message>, rs: seq<Reply>, reply: Reply, toolsEnabled: bool, w: World) {
    && IsHeard(first, rs, reply, w)
    && (reply.calls == [] || (CallsRun(rs, reply, toolsEnabled, w) && DraftsOf(reply.calls, w) != []))
  }

  /** The parts with a blank line between them. */
  function Paragraphs(parts: seq<string>): string {
    if parts == [] then "" else if |parts| == 1 then parts[0] else parts[0] + "\n\n" + Paragraphs(parts[1..])
  }

  function ResultAfter(rs: seq<Reply>, last: Reply, w: World): Finished {
    var drafts := DraftsOf(last.calls, w);
    Finished(Paragraphs(Said(rs + [last])) + (if drafts == [] then "" else w.printed(drafts)),
             last.model, |rs| + 1, CallCount(rs + [last]), drafts)
  }

  lemma {:induction false} JoinedAreParagraphs(parts: seq<string>)
    ensures JoinText(parts) == Paragraphs(parts)
  {
    if |parts| > 1 {
      JoinedAreParagraphs(parts[..|parts| - 1]);
      ParagraphsMore(parts[..|parts| - 1], parts[|parts| - 1]);
      assert parts == parts[..|parts| - 1] + [parts[|parts| - 1]];
    }
  }

  lemma {:induction false} ParagraphsMore(parts: seq<string>, last: string)
    requires parts != []
    ensures Paragraphs(parts + [last]) == Paragraphs(parts) + "\n\n" + last
  {
    assert (parts + [last])[1..] == parts[1..] + [last];
    if |parts| > 1 {
      ParagraphsMore(parts[1..], last);
      assert parts[0] + "\n\n" + (Paragraphs(parts[1..]) + "\n\n" + last) == parts[0] + "\n\n" + Paragraphs(parts[1..]) + "\n\n" + last;
    }
  }

  lemma MoreReplies(rs: seq<Reply>, reply: Reply)
    ensures (rs + [reply])[..|rs|] == rs && (rs + [reply])[|rs|] == reply
    ensures CallCount(rs + [reply]) == CallCount(rs) + |reply.calls|
    ensures Said(rs + [reply]) == Said(rs) + if IsBlank(reply.content) then [] else [reply.content]
  {
  }

  /** The run with the next request sent. */
  function Sent(first: seq<Message>, rs: seq<Reply>, w: World): Run {
    var r := StateAfter(first, rs, w);
    r.(modelCalls := |rs| + 1, requests := r.requests + [r.messages])
  }

  /** The run with the reply's calls about to be run. */
  function Asking(first: seq<Message>, rs: seq<Reply>, reply: Reply, w: World): Run {
    Sent(first, rs, w).(transcript := Said(rs + [reply]), seen := IdsIn(rs) + IdSet(reply.calls),
                        toolCalls := CallCount(rs) + |reply.calls|,
                        messages := Script(first, rs, w) + [Message("assistant", reply.content, Some(reply.calls), None, None)])
  }

  lemma CallsTake(first: seq<Message>, rs: seq<Reply>, reply: Reply, w: World)
    ensures var t := RunTools(Asking(first, rs, reply, w), reply.calls, CallCount(rs), w);
            && (t.Going? <==> AllRun(reply.calls, CallCount(rs), InvalidIn(rs, w), w))
            && (t.Going? ==> t.run == AfterTools(Asking(first, rs, reply, w), reply.calls, w)) && !t.Done?
  {
    ToolsRun(Asking(first, rs, reply, w), reply.calls, CallCount(rs), w);
    ToolsKeepTheRest(Asking(first, rs, reply, w), reply.calls, CallCount(rs), w);
  }

  lemma NextState(first: seq<Message>, rs: seq<Reply>, reply: Reply, w: World)
    requires DraftsOf(reply.calls, w) == []
    ensures AfterTools(Asking(first, rs, reply, w), reply.calls, w) == StateAfter(first, rs + [reply], w)
  {
    MoreReplies(rs, reply);
    var all := rs + [reply];
    assert Requests(first, all, w) == Requests(first, rs, w) + [Script(first, rs, w)] by {
      assert forall i :: 0 <= i <= |rs| ==> all[..i] == rs[..i];
      assert rs[..|rs|] == rs;
    }
  }

  lemma HeardIs(first: seq<Message>, rs: seq<Reply>, reply: Reply, w: World)
    ensures var sent := Sent(first, rs, w);
            (if IsBlank(reply.content) then sent else sent.(transcript := sent.transcript + [reply.content]))
            == sent.(transcript := Said(rs + [reply]))
  {
    MoreReplies(rs, reply);
    assert Said(rs) + [] == Said(rs);
  }

  /** What a reply with calls leads to when it may be asked for. */
  lemma ReplyWithCalls(first: seq<Message>, rs: seq<Reply>, reply: Reply, w: World)
    requires 1 <= |reply.calls| <= 4 && CallCount(rs) + |reply.calls| <= 12
    ensures var t := OnReply(Sent(first, rs, w), reply, true, w);
            var tools := RunTools(Asking(first, rs, reply, w), reply.calls, CallCount(rs), w);
            && (!AreNew(reply.calls, IdsIn(rs)) || tools.Failed? ==> t.Failed?)
            && (AreNew(reply.calls, IdsIn(rs)) && tools.Going? ==>
                  t == if tools.run.drafts == [] then tools else Done(tools.run, Ending(tools.run, reply.model, w)))
  {
    var sent := Sent(first, rs, w);
    HeardIs(first, rs, reply, w);
    NewIdsArePassed(reply.calls, IdsIn(rs));
    HeardCalls(sent, sent.(transcript := Said(rs + [reply])), reply, w);
    AskingIs(first, rs, reply, w);
  }

  lemma AskingIs(first: seq<Message>, rs: seq<Reply>, reply: Reply, w: World)
    ensures var heard := Sent(first, rs, w).(transcript := Said(rs + [reply]));
            WithReply(heard, reply, IdsIn(rs) + IdSet(reply.calls), CallCount(rs)) == Asking(first, rs, reply, w)
  {
  }

  /** The run with the reply added, and its calls counted. */
  function WithReply(heard: Run, reply: Reply, seen: set<string>, before: nat): Run {
    heard.(seen := seen, toolCalls := before + |reply.calls|, messages := heard.messages + [AssistantMessage(reply)])
  }

  /** The same for any run, with what was said already noted. */
  lemma HeardCalls(r: Run, heard: Run, reply: Reply, w: World)
    requires heard == if IsBlank(reply.content) then r else r.(transcript := r.transcript + [reply.content])
    requires 1 <= |reply.calls| <= 4 && r.toolCalls + |reply.calls| <= 12
    ensures var t, seen := OnReply(r, reply, true, w), SeenAfter(reply.calls, r.seen);
            if seen.None? then t.Failed?
            else
              var tools := RunTools(WithReply(heard, reply, seen.value, r.toolCalls), reply.calls, r.toolCalls, w);
              && (tools.Failed? ==> t.Failed?)
              && (tools.Going? ==> t == if tools.run.drafts == [] then tools else Done(tools.run, Ending(tools.run, reply.model, w)))
  {
  }

  lemma ReplyWithoutCalls(first: seq<Message>, rs: seq<Reply>, reply: Reply, toolsEnabled: bool, w: World)
    requires reply.calls == []
    ensures var t := OnReply(Sent(first, rs, w), reply, toolsEnabled, w);
            t.Done? && t.result == ResultAfter(rs, reply, w)
  {
    HeardIs(first, rs, reply, w);
    MoreReplies(rs, reply);
    JoinedAreParagraphs(Said(rs + [reply]));
  }

  lemma ReplyRefused(first: seq<Message>, rs: seq<Reply>, reply: Reply, toolsEnabled: bool, w: World)
    requires reply.calls != [] && !(toolsEnabled && |reply.calls| <= 4 && CallCount(rs) + |reply.calls| <= 12)
    ensures OnReply(Sent(first, rs, w), reply, toolsEnabled, w).Failed?
  {
  }

  /** One reply, after these: the run fails, goes on, or succeeds. */
  lemma ReplyTakes(first: seq<Message>, rs: seq<Reply>, reply: Reply, toolsEnabled: bool, w: World)
    requires IsHeard(first, rs, reply, w)
    ensures var t := OnReply(Sent(first, rs, w), reply, toolsEnabled, w);
            && (t.Going? <==> GoesOn(first, rs, reply, toolsEnabled, w))
            && (t.Going? ==> t.run == StateAfter(first, rs + [reply], w))
            && (t.Done? <==> Succeeds(first, rs, reply, toolsEnabled, w))
            && (t.Done? ==> t.result == ResultAfter(rs, reply, w))
  {
    if reply.calls == [] {
      ReplyWithoutCalls(first, rs, reply, toolsEnabled, w);
    } else if !(toolsEnabled && |reply.calls| <= 4 && CallCount(rs) + |reply.calls| <= 12) {
      ReplyRefused(first, rs, reply, toolsEnabled, w);
    } else {
      ReplyWithCalls(first, rs, reply, w);
      CallsTake(first, rs, reply, w);
      MoreReplies(rs, reply);
      JoinedAreParagraphs(Said(rs + [reply]));
      if DraftsOf(reply.calls, w) == [] {
        NextState(first, rs, reply, w);
      }
    }
  }

  // ---- Whole runs ----

  lemma TurnTakes(first: seq<Message>, rs: seq<Reply>, toolsEnabled: bool, w: World)
    requires |rs| < 6
    ensures var t := OneTurn(StateAfter(first, rs, w), |rs|, toolsEnabled, w);
            if !w.stopsBefore(|rs|) && JsonMessages(Script(first, rs, w)) + 2 <= 48 * 1024
               && w.model(Script(first, rs, w)).Some? && !w.stopsAfter(|rs|)
            then t == OnReply(Sent(first, rs, w), w.model(Script(first, rs, w)).value, toolsEnabled, w)
            else t.Failed?
  {
  }

  /** The run went on after each reply. */
  predicate AllGoOn(first: seq<Message>, rs: seq<Reply>, toolsEnabled: bool, w: World) {
    if rs == [] then true
    else
      var init := rs[..|rs| - 1];
      AllGoOn(first, init, toolsEnabled, w) && GoesOn(first, init, rs[|rs| - 1], toolsEnabled, w)
  }

  /** The run as a whole: these replies went on, and it succeeds with the last. */
  predicate IsRun(first: seq<Message>, rs: seq<Reply>, last: Reply, toolsEnabled: bool, w: World) {
    AllGoOn(first, rs, toolsEnabled, w) && Succeeds(first, rs, last, toolsEnabled, w)
  }

  /** A run that goes on is that of one more reply. */
  lemma RunGoesOn(first: seq<Message>, rs: seq<Reply>, reply: Reply, toolsEnabled: bool, w: World)
    requires GoesOn(first, rs, reply, toolsEnabled, w)
    ensures Turns(StateAfter(first, rs, w), |rs|, toolsEnabled, w)
            == Turns(StateAfter(first, rs + [reply], w), |rs| + 1, toolsEnabled, w)
  {
    TurnTakes(first, rs, toolsEnabled, w);
    ReplyTakes(first, rs, reply, toolsEnabled, w);
  }

  lemma RunSucceeds(first: seq<Message>, rs: seq<Reply>, reply: Reply, toolsEnabled: bool, w: World)
    requires Succeeds(first, rs, reply, toolsEnabled, w)
    ensures var t := Turns(StateAfter(first, rs, w), |rs|, toolsEnabled, w);
            t.Done? && t.result == ResultAfter(rs, reply, w)
  {
    TurnTakes(first, rs, toolsEnabled, w);
    ReplyTakes(first, rs, reply, toolsEnabled, w);
  }

  /** A run that is done has heard a reply with which it went on or succeeded. */
  lemma DoneHasHeard(first: seq<Message>, rs: seq<Reply>, toolsEnabled: bool, w: World) returns (reply: Reply)
    requires |rs| <= 6 && Turns(StateAfter(first, rs, w), |rs|, toolsEnabled, w).Done?
    ensures GoesOn(first, rs, reply, toolsEnabled, w) || Succeeds(first, rs, reply, toolsEnabled, w)
  {
    TurnTakes(first, rs, toolsEnabled, w);
    reply := w.model(Script(first, rs, w)).value;
    ReplyTakes(first, rs, reply, toolsEnabled, w);
  }

  lemma {:induction false} DoneIsRun(first: seq<Message>, rs: seq<Reply>, toolsEnabled: bool, w: World)
    returns (all: seq<Reply>, last: Reply)
    requires |rs| <= 6 && AllGoOn(first, rs, toolsEnabled, w)
    requires Turns(StateAfter(first, rs, w), |rs|, toolsEnabled, w).Done?
    ensures IsRun(first, all, last, toolsEnabled, w)
    ensures Turns(StateAfter(first, rs, w), |rs|, toolsEnabled, w).result == ResultAfter(all, last, w)
    decreases 6 - |rs|
  {
    var reply := DoneHasHeard(first, rs, toolsEnabled, w);
    if GoesOn(first, rs, reply, toolsEnabled, w) {
      RunGoesOn(first, rs, reply, toolsEnabled, w);
      assert (rs + [reply])[..|rs|] == rs;
      all, last := DoneIsRun(first, rs + [reply], toolsEnabled, w);
    } else {
      RunSucceeds(first, rs, reply, toolsEnabled, w);
      all, last := rs, reply;
    }
  }

  lemma LastGoesOn(first: seq<Message>, rs: seq<Reply>, toolsEnabled: bool, w: World)
    requires rs != [] && AllGoOn(first, rs, toolsEnabled, w) && |rs| <= 6
    ensures var init := rs[..|rs| - 1];
            Turns(StateAfter(first, init, w), |init|, toolsEnabled, w) == Turns(StateAfter(first, rs, w), |rs|, toolsEnabled, w)
  {
    RunGoesOn(first, rs[..|rs| - 1], rs[|rs| - 1], toolsEnabled, w);
    InitAndLast(rs);
  }

  lemma InitAndLast<T>(s: seq<T>)
    requires s != []
    ensures s[..|s| - 1] + [s[|s| - 1]] == s
  {
  }

  lemma {:induction false} RunComesTo(first: seq<Message>, rs: seq<Reply>, toolsEnabled: bool, w: World)
    requires AllGoOn(first, rs, toolsEnabled, w) && |rs| <= 6
    ensures Turns(StateAfter(first, [], w), 0, toolsEnabled, w) == Turns(StateAfter(first, rs, w), |rs|, toolsEnabled, w)
  {
    if rs != [] {
      RunComesTo(first, rs[..|rs| - 1], toolsEnabled, w);
      LastGoesOn(first, rs, toolsEnabled, w);
    }
  }

  /** A run succeeds with a result exactly when its replies are a run that gives this result. */
  lemma SucceedsExactlyWhen(first: seq<Message>, toolsEnabled: bool, w: World, result: Finished)
    ensures var t := Turns(StartRun(first), 0, toolsEnabled, w);
            t.Done? && t.result == result <==>
            exists rs, last :: IsRun(first, rs, last, toolsEnabled, w) && result == ResultAfter(rs, last, w)
  {
    var t := Turns(StartRun(first), 0, toolsEnabled, w);
    assert StateAfter(first, [], w) == StartRun(first);
    if t.Done? {
      var rs, last := DoneIsRun(first, [], toolsEnabled, w);
    }
    if rs, last :| IsRun(first, rs, last, toolsEnabled, w) && result == ResultAfter(rs, last, w) {
      RunComesTo(first, rs, toolsEnabled, w);
      RunSucceeds(first, rs, last, toolsEnabled, w);
    }
  }

  // ---- The first request ----

  predicate IsSpoken(m: Stored) {
    m.role == "user" || m.role == "assistant"
  }

  function SpokenCount(items: seq<Stored>): nat {
    if items == [] then 0 else SpokenCount(items[..|items| - 1]) + if IsSpoken(items[|items| - 1]) then 1 else 0
  }

  lemma {:induction false} ConversationAt(items: seq<Stored>)
    ensures |Conversation(items)| == SpokenCount(items)
    ensures forall i :: 0 <= i < |items| && IsSpoken(items[i]) ==>
              SpokenCount(items[..i]) < SpokenCount(items)
              && Conversation(items)[SpokenCount(items[..i])] == Message(items[i].role, items[i].text, None, None, None)
  {
    if items != [] {
      var n := |items| - 1;
      ConversationAt(items[..n]);
      assert forall i :: 0 <= i < n ==> items[..n][..i] == items[..i];
    }
  }

  /** The conversation is the policy, the last 22 of what user and assistant said before in order, and the user's text. */
  predicate IsBuilt(ms: seq<Message>, earlier: seq<Stored>, system: string, user: string) {
    var n := SpokenCount(earlier);
    var left := if n > 22 then n - 22 else 0;
    && |ms| == 2 + n - left
    && ms[0] == Message("system", system, None, None, None) && ms[|ms| - 1] == Message("user", user, None, None, None)
    && forall i :: 0 <= i < |earlier| && IsSpoken(earlier[i]) && left <= SpokenCount(earlier[..i]) < n ==>
         ms[1 + SpokenCount(earlier[..i]) - left] == Message(earlier[i].role, earlier[i].text, None, None, None)
  }

  /** A conversation is built exactly when the last stored message is the user's and policy and text are given. */
  lemma BuiltExactlyWhen(stored: seq<Stored>, system: Option<string>, user: Option<string>)
    ensures BuildMessages(stored, system, user).Some? <==>
            stored != [] && stored[|stored| - 1].role == "user" && system.Some? && user.Some?
    ensures BuildMessages(stored, system, user).Some? ==>
            IsBuilt(BuildMessages(stored, system, user).value, stored[..|stored| - 1], system.value, user.value)
  {
    if stored != [] {
      ConversationAt(stored[..|stored| - 1]);
    }
  }
}
