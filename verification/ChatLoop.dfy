/** The bounded tool loop of the chat backend, in its plain and its streaming form. */
module ChatLoop {
  import opened Wrappers
  import opened Text
  import opened Json
  import opened Sse

  datatype Block = TextBlock(text: string) | ToolUse(id: string, name: string, input: Json) | OtherBlock

  datatype ToolResult = ToolResult(id: string, content: string)

  datatype Message =
    | Prior(role: string, content: Json)  // an entry of the caller's history
    | User(text: string)
    | Assistant(blocks: seq<Block>)
    | Results(results: seq<ToolResult>)

  /** A model call: the final message with the text deltas that were streamed on the way, or an exception. */
  datatype Reply = Reply(stopReason: string, content: seq<Block>, deltas: seq<string>) | ApiError(deltas: seq<string>)

  datatype Outcome = Returned(output: Json) | Raised(kind: string, text: string)

  /**
   * The outside world: a model that may answer any message list in any way, the table of tools, and what running a
   * tool yields after the runs before it.
   */
  datatype Env = Env(
    model: seq<Message> -> Reply,
    tools: set<string>,
    run: (seq<ToolCall>, ToolCall) -> Outcome)

  const MAX_TOOL_ROUNDS := 8
  const RESULT_LIMIT := 20000
  const STOPPED := "Stopped after the maximum number of tool steps."
  const EXCLUDED: set<string> := {"slack_post", "teams_post"}

  /** The table the chat gets: every captured tool but the excluded ones. */
  function CollectTools(captured: set<string>): set<string> {
    set name | name in captured && name !in EXCLUDED
  }

  // ---- One turn of tools ----

  /** Calls recorded for the page, calls really run, and results for the model. */
  datatype Turn = Turn(trace: seq<ToolCall>, ran: seq<ToolCall>, results: seq<ToolResult>)

  function ErrorOutput(text: string): Json {
    Obj([("error", Str(text))])
  }

  function OutputOf(env: Env, ran: seq<ToolCall>, call: ToolCall): Json {
    if call.tool !in env.tools then ErrorOutput("unknown tool " + call.tool) else
    match env.run(ran, call)
    case Returned(output) => output
    case Raised(kind, text) => ErrorOutput(kind + ": " + text)
  }

  function RunBlock(env: Env, t: Turn, b: Block): Turn {
    if !b.ToolUse? then t else
    var call := ToolCall(b.name, b.input);
    Turn(t.trace + [call],
         if call.tool in env.tools then t.ran + [call] else t.ran,
         t.results + [ToolResult(b.id, Take(Dumps(OutputOf(env, t.ran, call), " "), RESULT_LIMIT))])
  }

  function RunBlocks(env: Env, t: Turn, blocks: seq<Block>): Turn
    decreases |blocks|
  {
    if blocks == [] then t else RunBlocks(env, RunBlock(env, t, blocks[0]), blocks[1..])
  }

  // ---- The rounds ----

  /** The conversation so far, with every message list sent to the model. */
  datatype Chat = Chat(messages: seq<Message>, trace: seq<ToolCall>, ran: seq<ToolCall>, sent: seq<seq<Message>>)

  datatype End = Finished(content: seq<Block>) | Exhausted | Crashed

  function StartOf(message: string, history: seq<Message>): Chat {
    Chat(history + [User(message)], [], [], [])
  }

  function AfterTools(env: Env, c: Chat, content: seq<Block>): Chat {
    var t := RunBlocks(env, Turn(c.trace, c.ran, []), content);
    Chat(c.messages + [Assistant(content), Results(t.results)], t.trace, t.ran, c.sent + [c.messages])
  }

  function Rounds(env: Env, c: Chat, k: nat): (r: (Chat, End))
    ensures c.messages <= r.0.messages
    decreases k
  {
    if k == 0 then (c, Exhausted) else
    var sent := c.(sent := c.sent + [c.messages]);
    match env.model(c.messages)
    case ApiError(_) => (sent, Crashed)
    case Reply(stopReason, content, _) =>
      if stopReason != "tool_use" then (sent, Finished(content))
      else Rounds(env, AfterTools(env, c, content), k - 1)
  }

  function TextOf(blocks: seq<Block>): string {
    if blocks == [] then [] else (if blocks[0].TextBlock? then blocks[0].text else []) + TextOf(blocks[1..])
  }

  datatype Answer = Answer(reply: string, trace: seq<ToolCall>) | Threw

  function AnswerOf(chat: Chat, end: End): Answer {
    match end
    case Finished(content) => Answer(Strip(TextOf(content)), chat.trace)
    case Exhausted => Answer(STOPPED, chat.trace)
    case Crashed => Threw
  }

  function DeltaEvents(deltas: seq<string>): seq<Event> {
    seq(|deltas|, i requires 0 <= i < |deltas| => Delta(deltas[i]))
  }

  function ToolEvents(blocks: seq<Block>): seq<Event> {
    if blocks == [] then [] else EventOf(blocks[0]) + ToolEvents(blocks[1..])
  }

  function EventOf(b: Block): seq<Event> {
    if b.ToolUse? then [Tool(b.name)] else []
  }

  /** What the streaming form emits from `c` on. */
  function Emitted(env: Env, c: Chat, k: nat): seq<Event>
    decreases k
  {
    if k == 0 then [Done(c.trace, true)] else
    match env.model(c.messages)
    case ApiError(deltas) => DeltaEvents(deltas)
    case Reply(stopReason, content, deltas) =>
      DeltaEvents(deltas)
      + (if stopReason != "tool_use" then [Done(c.trace, true)]
         else ToolEvents(content) + Emitted(env, AfterTools(env, c, content), k - 1))
  }

  method RunChat(env: Env, message: string, history: seq<Message>) returns (chat: Chat, answer: Answer)
    ensures var (c, end) := Rounds(env, StartOf(message, history), MAX_TOOL_ROUNDS);
            chat == c && answer == AnswerOf(c, end)
    ensures Protocol(env, |history| + 1, chat) && |chat.sent| <= 8
  {
    RoundsProtocol(env, message, history);
    ghost var start := StartOf(message, history);
    var messages := history + [User(message)];
    var trace, ran, sent := [], [], [];
    for round := 0 to MAX_TOOL_ROUNDS
      invariant Rounds(env, Chat(messages, trace, ran, sent), MAX_TOOL_ROUNDS - round)
                == Rounds(env, start, MAX_TOOL_ROUNDS)
    {
      ghost var now := Chat(messages, trace, ran, sent);
      var resp := env.model(messages);
      sent := sent + [messages];
      if resp.ApiError? {
        return Chat(messages, trace, ran, sent), Threw;
      }
      if resp.stopReason != "tool_use" {
        return Chat(messages, trace, ran, sent), Answer(Strip(TextOf(resp.content)), trace);
      }
      var content := resp.content;
      messages := messages + [Assistant(content)];
      var results := [];
      for i := 0 to |content|
        invariant RunBlocks(env, Turn(trace, ran, results), content[i..])
                  == RunBlocks(env, Turn(now.trace, now.ran, []), content)
      {
        assert content[i..][1..] == content[i + 1..];
        var block := content[i];
        if block.ToolUse? {
          var call := ToolCall(block.name, block.input);
          var output := OutputOf(env, ran, call);
          if call.tool in env.tools {
            ran := ran + [call];
          }
          trace := trace + [call];
          results := results + [ToolResult(block.id, Take(Dumps(output, " "), RESULT_LIMIT))];
        }
      }
      messages := messages + [Results(results)];
      assert messages == now.messages + [Assistant(content), Results(results)];
      assert Chat(messages, trace, ran, sent) == AfterTools(env, now, content);
    }
    return Chat(messages, trace, ran, sent), Answer(STOPPED, trace);
  }

  /** The live text of one streamed turn. */
  method StreamDeltas(deltas: seq<string>) returns (events: seq<Event>)
    ensures events == DeltaEvents(deltas)
  {
    events := [];
    for d := 0 to |deltas|
      invariant events == DeltaEvents(deltas)[..d]
    {
      events := events + [Delta(deltas[d])];
    }
  }

  /** The tool blocks of one streamed turn, each announced before it is run. */
  method StreamTools(env: Env, content: seq<Block>, trace0: seq<ToolCall>, ran0: seq<ToolCall>)
    returns (events: seq<Event>, trace: seq<ToolCall>, ran: seq<ToolCall>, results: seq<ToolResult>)
    ensures events == ToolEvents(content)
    ensures Turn(trace, ran, results) == RunBlocks(env, Turn(trace0, ran0, []), content)
    ensures forall prior :: ran0 == Known(env.tools, trace0) && Told(env, trace0, prior) ==>
              Told(env, trace, prior + results)
  {
    forall prior | ran0 == Known(env.tools, trace0) && Told(env, trace0, prior)
      ensures var t := RunBlocks(env, Turn(trace0, ran0, []), content); Told(env, t.trace, prior + t.results)
    {
      assert prior + [] == prior;
      BlocksTold(env, Turn(trace0, ran0, []), prior, content);
    }
    events, trace, ran, results := [], trace0, ran0, [];
    for i := 0 to |content|
      invariant RunBlocks(env, Turn(trace, ran, results), content[i..])
                == RunBlocks(env, Turn(trace0, ran0, []), content)
      invariant events + ToolEvents(content[i..]) == ToolEvents(content)
    {
      assert content[i..][1..] == content[i + 1..];
      var block := content[i];
      ghost var earlier, before := events, Turn(trace, ran, results);
      if block.ToolUse? {
        events := events + [Tool(block.name)];
        var call := ToolCall(block.name, block.input);
        var output := OutputOf(env, ran, call);
        if call.tool in env.tools {
          ran := ran + [call];
        }
        trace := trace + [call];
        results := results + [ToolResult(block.id, Take(Dumps(output, " "), RESULT_LIMIT))];
      }
      assert Turn(trace, ran, results) == RunBlock(env, before, block);
      assert events == earlier + EventOf(block);
      Regroup(earlier, EventOf(block), ToolEvents(content[i + 1..]));
    }
  }

  /** `events` are what the generator yields; if the model call throws, it yields nothing more. */
  method StreamChat(env: Env, message: string, history: seq<Message>) returns (chat: Chat, events: seq<Event>)
    ensures chat == Rounds(env, StartOf(message, history), MAX_TOOL_ROUNDS).0
    ensures events == Emitted(env, StartOf(message, history), MAX_TOOL_ROUNDS)
    ensures Protocol(env, |history| + 1, chat) && |chat.sent| <= 8
  {
    RoundsProtocol(env, message, history);
    ghost var start := StartOf(message, history);
    var messages := history + [User(message)];
    var trace, ran, sent := [], [], [];
    events := [];
    for round := 0 to MAX_TOOL_ROUNDS
      invariant Rounds(env, Chat(messages, trace, ran, sent), MAX_TOOL_ROUNDS - round)
                == Rounds(env, start, MAX_TOOL_ROUNDS)
      invariant events + Emitted(env, Chat(messages, trace, ran, sent), MAX_TOOL_ROUNDS - round)
                == Emitted(env, start, MAX_TOOL_ROUNDS)
    {
      ghost var now, earlier, k := Chat(messages, trace, ran, sent), events, MAX_TOOL_ROUNDS - round;
      var final := env.model(messages);
      sent := sent + [messages];
      var deltaEvents := StreamDeltas(final.deltas);
      events := events + deltaEvents;
      if final.ApiError? {
        return Chat(messages, trace, ran, sent), events;
      }
      if final.stopReason != "tool_use" {
        Regroup(earlier, DeltaEvents(final.deltas), [Done(trace, true)]);
        events := events + [Done(trace, true)];
        return Chat(messages, trace, ran, sent), events;
      }
      var toolEvents, results;
      toolEvents, trace, ran, results := StreamTools(env, final.content, trace, ran);
      events := events + toolEvents;
      messages := messages + [Assistant(final.content)] + [Results(results)];
      assert messages == now.messages + [Assistant(final.content), Results(results)];
      ghost var next := Chat(messages, trace, ran, sent);
      assert next == AfterTools(env, now, final.content);
      EmittedNext(env, now, k, earlier);
    }
    events := events + [Done(trace, true)];
    return Chat(messages, trace, ran, sent), events;
  }

  lemma EmittedNext(env: Env, c: Chat, k: nat, earlier: seq<Event>)
    requires k > 0 && env.model(c.messages).Reply? && env.model(c.messages).stopReason == "tool_use"
    ensures var reply := env.model(c.messages);
            earlier + Emitted(env, c, k)
            == earlier + DeltaEvents(reply.deltas) + ToolEvents(reply.content)
               + Emitted(env, AfterTools(env, c, reply.content), k - 1)
  {
    var reply := env.model(c.messages);
    var d, t := DeltaEvents(reply.deltas), ToolEvents(reply.content);
    var rest := Emitted(env, AfterTools(env, c, reply.content), k - 1);
    assert earlier + (d + (t + rest)) == earlier + d + t + rest;
  }

  // ---- The message protocol ----

  function IdOf(b: Block): seq<string> {
    if b.ToolUse? then [b.id] else []
  }

  function CallOf(b: Block): seq<ToolCall> {
    if b.ToolUse? then [ToolCall(b.name, b.input)] else []
  }

  function ToolIds(blocks: seq<Block>): seq<string> {
    if blocks == [] then [] else IdOf(blocks[0]) + ToolIds(blocks[1..])
  }

  function ToolCalls(blocks: seq<Block>): seq<ToolCall> {
    if blocks == [] then [] else CallOf(blocks[0]) + ToolCalls(blocks[1..])
  }

  function ResultIds(results: seq<ToolResult>): seq<string> {
    seq(|results|, i requires 0 <= i < |results| => results[i].id)
  }

  /** Assistant turns alternating with results whose ids answer that turn's tool uses one to one, in order. */
  ghost predicate Alternating(turns: seq<Message>) {
    turns == [] ||
    (&& |turns| >= 2 && turns[0].Assistant? && turns[1].Results?
     && ResultIds(turns[1].results) == ToolIds(turns[0].blocks)
     && Alternating(turns[2..]))
  }

  /** All tool calls the assistant turns ask for. */
  function CallsIn(turns: seq<Message>): seq<ToolCall> {
    if turns == [] then [] else CallsOf(turns[0]) + CallsIn(turns[1..])
  }

  function CallsOf(m: Message): seq<ToolCall> {
    if m.Assistant? then ToolCalls(m.blocks) else []
  }

  function Known(tools: set<string>, calls: seq<ToolCall>): seq<ToolCall> {
    if calls == [] then [] else IfKnown(tools, calls[0]) + Known(tools, calls[1..])
  }

  function IfKnown(tools: set<string>, call: ToolCall): seq<ToolCall> {
    if call.tool in tools then [call] else []
  }

  /** The runs grow, call by call, by those of a tool in the table. */
  lemma {:induction false} KnownExactly(tools: set<string>, calls: seq<ToolCall>, call: ToolCall)
    ensures Known(tools, []) == []
    ensures Known(tools, calls + [call]) == Known(tools, calls) + if call.tool in tools then [call] else []
  {
    KnownAppend(tools, calls, [call]);
    assert [call][1..] == [];
  }

  lemma {:induction false} KnownAppend(tools: set<string>, a: seq<ToolCall>, b: seq<ToolCall>)
    ensures Known(tools, a + b) == Known(tools, a) + Known(tools, b)
  {
    if a == [] {
      assert a + b == b;
    } else {
      assert (a + b)[1..] == a[1..] + b;
      KnownAppend(tools, a[1..], b);
      Regroup(IfKnown(tools, a[0]), Known(tools, a[1..]), Known(tools, b));
    }
  }

  lemma BlockRuns(env: Env, t: Turn, b: Block)
    ensures var t' := RunBlock(env, t, b);
            && ResultIds(t'.results) == ResultIds(t.results) + IdOf(b)
            && t'.trace == t.trace + CallOf(b)
            && t'.ran == t.ran + Known(env.tools, CallOf(b))
  {
    if b.ToolUse? {
      assert CallOf(b)[1..] == [];
    }
  }

  lemma {:induction false} BlocksRun(env: Env, t: Turn, blocks: seq<Block>)
    ensures var t' := RunBlocks(env, t, blocks);
            && ResultIds(t'.results) == ResultIds(t.results) + ToolIds(blocks)
            && t'.trace == t.trace + ToolCalls(blocks)
            && t'.ran == t.ran + Known(env.tools, ToolCalls(blocks))
    decreases |blocks|
  {
    if blocks == [] {
    } else {
      var b, rest := blocks[0], blocks[1..];
      BlockRuns(env, t, b);
      BlocksRun(env, RunBlock(env, t, b), rest);
      KnownAppend(env.tools, CallOf(b), ToolCalls(rest));
      Regroup(ResultIds(t.results), IdOf(b), ToolIds(rest));
      Regroup(t.trace, CallOf(b), ToolCalls(rest));
      Regroup(t.ran, Known(env.tools, CallOf(b)), Known(env.tools, ToolCalls(rest)));
    }
  }

  lemma {:induction false} AlternatingAppend(turns: seq<Message>, a: Message, r: Message)
    requires Alternating(turns) && a.Assistant? && r.Results? && ResultIds(r.results) == ToolIds(a.blocks)
    ensures Alternating(turns + [a, r])
    decreases |turns|
  {
    if turns == [] {
      assert turns + [a, r] == [a, r] && [a, r][2..] == [];
    } else {
      assert (turns + [a, r])[2..] == turns[2..] + [a, r];
      AlternatingAppend(turns[2..], a, r);
    }
  }

  lemma {:induction false} CallsInAppend(turns: seq<Message>, a: Message, r: Message)
    requires a.Assistant? && r.Results?
    ensures CallsIn(turns + [a, r]) == CallsIn(turns) + ToolCalls(a.blocks)
  {
    if turns == [] {
      assert turns + [a, r] == [a, r] && [a, r][1..] == [r];
      assert CallsIn([r]) == [];
    } else {
      assert (turns + [a, r])[1..] == turns[1..] + [a, r];
      CallsInAppend(turns[1..], a, r);
      Regroup(CallsOf(turns[0]), CallsIn(turns[1..]), ToolCalls(a.blocks));
    }
  }

  // ---- What the model is told about its calls ----

  function ResultsOf(m: Message): seq<ToolResult> {
    if m.Results? then m.results else []
  }

  /** All results sent back, in order. */
  function ResultsIn(turns: seq<Message>): seq<ToolResult> {
    if turns == [] then [] else ResultsOf(turns[0]) + ResultsIn(turns[1..])
  }

  /** The content is the printed value, cut after 20000 characters. */
  predicate Prints(content: string, v: Json) {
    var text := Dumps(v, " ");
    content == text[..if |text| <= 20000 then |text| else 20000]
  }

  /** What a call yields after the runs before it: its value, the error it raised, or that there is no such tool. */
  predicate Tells(env: Env, ran: seq<ToolCall>, call: ToolCall, content: string) {
    if call.tool !in env.tools then Prints(content, Obj([("error", Str("unknown tool " + call.tool))]))
    else match env.run(ran, call)
      case Returned(v) => Prints(content, v)
      case Raised(kind, text) => Prints(content, Obj([("error", Str(kind + ": " + text))]))
  }

  /** Call `g` of the trace is told what it yielded after the known calls before it had been run. */
  predicate ToldAt(env: Env, trace: seq<ToolCall>, g: nat, content: string)
    requires g < |trace|
  {
    Tells(env, Known(env.tools, trace[..g]), trace[g], content)
  }

  /** So is each call, in order. */
  ghost predicate Told(env: Env, trace: seq<ToolCall>, results: seq<ToolResult>) {
    |results| == |trace| && forall g :: 0 <= g < |trace| ==> ToldAt(env, trace, g, results[g].content)
  }

  lemma ToldNext(env: Env, trace: seq<ToolCall>, results: seq<ToolResult>, call: ToolCall, r: ToolResult)
    requires Told(env, trace, results) && Tells(env, Known(env.tools, trace), call, r.content)
    ensures Told(env, trace + [call], results + [r])
  {
    var longer := trace + [call];
    assert longer[..|trace|] == trace;
    forall g | 0 <= g < |longer|
      ensures ToldAt(env, longer, g, (results + [r])[g].content)
    {
      if g < |trace| {
        assert ToldAt(env, trace, g, results[g].content) && longer[..g] == trace[..g];
      }
    }
  }

  lemma {:induction false} BlockTold(env: Env, t: Turn, prior: seq<ToolResult>, b: Block)
    requires t.ran == Known(env.tools, t.trace) && Told(env, t.trace, prior + t.results)
    ensures var t' := RunBlock(env, t, b);
            t'.ran == Known(env.tools, t'.trace) && Told(env, t'.trace, prior + t'.results)
  {
    BlockRuns(env, t, b);
    KnownAppend(env.tools, t.trace, CallOf(b));
    if b.ToolUse? {
      var call := ToolCall(b.name, b.input);
      var r := ToolResult(b.id, Take(Dumps(OutputOf(env, t.ran, call), " "), RESULT_LIMIT));
      ToldNext(env, t.trace, prior + t.results, call, r);
      Regroup(prior, t.results, [r]);
    }
  }

  lemma {:induction false} BlocksTold(env: Env, t: Turn, prior: seq<ToolResult>, blocks: seq<Block>)
    requires t.ran == Known(env.tools, t.trace) && Told(env, t.trace, prior + t.results)
    ensures var t' := RunBlocks(env, t, blocks);
            t'.ran == Known(env.tools, t'.trace) && Told(env, t'.trace, prior + t'.results)
    decreases |blocks|
  {
    if blocks == [] {
    } else {
      BlockTold(env, t, prior, blocks[0]);
      BlocksTold(env, RunBlock(env, t, blocks[0]), prior, blocks[1..]);
    }
  }

  lemma {:induction false} ResultsInAppend(turns: seq<Message>, a: Message, r: Message)
    requires a.Assistant? && r.Results?
    ensures ResultsIn(turns + [a, r]) == ResultsIn(turns) + r.results
  {
    if turns == [] {
      assert turns + [a, r] == [a, r] && [a, r][1..] == [r] && [r][1..] == [];
    } else {
      assert (turns + [a, r])[1..] == turns[1..] + [a, r];
      ResultsInAppend(turns[1..], a, r);
      Regroup(ResultsOf(turns[0]), ResultsIn(turns[1..]), r.results);
    }
  }

  /**
   * What every conversation keeps: `n` messages to start from, then alternating turns, each what the model answered to
   * the messages before it; sent lists are its prefixes; every call is recorded, run if known, and told what it
   * yielded.
   */
  ghost predicate Protocol(env: Env, n: nat, c: Chat) {
    && n <= |c.messages|
    && Alternating(c.messages[n..])
    && c.trace == CallsIn(c.messages[n..])
    && c.ran == Known(env.tools, c.trace)
    && Told(env, c.trace, ResultsIn(c.messages[n..]))
    && SentInTurn(n, c.messages, c.sent)
    && Spoken(env, n, c.messages)
  }

  /** Message `m` is what the model said to those before it, asking for tools. */
  predicate SpokenAt(env: Env, messages: seq<Message>, m: nat)
    requires m < |messages|
  {
    var reply := env.model(messages[..m]);
    reply.Reply? && reply.stopReason == "tool_use" && messages[m] == Assistant(reply.content)
  }

  /** So is every other message from the `n`-th on. */
  ghost predicate Spoken(env: Env, n: nat, messages: seq<Message>) {
    forall m :: n <= m < |messages| && (m - n) % 2 == 0 ==> SpokenAt(env, messages, m)
  }

  lemma NextOfParity(n: nat, end: nat, m: nat)
    requires n <= end <= m < end + 2 && (end - n) % 2 == 0 && (m - n) % 2 == 0
    ensures m == end
  {
  }

  lemma SpokenLonger(env: Env, messages: seq<Message>, more: seq<Message>, m: nat)
    requires m < |messages| && SpokenAt(env, messages, m)
    ensures SpokenAt(env, messages + more, m)
  {
    assert (messages + more)[..m] == messages[..m];
  }

  lemma SpokenNow(env: Env, messages: seq<Message>, a: Message, r: Message)
    requires env.model(messages).Reply? && env.model(messages).stopReason == "tool_use"
    requires a == Assistant(env.model(messages).content)
    ensures SpokenAt(env, messages + [a, r], |messages|)
  {
    assert (messages + [a, r])[..|messages|] == messages;
  }

  lemma {:induction false} SpokenNext(env: Env, n: nat, messages: seq<Message>, a: Message, r: Message)
    requires Spoken(env, n, messages) && n <= |messages| && (|messages| - n) % 2 == 0
    requires env.model(messages).Reply? && env.model(messages).stopReason == "tool_use"
    requires a == Assistant(env.model(messages).content)
    ensures Spoken(env, n, messages + [a, r])
  {
    forall m | n <= m < |messages| + 2 && (m - n) % 2 == 0
      ensures SpokenAt(env, messages + [a, r], m)
    {
      if m < |messages| {
        SpokenLonger(env, messages, [a, r], m);
      } else {
        NextOfParity(n, |messages|, m);
        SpokenNow(env, messages, a, r);
      }
    }
  }

  predicate SentAt(n: nat, messages: seq<Message>, sent: seq<seq<Message>>, i: nat)
    requires i < |sent|
  {
    n + 2 * i <= |messages| && sent[i] == messages[..n + 2 * i]
  }

  /** Each list sent is a prefix of the messages, two longer than the one before. */
  ghost predicate SentInTurn(n: nat, messages: seq<Message>, sent: seq<seq<Message>>) {
    forall i :: 0 <= i < |sent| ==> SentAt(n, messages, sent, i)
  }

  lemma SentNext(n: nat, messages: seq<Message>, sent: seq<seq<Message>>, more: seq<Message>)
    requires SentInTurn(n, messages, sent) && n + 2 * |sent| == |messages|
    ensures SentInTurn(n, messages + more, sent + [messages])
  {
    var longer := messages + more;
    assert longer[..|messages|] == messages;
    forall i | 0 <= i <= |sent|
      ensures SentAt(n, longer, sent + [messages], i)
    {
      if i < |sent| {
        assert SentAt(n, messages, sent, i) && longer[..n + 2 * i] == messages[..n + 2 * i];
      }
    }
  }

  lemma AfterToolsMessages(env: Env, c: Chat, n: nat, content: seq<Block>) returns (a: Message, r: Message)
    requires n <= |c.messages|
    ensures a == Assistant(content) && r == Results(RunBlocks(env, Turn(c.trace, c.ran, []), content).results)
    ensures AfterTools(env, c, content).messages == c.messages + [a, r]
    ensures AfterTools(env, c, content).messages[n..] == c.messages[n..] + [a, r]
  {
    a := Assistant(content);
    r := Results(RunBlocks(env, Turn(c.trace, c.ran, []), content).results);
    assert (c.messages + [a, r])[n..] == c.messages[n..] + [a, r];
  }

  lemma {:induction false} ToolsKeepTurns(env: Env, n: nat, c: Chat, content: seq<Block>)
    requires n <= |c.messages| && Alternating(c.messages[n..]) && c.trace == CallsIn(c.messages[n..])
    ensures var next := AfterTools(env, c, content);
            Alternating(next.messages[n..]) && next.trace == CallsIn(next.messages[n..])
  {
    var a, r := AfterToolsMessages(env, c, n, content);
    BlocksRun(env, Turn(c.trace, c.ran, []), content);
    AlternatingAppend(c.messages[n..], a, r);
    CallsInAppend(c.messages[n..], a, r);
  }

  lemma {:induction false} ToolsKeepTold(env: Env, n: nat, c: Chat, content: seq<Block>)
    requires n <= |c.messages| && c.ran == Known(env.tools, c.trace)
    requires Told(env, c.trace, ResultsIn(c.messages[n..]))
    ensures var next := AfterTools(env, c, content);
            next.ran == Known(env.tools, next.trace) && Told(env, next.trace, ResultsIn(next.messages[n..]))
  {
    var a, r := AfterToolsMessages(env, c, n, content);
    var prior := ResultsIn(c.messages[n..]);
    ResultsInAppend(c.messages[n..], a, r);
    assert prior + [] == prior;
    BlocksTold(env, Turn(c.trace, c.ran, []), prior, content);
  }

  lemma {:induction false} ToolsKeepOrder(env: Env, n: nat, c: Chat, content: seq<Block>)
    requires SentInTurn(n, c.messages, c.sent) && Spoken(env, n, c.messages) && n + 2 * |c.sent| == |c.messages|
    requires AsksForTools(env, c) && env.model(c.messages).content == content
    ensures var next := AfterTools(env, c, content);
            SentInTurn(n, next.messages, next.sent) && Spoken(env, n, next.messages)
  {
    var a, r := AfterToolsMessages(env, c, n, content);
    SentNext(n, c.messages, c.sent, [a, r]);
    SpokenNext(env, n, c.messages, a, r);
  }

  lemma {:induction false} ToolsKeepProtocol(env: Env, n: nat, c: Chat, content: seq<Block>)
    requires Protocol(env, n, c) && n + 2 * |c.sent| == |c.messages|
    requires AsksForTools(env, c) && env.model(c.messages).content == content
    ensures Protocol(env, n, AfterTools(env, c, content))
  {
    AfterToolsLength(env, c, content);
    ToolsKeepTurns(env, n, c, content);
    ToolsKeepTold(env, n, c, content);
    ToolsKeepOrder(env, n, c, content);
  }

  /** It ends when the model asks for no more tools, when its call throws, or after exactly `calls` calls. */
  ghost predicate Ends(env: Env, r: (Chat, End), calls: nat) {
    match r.1
    case Finished(content) =>
      && |r.0.sent| <= calls && env.model(r.0.messages).Reply?
      && env.model(r.0.messages).stopReason != "tool_use" && env.model(r.0.messages).content == content
    case Crashed => |r.0.sent| <= calls && env.model(r.0.messages).ApiError?
    case Exhausted => |r.0.sent| == calls
  }

  ghost predicate Kept(env: Env, n: nat, r: (Chat, End), calls: nat) {
    Protocol(env, n, r.0) && Ends(env, r, calls)
  }

  lemma {:induction false} LastKeepsProtocol(env: Env, n: nat, c: Chat, k: nat)
    requires Protocol(env, n, c) && n + 2 * |c.sent| == |c.messages| && (k == 0 || !AsksForTools(env, c))
    ensures Kept(env, n, Rounds(env, c, k), |c.sent| + k)
  {
    SentNext(n, c.messages, c.sent, []);
    assert c.messages + [] == c.messages;
  }

  /** A round of tools keeps the protocol, and the rounds that keep it from there keep it from here. */
  lemma {:induction false} ProtocolStep(env: Env, n: nat, c: Chat, k: nat, calls: nat) returns (next: Chat)
    requires Protocol(env, n, c) && n + 2 * |c.sent| == |c.messages| && k > 0 && AsksForTools(env, c)
    ensures Protocol(env, n, next) && n + 2 * |next.sent| == |next.messages| && |next.sent| == |c.sent| + 1
    ensures Kept(env, n, Rounds(env, next, k - 1), calls) ==> Kept(env, n, Rounds(env, c, k), calls)
  {
    next := AfterTools(env, c, env.model(c.messages).content);
    ToolsKeepProtocol(env, n, c, env.model(c.messages).content);
    assert Rounds(env, c, k) == Rounds(env, next, k - 1);
  }

  lemma {:induction false} RoundsKeepProtocol(env: Env, n: nat, c: Chat, k: nat, calls: nat)
    requires Protocol(env, n, c) && n + 2 * |c.sent| == |c.messages| && calls == |c.sent| + k
    ensures Kept(env, n, Rounds(env, c, k), calls)
    decreases k
  {
    if k == 0 || !AsksForTools(env, c) {
      LastKeepsProtocol(env, n, c, k);
    } else {
      var next := ProtocolStep(env, n, c, k, calls);
      RoundsKeepProtocol(env, n, next, k - 1, calls);
    }
  }

  lemma {:induction false} RoundsProtocol(env: Env, message: string, history: seq<Message>)
    ensures Kept(env, |history| + 1, Rounds(env, StartOf(message, history), MAX_TOOL_ROUNDS), 8)
  {
    var start := StartOf(message, history);
    assert start.messages[|history| + 1..] == [];
    RoundsKeepProtocol(env, |history| + 1, start, MAX_TOOL_ROUNDS, 8);
  }

  /**
   * For every model, tool table and raising tool: at most eight model calls, and exactly eight if the model asks for
   * tools every time; each list sent is the history, the user message and then the model's turns, well answered, each a
   * prefix of the final conversation two messages longer than the one before; the trace is every tool use in order,
   * each told what it yielded; and exactly its known, never excluded, calls were run.
   */
  lemma {:induction false} ToolLoopProtocol(env: Env, captured: set<string>, message: string, history: seq<Message>)
    requires env.tools == CollectTools(captured)
    ensures var r := Rounds(env, StartOf(message, history), MAX_TOOL_ROUNDS);
            && Ends(env, r, 8)
            && Protocol(env, |history| + 1, r.0)
            && r.0.messages[..|history| + 1] == history + [User(message)]
            && (forall call :: call in r.0.ran ==>
                  call.tool in captured && call.tool != "slack_post" && call.tool != "teams_post")
  {
    RoundsProtocol(env, message, history);
    var start := StartOf(message, history);
    var c := Rounds(env, start, MAX_TOOL_ROUNDS).0;
    assert c.messages[..|start.messages|] == start.messages;
    KnownAreTools(env.tools, c.trace);
  }

  /** The text of a turn is that of its text blocks, one after the other. */
  lemma {:induction false} TextOfAppend(a: seq<Block>, b: seq<Block>, text: string)
    ensures TextOf(a + b) == TextOf(a) + TextOf(b)
    ensures TextOf([TextBlock(text)]) == text
    ensures forall block: Block :: !block.TextBlock? ==> TextOf([block]) == []
  {
    if a == [] {
      assert a + b == b;
    } else {
      assert (a + b)[1..] == a[1..] + b;
      TextOfAppend(a[1..], b, text);
      Regroup(if a[0].TextBlock? then a[0].text else [], TextOf(a[1..]), TextOf(b));
    }
    assert [TextBlock(text)][1..] == [];
    forall block: Block | !block.TextBlock?
      ensures TextOf([block]) == []
    {
      assert [block][1..] == [];
    }
  }

  lemma {:induction false} KnownAreTools(tools: set<string>, calls: seq<ToolCall>)
    ensures forall call :: call in Known(tools, calls) ==> call.tool in tools
  {
    if calls == [] {
    } else {
      KnownAreTools(tools, calls[1..]);
    }
  }

  // ---- The streaming form ----

  function NamesOf(calls: seq<ToolCall>): seq<string> {
    seq(|calls|, i requires 0 <= i < |calls| => calls[i].tool)
  }

  lemma {:induction false} ReplyAppend(a: seq<Event>, b: seq<Event>)
    ensures ReplyOf(a + b) == ReplyOf(a) + ReplyOf(b)
  {
    if a == [] {
      assert a + b == b;
    } else {
      assert (a + b)[1..] == a[1..] + b;
      ReplyAppend(a[1..], b);
      Regroup(if a[0].Delta? then a[0].text else [], ReplyOf(a[1..]), ReplyOf(b));
    }
  }

  lemma {:induction false} ToolsAppend(a: seq<Event>, b: seq<Event>)
    ensures ToolsOf(a + b) == ToolsOf(a) + ToolsOf(b)
  {
    if a == [] {
      assert a + b == b;
    } else {
      assert (a + b)[1..] == a[1..] + b;
      ToolsAppend(a[1..], b);
      Regroup(if a[0].Tool? then [a[0].tool] else [], ToolsOf(a[1..]), ToolsOf(b));
    }
  }

  lemma {:induction false} DeltaEventsText(deltas: seq<string>)
    ensures ReplyOf(DeltaEvents(deltas)) == Concat(deltas) && ToolsOf(DeltaEvents(deltas)) == []
    ensures NoDone(DeltaEvents(deltas))
  {
    if deltas == [] {
    } else {
      DeltaEventsText(deltas[1..]);
      assert DeltaEvents(deltas)[1..] == DeltaEvents(deltas[1..]);
    }
  }

  lemma {:induction false} ToolEventsNames(blocks: seq<Block>)
    ensures ReplyOf(ToolEvents(blocks)) == [] && ToolsOf(ToolEvents(blocks)) == NamesOf(ToolCalls(blocks))
    ensures NoDone(ToolEvents(blocks))
  {
    if blocks == [] {
    } else {
      ToolEventsNames(blocks[1..]);
      EventOfNames(blocks[0]);
      NamesAppend(CallOf(blocks[0]), ToolCalls(blocks[1..]));
      ReplyAppend(EventOf(blocks[0]), ToolEvents(blocks[1..]));
      ToolsAppend(EventOf(blocks[0]), ToolEvents(blocks[1..]));
    }
  }

  lemma NamesAppend(a: seq<ToolCall>, b: seq<ToolCall>)
    ensures NamesOf(a + b) == NamesOf(a) + NamesOf(b)
  {
  }

  lemma EventOfNames(b: Block)
    ensures ReplyOf(EventOf(b)) == [] && ToolsOf(EventOf(b)) == NamesOf(CallOf(b)) && NoDone(EventOf(b))
  {
    if b.ToolUse? {
      assert EventOf(b)[1..] == [];
    }
  }

  /** The text of every reply in the rounds from `c` on. */
  function AllText(env: Env, c: Chat, k: nat): string
    decreases k
  {
    if k == 0 || env.model(c.messages).ApiError? then [] else
    var reply := env.model(c.messages);
    if reply.stopReason != "tool_use" then TextOf(reply.content)
    else TextOf(reply.content) + AllText(env, AfterTools(env, c, reply.content), k - 1)
  }

  /** The streaming client's law: the deltas of a call add up to the text of its final message. */
  ghost predicate DeltasAddUp(env: Env) {
    forall ms :: env.model(ms).Reply? ==> Concat(env.model(ms).deltas) == TextOf(env.model(ms).content)
  }

  ghost predicate EndsWithDone(events: seq<Event>, trace: seq<ToolCall>) {
    && events != [] && events[|events| - 1] == Done(trace, true)
    && NoDone(events[..|events| - 1])
  }

  /** The model answers this message list by asking for tools. */
  predicate AsksForTools(env: Env, c: Chat) {
    env.model(c.messages).Reply? && env.model(c.messages).stopReason == "tool_use"
  }

  lemma {:induction false} ToolRound(env: Env, c: Chat, k: nat) returns (reply: Reply, next: Chat, tail: seq<Event>)
    requires k > 0 && AsksForTools(env, c)
    ensures reply == env.model(c.messages) && next == AfterTools(env, c, reply.content)
    ensures Rounds(env, c, k) == Rounds(env, next, k - 1)
    ensures tail == Emitted(env, next, k - 1)
    ensures Emitted(env, c, k) == DeltaEvents(reply.deltas) + (ToolEvents(reply.content) + tail)
    ensures AllText(env, c, k) == TextOf(reply.content) + AllText(env, next, k - 1)
  {
    reply := env.model(c.messages);
    next := AfterTools(env, c, reply.content);
    tail := Emitted(env, next, k - 1);
  }

  lemma {:induction false} RoundNames(env: Env, c: Chat, content: seq<Block>)
    ensures NamesOf(AfterTools(env, c, content).trace) == NamesOf(c.trace) + NamesOf(ToolCalls(content))
  {
    BlocksRun(env, Turn(c.trace, c.ran, []), content);
  }

  /** A stream without `done`, or with one, last, carrying `trace`. */
  ghost predicate Shaped(events: seq<Event>, crashed: bool, trace: seq<ToolCall>) {
    if crashed then NoDone(events) else EndsWithDone(events, trace)
  }

  lemma ShapedAfter(a: seq<Event>, b: seq<Event>, tail: seq<Event>, crashed: bool, trace: seq<ToolCall>)
    requires NoDone(a) && NoDone(b) && Shaped(tail, crashed, trace)
    ensures Shaped(a + (b + tail), crashed, trace)
  {
    DonePrefix(b, tail, trace);
    DonePrefix(a, b + tail, trace);
  }

  lemma {:induction false} LastShape(env: Env, c: Chat, k: nat)
    requires k == 0 || !AsksForTools(env, c)
    ensures Shaped(Emitted(env, c, k), Rounds(env, c, k).1.Crashed?, Rounds(env, c, k).0.trace)
  {
    var deltas := env.model(c.messages).deltas;
    DeltaEventsText(deltas);
    DonePrefix(DeltaEvents(deltas), [Done(c.trace, true)], c.trace);
  }

  lemma {:induction false} EmittedShape(env: Env, c: Chat, k: nat)
    ensures Shaped(Emitted(env, c, k), Rounds(env, c, k).1.Crashed?, Rounds(env, c, k).0.trace)
    decreases k
  {
    if k > 0 && AsksForTools(env, c) {
      var reply, next, tail := ToolRound(env, c, k);
      EmittedShape(env, next, k - 1);
      DeltaEventsText(reply.deltas);
      ToolEventsNames(reply.content);
      ShapedAfter(
        DeltaEvents(reply.deltas), ToolEvents(reply.content), tail,
        Rounds(env, c, k).1.Crashed?, Rounds(env, c, k).0.trace);
    } else {
      LastShape(env, c, k);
    }
  }

  ghost predicate NoDone(events: seq<Event>) {
    forall i :: 0 <= i < |events| ==> !events[i].Done?
  }

  lemma DonePrefix(a: seq<Event>, tail: seq<Event>, trace: seq<ToolCall>)
    requires NoDone(a)
    ensures EndsWithDone(tail, trace) ==> EndsWithDone(a + tail, trace)
    ensures NoDone(tail) ==> NoDone(a + tail)
  {
  }

  /** A tool round emits the deltas' text and its tool names, and then what follows. */
  lemma RoundEvents(reply: Reply, tail: seq<Event>)
    requires reply.Reply?
    ensures var events := DeltaEvents(reply.deltas) + (ToolEvents(reply.content) + tail);
            && ToolsOf(events) == NamesOf(ToolCalls(reply.content)) + ToolsOf(tail)
            && ReplyOf(events) == Concat(reply.deltas) + ReplyOf(tail)
  {
    DeltaEventsText(reply.deltas);
    ToolEventsNames(reply.content);
    EventsOfThree(DeltaEvents(reply.deltas), ToolEvents(reply.content), tail);
  }

  lemma EventsOfThree(a: seq<Event>, b: seq<Event>, c: seq<Event>)
    requires ToolsOf(a) == [] && ReplyOf(b) == []
    ensures ToolsOf(a + (b + c)) == ToolsOf(b) + ToolsOf(c)
    ensures ReplyOf(a + (b + c)) == ReplyOf(a) + ReplyOf(c)
  {
    ToolsAppend(a, b + c);
    ToolsAppend(b, c);
    ReplyAppend(a, b + c);
    ReplyAppend(b, c);
  }

  lemma LastEvents(deltas: seq<string>, trace: seq<ToolCall>)
    ensures ToolsOf(DeltaEvents(deltas)) == [] && ReplyOf(DeltaEvents(deltas)) == Concat(deltas)
    ensures ToolsOf(DeltaEvents(deltas) + [Done(trace, true)]) == []
    ensures ReplyOf(DeltaEvents(deltas) + [Done(trace, true)]) == Concat(deltas)
  {
    DeltaEventsText(deltas);
    ToolsAppend(DeltaEvents(deltas), [Done(trace, true)]);
    ReplyAppend(DeltaEvents(deltas), [Done(trace, true)]);
  }

  /** The rounds end here. */
  lemma LastRound(env: Env, c: Chat, k: nat)
    requires k == 0 || !AsksForTools(env, c)
    ensures var (c', end) := Rounds(env, c, k);
            && c'.trace == c.trace && c'.messages == c.messages
            && ToolsOf(Emitted(env, c, k)) == []
            && AllText(env, c, k) == LastWords(end)
  {
    LastEvents(env.model(c.messages).deltas, c.trace);
  }

  lemma {:induction false} EmittedTools(env: Env, c: Chat, k: nat)
    ensures NamesOf(c.trace) + ToolsOf(Emitted(env, c, k)) == NamesOf(Rounds(env, c, k).0.trace)
    decreases k
  {
    if k > 0 && AsksForTools(env, c) {
      var reply, next, tail := ToolRound(env, c, k);
      EmittedTools(env, next, k - 1);
      RoundNames(env, c, reply.content);
      RoundEvents(reply, tail);
      Regroup(NamesOf(c.trace), NamesOf(ToolCalls(reply.content)), ToolsOf(tail));
    } else {
      LastRound(env, c, k);
    }
  }

  lemma LastText(env: Env, c: Chat, k: nat)
    requires DeltasAddUp(env) && (k == 0 || !AsksForTools(env, c))
    ensures !Rounds(env, c, k).1.Crashed? ==> ReplyOf(Emitted(env, c, k)) == AllText(env, c, k)
  {
    LastEvents(env.model(c.messages).deltas, c.trace);
  }

  lemma {:induction false} EmittedText(env: Env, c: Chat, k: nat)
    requires DeltasAddUp(env)
    ensures !Rounds(env, c, k).1.Crashed? ==> ReplyOf(Emitted(env, c, k)) == AllText(env, c, k)
    decreases k
  {
    if k > 0 && AsksForTools(env, c) {
      var reply, next, tail := ToolRound(env, c, k);
      EmittedText(env, next, k - 1);
      RoundEvents(reply, tail);
    } else {
      LastText(env, c, k);
    }
  }

  /** The text the assistant said in the turns that asked for tools. */
  function TurnText(turns: seq<Message>): string {
    if turns == [] then [] else (if turns[0].Assistant? then TextOf(turns[0].blocks) else []) + TurnText(turns[1..])
  }

  function LastWords(end: End): string {
    if end.Finished? then TextOf(end.content) else []
  }

  /** What was said from `c` on in a conversation that ended as `r`. */
  function Said(c: Chat, r: (Chat, End)): string
    requires c.messages <= r.0.messages
  {
    TurnText(r.0.messages[|c.messages|..]) + LastWords(r.1)
  }

  lemma SaidNext(env: Env, c: Chat, content: seq<Block>, r: (Chat, End))
    requires AfterTools(env, c, content).messages <= r.0.messages
    ensures c.messages <= r.0.messages && Said(c, r) == TextOf(content) + Said(AfterTools(env, c, content), r)
  {
    var next := AfterTools(env, c, content).messages;
    PairText(c.messages, next, r.0.messages);
    Regroup(TextOf(content), TurnText(r.0.messages[|next|..]), LastWords(r.1));
  }

  lemma {:induction false} AllTextIsTurns(env: Env, c: Chat, k: nat)
    ensures AllText(env, c, k) == Said(c, Rounds(env, c, k))
    decreases k
  {
    if k > 0 && AsksForTools(env, c) {
      var content := env.model(c.messages).content;
      AllTextIsTurns(env, AfterTools(env, c, content), k - 1);
      SaidNext(env, c, content, Rounds(env, c, k));
    } else {
      LastRound(env, c, k);
      assert Rounds(env, c, k).0.messages[|c.messages|..] == [];
    }
  }

  lemma PairText(before: seq<Message>, between: seq<Message>, after: seq<Message>)
    requires before <= between <= after && |between| == |before| + 2
    requires between[|before|].Assistant? && !between[|before| + 1].Assistant?
    ensures TurnText(after[|before|..]) == TextOf(between[|before|].blocks) + TurnText(after[|between|..])
  {
    var turns := after[|before|..];
    assert turns[0] == between[|before|] && turns[1..][0] == between[|before| + 1];
    assert turns[1..][1..] == after[|between|..];
  }

  lemma {:induction false} SameReplyExactly(said: string, last: string)
    ensures said + last == Strip(last) <==> said == [] && Tight(last)
  {
    StripExactly(last);
    if said == [] {
      assert said + last == last;
    }
  }

  /**
   * The two forms agree on conversation, tool runs and trace (their contracts share `Rounds`); a stream that is not
   * cut off by an exception has exactly one `done`, last, carrying that trace, and names its calls one by one. The
   * streamed text is the plain reply exactly when no turn that asked for tools said anything and the last text has no
   * white space to strip; at the limit of rounds, exactly when those turns said the sentence the plain form ends with.
   */
  lemma {:induction false} StreamAgrees(env: Env, message: string, history: seq<Message>)
    requires DeltasAddUp(env)
    ensures var start := StartOf(message, history);
            var (chat, end) := Rounds(env, start, MAX_TOOL_ROUNDS);
            var events, answer := Emitted(env, start, MAX_TOOL_ROUNDS), AnswerOf(chat, end);
            var said := TurnText(chat.messages[|history| + 1..]);
            && (!end.Crashed? ==> EndsWithDone(events, chat.trace) && answer.Answer? && answer.trace == chat.trace)
            && ToolsOf(events) == NamesOf(chat.trace)
            && (end.Finished? ==> (ReplyOf(events) == answer.reply <==> said == [] && Tight(TextOf(end.content))))
            && (end.Exhausted? ==> (ReplyOf(events) == answer.reply
                                   <==> said == "Stopped after the maximum number of tool steps."))
  {
    var start := StartOf(message, history);
    EmittedShape(env, start, MAX_TOOL_ROUNDS);
    EmittedTools(env, start, MAX_TOOL_ROUNDS);
    EmittedText(env, start, MAX_TOOL_ROUNDS);
    AllTextIsTurns(env, start, MAX_TOOL_ROUNDS);
    assert NamesOf(start.trace) == [];
    var (chat, end) := Rounds(env, start, MAX_TOOL_ROUNDS);
    SameReplyExactly(TurnText(chat.messages[|history| + 1..]), LastWords(end));
  }

  const LOOKING := [TextBlock("Looking. "), ToolUse("t1", "pods", Obj([]))]
  const DONE := [TextBlock("Done.")]

  /** A model that announces a tool call, and ends when it has the result. */
  function Announcing(): Env {
    Env((ms: seq<Message>) =>
          if |ms| == 1 then Reply("tool_use", LOOKING, ["Looking. "]) else Reply("end_turn", DONE, ["Done."]),
        {}, (ran: seq<ToolCall>, call: ToolCall) => Returned(Null))
  }

  lemma AnnouncedTexts()
    ensures TextOf(LOOKING) == Concat(["Looking. "]) == "Looking. "
    ensures TextOf(DONE) == Concat(["Done."]) == "Done."
  {
    assert LOOKING[1..][1..] == [] && DONE[1..] == [] && ["Looking. "][1..] == [] && ["Done."][1..] == [];
  }

  lemma AnnouncedEnd(c: Chat, rounds: nat)
    requires |c.messages| != 1 && rounds > 0
    ensures Rounds(Announcing(), c, rounds).1 == Finished(DONE) && AllText(Announcing(), c, rounds) == "Done."
  {
    AnnouncedTexts();
  }

  lemma AnnouncingAddsUp()
    ensures DeltasAddUp(Announcing())
  {
    AnnouncedTexts();
  }

  lemma AfterToolsLength(env: Env, c: Chat, content: seq<Block>)
    ensures |AfterTools(env, c, content).messages| == |c.messages| + 2
  {
  }

  lemma {:induction false} AnnouncedRun(c: Chat, rounds: nat)
    requires |c.messages| == 1 && rounds >= 2
    ensures Rounds(Announcing(), c, rounds).1 == Finished(DONE)
    ensures AllText(Announcing(), c, rounds) == TextOf(LOOKING) + "Done."
  {
    var reply, next, tail := ToolRound(Announcing(), c, rounds);
    AfterToolsLength(Announcing(), c, LOOKING);
    AnnouncedEnd(next, rounds - 1);
  }

  lemma {:induction false} AnnouncedStream(c: Chat, rounds: nat)
    requires |c.messages| == 1 && rounds >= 2
    ensures ReplyOf(Emitted(Announcing(), c, rounds)) == TextOf(LOOKING) + "Done."
  {
    AnnouncedRun(c, rounds);
    AnnouncingAddsUp();
    EmittedText(Announcing(), c, rounds);
  }

  lemma AnnouncedAnswer(chat: Chat)
    ensures AnswerOf(chat, Finished(DONE)) == Answer("Done.", chat.trace)
  {
    AnnouncedTexts();
    StripExactly("Done.");
  }

  /** The stream keeps the announcement, the plain reply does not. */
  lemma {:induction false} AnnouncementStreamed(rounds: nat)
    requires rounds >= 2
    ensures var start := StartOf("why", []);
            var (chat, end) := Rounds(Announcing(), start, rounds);
            && ReplyOf(Emitted(Announcing(), start, rounds)) == "Looking. " + "Done."
            && AnswerOf(chat, end) == Answer("Done.", chat.trace)
  {
    var start := StartOf("why", []);
    AnnouncedTexts();
    AnnouncedStream(start, rounds);
    AnnouncedRun(start, rounds);
    AnnouncedAnswer(Rounds(Announcing(), start, rounds).0);
  }

  /** A final text that ends in a line break is streamed with it and returned without it. */
  lemma LineBreakStreamed(rounds: nat)
    requires rounds >= 1
    ensures var env := Env((ms: seq<Message>) => Reply("end_turn", [TextBlock("ok\n")], ["ok\n"]), {},
                           (ran: seq<ToolCall>, call: ToolCall) => Returned(Null));
            var start := StartOf("why", []);
            var (chat, end) := Rounds(env, start, rounds);
            && ReplyOf(Emitted(env, start, rounds)) == "ok\n"
            && AnswerOf(chat, end).Answer? && AnswerOf(chat, end).reply == "ok"
  {
    var env := Env((ms: seq<Message>) => Reply("end_turn", [TextBlock("ok\n")], ["ok\n"]), {},
                   (ran: seq<ToolCall>, call: ToolCall) => Returned(Null));
    assert ["ok\n"][1..] == [] && [TextBlock("ok\n")][1..] == [];
    EmittedText(env, StartOf("why", []), rounds);
    assert TrimLeft(IsSpace, "ok\n") == "ok\n" && "ok\n"[..2] == "ok" && TrimRight(IsSpace, "ok") == "ok";
  }

  // ---- From the model to the page ----

  /** Tool inputs the model asks for are JSON values. */
  ghost predicate InputsAreJson(env: Env) {
    forall ms, i :: env.model(ms).Reply? && 0 <= i < |env.model(ms).content| && env.model(ms).content[i].ToolUse?
      ==> WellFormed(env.model(ms).content[i].input)
  }

  lemma {:induction false} CallsAreJson(blocks: seq<Block>)
    requires forall i :: 0 <= i < |blocks| && blocks[i].ToolUse? ==> WellFormed(blocks[i].input)
    ensures JsonInputs(ToolCalls(blocks))
  {
    if blocks == [] {
    } else {
      CallsAreJson(blocks[1..]);
    }
  }

  ghost predicate JsonInputs(calls: seq<ToolCall>) {
    forall call :: call in calls ==> WellFormed(call.input)
  }

  lemma {:induction false} RoundsInputs(env: Env, c: Chat, k: nat)
    requires InputsAreJson(env) && JsonInputs(c.trace)
    ensures JsonInputs(Rounds(env, c, k).0.trace)
    decreases k
  {
    if k > 0 && AsksForTools(env, c) {
      var content := env.model(c.messages).content;
      ToolsKeepInputs(env, c, content);
      RoundsInputs(env, AfterTools(env, c, content), k - 1);
    }
  }

  lemma {:induction false} ToolsKeepInputs(env: Env, c: Chat, content: seq<Block>)
    requires JsonInputs(c.trace)
    requires forall i :: 0 <= i < |content| && content[i].ToolUse? ==> WellFormed(content[i].input)
    ensures JsonInputs(AfterTools(env, c, content).trace)
  {
    BlocksRun(env, Turn(c.trace, c.ran, []), content);
    CallsAreJson(content);
  }

  lemma {:induction false} DoneEncodable(events: seq<Event>, trace: seq<ToolCall>)
    requires EndsWithDone(events, trace) && JsonInputs(trace)
    ensures AllEncodable(events)
  {
    if |events| > 1 {
      assert events[..|events| - 1][0] == events[0];
      assert forall i :: 0 <= i < |events| - 2 ==> events[1..][i] == events[..|events| - 1][i + 1];
      DoneEncodable(events[1..], trace);
    }
  }

  /**
   * End to end, for any limit on the rounds: however the network cuts the printed stream of a chat that finished, the
   * page shows the text of all rounds and one chip for each call of the trace.
   */
  lemma {:induction false} PageShowsChat(
    env: Env, message: string, history: seq<Message>, rounds: nat, chunks: seq<string>, coerce: Option<Json> -> string)
    requires DeltasAddUp(env) && InputsAreJson(env)
    requires Concat(chunks) == Stream(Emitted(env, StartOf(message, history), rounds))
    requires !Rounds(env, StartOf(message, history), rounds).1.Crashed?
    ensures var start := StartOf(message, history);
            var text := AllText(env, start, rounds);
            Shown(Concat(chunks), coerce)
            == Reading(if text == [] then "(no response)" else text,
                       NamesOf(Rounds(env, start, rounds).0.trace))
  {
    var start := StartOf(message, history);
    EmittedShape(env, start, rounds);
    RoundsInputs(env, start, rounds);
    DoneEncodable(Emitted(env, start, rounds), Rounds(env, start, rounds).0.trace);
    EmittedText(env, start, rounds);
    EmittedTools(env, start, rounds);
    var tools := ToolsOf(Emitted(env, start, rounds));
    assert NamesOf(start.trace) + tools == tools;
    StreamShown(Emitted(env, start, rounds), chunks, coerce);
  }
}
