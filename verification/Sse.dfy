/**
 * Server-sent events between the chat backend and the browser: the printer `_sse`, and the loop that reads network
 * chunks back into messages (framing as in section 9.2 of the WHATWG HTML standard, one `data:` line an event).
 */
module Sse {
  import opened Wrappers
  import opened Text
  import opened Json

  datatype ToolCall = ToolCall(tool: string, input: Json)

  datatype Event = Delta(text: string) | Tool(tool: string) | Done(trace: seq<ToolCall>, llm: bool)

  function CallToJson(c: ToolCall): Json {
    Obj([("tool", Str(c.tool)), ("input", c.input)])
  }

  function EventMembers(e: Event): seq<(string, Json)> {
    match e
    case Delta(text) => [("type", Str("delta")), ("text", Str(text))]
    case Tool(tool) => [("type", Str("tool")), ("tool", Str(tool))]
    case Done(trace, llm) =>
      var calls := seq(|trace|, i requires 0 <= i < |trace| => CallToJson(trace[i]));
      [("type", Str("done")), ("trace", Arr(calls)), ("llm", Bool(llm))]
  }

  function Payload(e: Event): string {
    Dumps(Obj(EventMembers(e)), " ")
  }

  function Frame(e: Event): string {
    "data: " + Payload(e)
  }

  /** What the server writes. */
  function Stream(events: seq<Event>): string {
    if events == [] then [] else Frame(events[0]) + ("\n\n" + Stream(events[1..]))
  }

  // ---- Splitting at blank lines ----

  /** Where the first blank-line delimiter starts; the length of `s` if there is none. */
  function FindDelimiter(s: string): (i: nat)
    ensures i < |s| ==> i + 2 <= |s| && s[i] == '\n' && s[i + 1] == '\n'
    ensures i <= |s|
  {
    if |s| < 2 then |s| else if s[0] == '\n' && s[1] == '\n' then 0 else 1 + FindDelimiter(s[1..])
  }

  /** `s.split("\n\n")` with its last piece popped off: the finished frames and what is left over. */
  datatype Split = Split(frames: seq<string>, rest: string)

  function SplitFrames(s: string): (r: Split)
    ensures FindDelimiter(r.rest) == |r.rest|
    decreases |s|
  {
    var i := FindDelimiter(s);
    if i == |s| then Split([], s) else
    var r := SplitFrames(s[i + 2..]);
    Split([s[..i]] + r.frames, r.rest)
  }

  lemma {:induction false} FindDelimiterAppend(x: string, y: string)
    requires FindDelimiter(x) < |x|
    ensures FindDelimiter(x + y) == FindDelimiter(x)
  {
    if !(x[0] == '\n' && x[1] == '\n') {
      assert (x + y)[1..] == x[1..] + y;
      FindDelimiterAppend(x[1..], y);
    }
  }

  lemma SplitStep(s: string, head: string, tail: string)
    requires FindDelimiter(s) == |head| < |s| && s[..|head|] == head && s[|head| + 2..] == tail
    ensures SplitFrames(s) == Split([head] + SplitFrames(tail).frames, SplitFrames(tail).rest)
  {
  }

  lemma {:induction false} SplitStepAppend(x: string, y: string, head: string, tail: string)
    requires FindDelimiter(x) == |head| < |x| && x[..|head|] == head && x[|head| + 2..] == tail
    ensures SplitFrames(x + y) == Split([head] + SplitFrames(tail + y).frames, SplitFrames(tail + y).rest)
  {
    FindDelimiterAppend(x, y);
    SplitStep(x + y, head, tail + y);
  }

  /** Splitting what has arrived, keeping the unfinished piece and splitting on is splitting the whole. */
  lemma {:induction false} SplitResumes(x: string, y: string)
    ensures var now := SplitFrames(x);
            var later := SplitFrames(now.rest + y);
            SplitFrames(x + y) == Split(now.frames + later.frames, later.rest)
    decreases |x|
  {
    var i := FindDelimiter(x);
    if i < |x| {
      var head, tail := x[..i], x[i + 2..];
      var now := SplitFrames(tail);
      var later := SplitFrames(now.rest + y);
      SplitStep(x, head, tail);
      calc {
        SplitFrames(x + y);
      == { SplitStepAppend(x, y, head, tail); }
        Split([head] + SplitFrames(tail + y).frames, SplitFrames(tail + y).rest);
      == { SplitResumes(tail, y); }
        Split([head] + (now.frames + later.frames), later.rest);
      == { Regroup([head], now.frames, later.frames); }
        Split(([head] + now.frames) + later.frames, later.rest);
      }
    } else {
      assert [] + SplitFrames(x + y).frames == SplitFrames(x + y).frames;
    }
  }

  /** Putting the delimiters back gives the text back. */
  function Join(frames: seq<string>, rest: string): string {
    if frames == [] then rest else frames[0] + ("\n\n" + Join(frames[1..], rest))
  }

  lemma {:induction false} JoinUndoesSplit(s: string)
    ensures var r := SplitFrames(s); Join(r.frames, r.rest) == s
    decreases |s|
  {
    var i := FindDelimiter(s);
    if i < |s| {
      JoinUndoesSplit(s[i + 2..]);
      CutAt(s, i);
    }
  }

  lemma CutAt(s: string, i: nat)
    requires i + 2 <= |s| && s[i] == '\n' && s[i + 1] == '\n'
    ensures s == s[..i] + ("\n\n" + s[i + 2..])
  {
  }

  // ---- Reading ----

  /** What the page shows while it reads; an exception ends the reading for good. */
  datatype View = Reading(reply: string, trace: seq<string>) | Failed

  function DropDataPrefix(ev: string): string {
    if "data: " <= ev then ev[6..] else ev
  }

  /** `reply += text`; `coerce` stands for JavaScript's conversion of anything but a string. */
  function AsText(v: Option<Json>, coerce: Option<Json> -> string): string {
    if v.Some? && v.value.Str? then v.value.s else coerce(v)
  }

  /**
   * The body of the event loop. Text that is no JSON throws, so does reading `type` of `null`, and so does rendering
   * the chip of a tool whose name is no string.
   */
  function Consume(view: View, ev: string, coerce: Option<Json> -> string): View {
    if view.Failed? then view else
    var line := Trim(IsJsSpace, DropDataPrefix(ev));
    if line == [] then view else
    match Parse(line)
    case None => Failed
    case Some(Null) => Failed
    case Some(Obj(members)) =>
      var kind := Field(members, "type");
      if kind == Some(Str("delta")) then view.(reply := view.reply + AsText(Field(members, "text"), coerce))
      else if kind == Some(Str("tool")) then
        match Field(members, "tool")
        case Some(Str(tool)) => view.(trace := view.trace + [tool])
        case _ => Failed
      else view
    case Some(_) => view
  }

  function ConsumeAll(view: View, evs: seq<string>, coerce: Option<Json> -> string): View
    decreases |evs|
  {
    if evs == [] then view else ConsumeAll(Consume(view, evs[0], coerce), evs[1..], coerce)
  }

  function Settle(view: View): View {
    if view.Reading? && view.reply == [] then view.(reply := "(no response)") else view
  }

  /** What the page ends with for a whole stream. */
  function Shown(stream: string, coerce: Option<Json> -> string): View {
    Settle(ConsumeAll(Reading([], []), SplitFrames(stream).frames, coerce))
  }

  lemma {:induction false} ConsumeAppend(view: View, a: seq<string>, b: seq<string>, coerce: Option<Json> -> string)
    ensures ConsumeAll(view, a + b, coerce) == ConsumeAll(ConsumeAll(view, a, coerce), b, coerce)
    decreases |a|
  {
    if a == [] {
      assert a + b == b;
    } else {
      assert (a + b)[1..] == a[1..] + b;
      ConsumeAppend(Consume(view, a[0], coerce), a[1..], b, coerce);
    }
  }

  lemma {:induction false} FailedStays(evs: seq<string>, coerce: Option<Json> -> string)
    ensures ConsumeAll(Failed, evs, coerce) == Failed
  {
    if evs == [] {
    } else {
      FailedStays(evs[1..], coerce);
    }
  }

  /** The loop over the events of one chunk; an exception leaves it. */
  method ConsumeEvents(view: View, events: seq<string>, coerce: Option<Json> -> string) returns (next: View)
    ensures next == ConsumeAll(view, events, coerce)
  {
    next := view;
    for k := 0 to |events|
      invariant ConsumeAll(next, events[k..], coerce) == ConsumeAll(view, events, coerce)
    {
      assert events[k..][1..] == events[k + 1..];
      next := Consume(next, events[k], coerce);
      if next.Failed? {
        FailedStays(events[k + 1..], coerce);
        return;
      }
    }
  }

  lemma {:induction false} ChunkConsumed(
    view: View, buf: string, chunk: string, later: string, coerce: Option<Json> -> string)
    ensures var now := SplitFrames(buf + chunk);
            var whole := SplitFrames(buf + (chunk + later));
            && ConsumeAll(view, whole.frames, coerce)
               == ConsumeAll(ConsumeAll(view, now.frames, coerce), SplitFrames(now.rest + later).frames, coerce)
            && whole.rest == SplitFrames(now.rest + later).rest
  {
    var x := buf + chunk;
    Regroup(buf, chunk, later);
    SplitResumes(x, later);
    ConsumeAppend(view, SplitFrames(x).frames, SplitFrames(SplitFrames(x).rest + later).frames, coerce);
  }

  /** The reading loop of the page: whatever the cuts between chunks, it ends as the whole stream would. */
  method ReadStream(chunks: seq<string>, coerce: Option<Json> -> string) returns (view: View, buf: string)
    ensures view == Shown(Concat(chunks), coerce)
    ensures view.Reading? ==> buf == SplitFrames(Concat(chunks)).rest
  {
    buf := "";
    view := Reading([], []);
    assert chunks[0..] == chunks && buf + Concat(chunks) == Concat(chunks);
    for i := 0 to |chunks|
      invariant view.Reading? && FindDelimiter(buf) == |buf|
      invariant ConsumeAll(view, SplitFrames(buf + Concat(chunks[i..])).frames, coerce)
                == ConsumeAll(Reading([], []), SplitFrames(Concat(chunks)).frames, coerce)
      invariant SplitFrames(buf + Concat(chunks[i..])).rest == SplitFrames(Concat(chunks)).rest
    {
      assert chunks[i..][1..] == chunks[i + 1..];
      ChunkConsumed(view, buf, chunks[i], Concat(chunks[i + 1..]), coerce);
      buf := buf + chunks[i];
      var split := SplitFrames(buf);
      buf := split.rest;
      view := ConsumeEvents(view, split.frames, coerce);
      if view.Failed? {
        FailedStays(SplitFrames(buf + Concat(chunks[i + 1..])).frames, coerce);
        return;
      }
    }
    assert buf + Concat(chunks[|chunks|..]) == buf;
    if view.reply == [] {
      view := view.(reply := "(no response)");
    }
  }

  // ---- Reading undoes printing ----

  /** The tool inputs of a trace are JSON values. */
  ghost predicate Encodable(e: Event) {
    e.Done? ==> forall i :: 0 <= i < |e.trace| ==> WellFormed(e.trace[i].input)
  }

  ghost predicate AllEncodable(events: seq<Event>) {
    events != [] ==> Encodable(events[0]) && AllEncodable(events[1..])
  }

  lemma EventWellFormed(e: Event)
    requires Encodable(e)
    ensures WellFormed(Obj(EventMembers(e)))
  {
    if e.Done? {
      var calls := EventMembers(e)[1].1;
      forall i | 0 <= i < |calls.items|
        ensures WellFormed(calls.items[i])
      {
        assert calls.items[i] == CallToJson(e.trace[i]);
      }
    }
  }

  lemma {:induction false} FirstDelimiter(line: string, rest: string)
    requires '\n' !in line
    ensures FindDelimiter(line + ("\n\n" + rest)) == |line|
  {
    if line == [] {
      assert line + ("\n\n" + rest) == "\n\n" + rest;
    } else {
      assert (line + ("\n\n" + rest))[1..] == line[1..] + ("\n\n" + rest);
      FirstDelimiter(line[1..], rest);
    }
  }

  /** Frames are printable ASCII: no line break inside, and every byte is one character. */
  lemma FramePlain(e: Event)
    requires Encodable(e)
    ensures Plain(Frame(e)) && '\n' !in Frame(e)
  {
    EventWellFormed(e);
    PrintPlain(Obj(EventMembers(e)), " ", []);
  }

  function Frames(events: seq<Event>): seq<string> {
    if events == [] then [] else [Frame(events[0])] + Frames(events[1..])
  }

  lemma {:induction false} FirstFrame(line: string, rest: string, frames: seq<string>)
    requires '\n' !in line && SplitFrames(rest) == Split(frames, [])
    ensures SplitFrames(line + ("\n\n" + rest)) == Split([line] + frames, [])
  {
    var t := line + ("\n\n" + rest);
    FirstDelimiter(line, rest);
    SplitStep(t, line, rest);
  }

  /** The printed stream splits into exactly its frames and leaves nothing over. */
  lemma {:induction false} StreamFrames(events: seq<Event>)
    requires AllEncodable(events)
    ensures SplitFrames(Stream(events)) == Split(Frames(events), [])
    decreases |events|
  {
    if events == [] {
    } else {
      FramePlain(events[0]);
      StreamFrames(events[1..]);
      FirstFrame(Frame(events[0]), Stream(events[1..]), Frames(events[1..]));
    }
  }

  function Absorb(view: View, e: Event): View {
    if view.Failed? then view else
    match e
    case Delta(text) => view.(reply := view.reply + text)
    case Tool(tool) => view.(trace := view.trace + [tool])
    case Done(_, _) => view
  }

  lemma {:induction false} FrameConsumed(view: View, e: Event, coerce: Option<Json> -> string)
    requires Encodable(e)
    ensures Consume(view, Frame(e), coerce) == Absorb(view, e)
  {
    var members := EventMembers(e);
    EventWellFormed(e);
    ParseUndoesDumps(Obj(members), " ");
    ObjectBraces(members, " ");
    assert "data: " <= Frame(e) && Frame(e)[6..] == Payload(e);
    assert Trim(IsJsSpace, Payload(e)) == Payload(e);
    FieldsOf(e);
  }

  lemma FieldsOf(e: Event)
    ensures var m := EventMembers(e);
            match e
            case Delta(text) => Field(m, "type") == Some(Str("delta")) && Field(m, "text") == Some(Str(text))
            case Tool(tool) => Field(m, "type") == Some(Str("tool")) && Field(m, "tool") == Some(Str(tool))
            case Done(_, _) => Field(m, "type") == Some(Str("done"))
  {
    var m := EventMembers(e);
    if e.Done? {
      assert m[..2][..1] == [m[0]];
      assert Field([m[0]], "type") == Some(m[0].1);
      assert Field(m[..2], "type") == Some(m[0].1);
    } else {
      assert m[..1] == [m[0]];
    }
  }

  /** A call of the trace as an object with the tool's name and its input. */
  ghost predicate ReadsAs(j: Json, c: ToolCall) {
    j.Obj? && Field(j.members, "tool") == Some(Str(c.tool)) && Field(j.members, "input") == Some(c.input)
  }

  /** The last frame holds the whole trace, call by call, and whether a model answered. */
  lemma {:induction false} DoneReadsBack(trace: seq<ToolCall>, llm: bool) returns (m: seq<(string, Json)>)
    requires Encodable(Done(trace, llm))
    ensures var f := Frame(Done(trace, llm)); "data: " <= f && Parse(f[6..]) == Some(Obj(m))
    ensures Field(m, "type") == Some(Str("done")) && Field(m, "llm") == Some(Bool(llm))
    ensures match Field(m, "trace")
            case Some(Arr(calls)) => |calls| == |trace| && forall i :: 0 <= i < |trace| ==> ReadsAs(calls[i], trace[i])
            case _ => false
  {
    var e := Done(trace, llm);
    m := EventMembers(e);
    EventWellFormed(e);
    ParseUndoesDumps(Obj(m), " ");
    assert Frame(e)[6..] == Payload(e);
    FieldsOf(e);
    assert Field(m[..2], "trace") == Some(m[1].1);
    forall i | 0 <= i < |trace|
      ensures ReadsAs(CallToJson(trace[i]), trace[i])
    {
      var c := CallToJson(trace[i]).members;
      assert Field(c[..1], "tool") == Some(c[0].1);
    }
  }

  /**
   * The events a page can meet: text that is no JSON, `null`, and a tool whose name is no text fail it; a delta adds
   * its text, or what JavaScript makes of anything else; all others leave it as it is.
   */
  lemma {:induction false} ConsumeExactly(
    reply: string, trace: seq<string>, line: string, coerce: Option<Json> -> string)
    requires line != [] && !IsJsSpace(line[0]) && !IsJsSpace(line[|line| - 1])
    ensures var next := Consume(Reading(reply, trace), "data: " + line, coerce);
            match Parse(line)
            case None => next == Failed
            case Some(Null) => next == Failed
            case Some(Obj(m)) =>
              (match (Field(m, "type"), Field(m, "text"), Field(m, "tool"))
               case (Some(Str(kind)), text, tool) =>
                 && (kind == "delta" && text.Some? && text.value.Str? ==> next == Reading(reply + text.value.s, trace))
                 && (kind == "delta" && !(text.Some? && text.value.Str?) ==>
                       next == Reading(reply + coerce(text), trace))
                 && (kind == "tool" && tool.Some? && tool.value.Str? ==> next == Reading(reply, trace + [tool.value.s]))
                 && (kind == "tool" && !(tool.Some? && tool.value.Str?) ==> next == Failed)
                 && (kind != "delta" && kind != "tool" ==> next == Reading(reply, trace))
               case _ => next == Reading(reply, trace))
            case Some(_) => next == Reading(reply, trace)
  {
    assert ("data: " + line)[6..] == line;
    assert Trim(IsJsSpace, line) == line;
  }

  function ReplyOf(events: seq<Event>): string {
    if events == [] then [] else (if events[0].Delta? then events[0].text else []) + ReplyOf(events[1..])
  }

  function ToolsOf(events: seq<Event>): seq<string> {
    if events == [] then [] else (if events[0].Tool? then [events[0].tool] else []) + ToolsOf(events[1..])
  }

  lemma AbsorbedFirst(reply: string, trace: seq<string>, e: Event, rest: seq<Event>)
    ensures var next := Absorb(Reading(reply, trace), e);
            && next.Reading?
            && next.reply + ReplyOf(rest) == reply + ReplyOf([e] + rest)
            && next.trace + ToolsOf(rest) == trace + ToolsOf([e] + rest)
  {
    assert ([e] + rest)[1..] == rest;
    match e {
      case Delta(text) => Regroup(reply, text, ReplyOf(rest));
      case Tool(tool) => Regroup(trace, [tool], ToolsOf(rest));
      case Done(_, _) =>
    }
  }

  lemma {:induction false} FramesConsumed(view: View, events: seq<Event>, coerce: Option<Json> -> string)
    requires view.Reading? && AllEncodable(events)
    ensures ConsumeAll(view, Frames(events), coerce)
            == Reading(view.reply + ReplyOf(events), view.trace + ToolsOf(events))
    decreases |events|
  {
    if events == [] {
    } else {
      var e, rest := events[0], events[1..];
      assert events == [e] + rest;
      FrameConsumed(view, e, coerce);
      AbsorbedFirst(view.reply, view.trace, e, rest);
      FramesConsumed(Absorb(view, e), rest, coerce);
      assert ([Frame(e)] + Frames(rest))[1..] == Frames(rest);
    }
  }

  /**
   * However the printed stream is cut into chunks, the page ends with the concatenated deltas as its reply, one chip
   * for each tool event in order, and nothing left in the buffer.
   */
  lemma {:induction false} StreamShown(events: seq<Event>, chunks: seq<string>, coerce: Option<Json> -> string)
    requires AllEncodable(events)
    requires Concat(chunks) == Stream(events)
    ensures Shown(Concat(chunks), coerce)
            == Reading(if ReplyOf(events) == [] then "(no response)" else ReplyOf(events), ToolsOf(events))
    ensures SplitFrames(Concat(chunks)).rest == []
  {
    StreamFrames(events);
    EventsConsumed(events, coerce);
  }

  lemma {:induction false} EventsConsumed(events: seq<Event>, coerce: Option<Json> -> string)
    requires AllEncodable(events)
    ensures ConsumeAll(Reading([], []), Frames(events), coerce) == Reading(ReplyOf(events), ToolsOf(events))
  {
    FramesConsumed(Reading([], []), events, coerce);
    assert [] + ReplyOf(events) == ReplyOf(events) && [] + ToolsOf(events) == ToolsOf(events);
  }
}
