/** What the events of the NDJSON decoder carry: the texts, tool arguments, tool names, stop
    reasons and usage of its lines, with nothing lost, repeated or moved. */
module NdjsonContent {
  import opened Common
  import opened Text
  import opened StreamContract
  import opened Ndjson

  // ------------------------------------------------------------ lines

  /** The object a line holds, if it holds one. */
  function ObjectOf(json: Json, line: string): Option<map<string, Value>> {
    if Trim(line) == "" then None
    else match json.parse(Trim(line))
      case Parsed(RecordValue(fields)) => Some(fields)
      case _ => None
  }

  function Kind(event: map<string, Value>): string {
    StringField(event, "type").GetOr("")
  }

  /** The line is `null` or an error object. */
  predicate Throws(json: Json, line: string) {
    || (Trim(line) != "" && json.parse(Trim(line)) == Parsed(NullValue))
    || (ObjectOf(json, line).Some? && Kind(ObjectOf(json, line).value) == "error")
  }

  /** The lines before the first that throws. */
  function Kept(json: Json, lines: seq<string>): seq<string> {
    if lines == [] || Throws(json, lines[0]) then [] else [lines[0]] + Kept(json, lines[1..])
  }

  /** White space and line terminators of ECMAScript. */
  const SPACES: set<int> := {0x9, 0xA, 0xB, 0xC, 0xD, 0x20, 0xA0, 0x1680, 0x2000, 0x2001, 0x2002, 0x2003, 0x2004,
      0x2005, 0x2006, 0x2007, 0x2008, 0x2009, 0x200A, 0x2028, 0x2029, 0x202F, 0x205F, 0x3000, 0xFEFF}

  ghost predicate Blank(s: string) {
    forall i :: 0 <= i < |s| ==> s[i] as int in SPACES
  }

  lemma {:induction false} TrimStartCuts(s: string) returns (left: string)
    ensures s == left + TrimStart(s) && Blank(left)
    ensures TrimStart(s) != "" ==> TrimStart(s)[0] as int !in SPACES
  {
    left := "";
    if s != [] && IsSpace(s[0]) {
      var rest := TrimStartCuts(s[1..]);
      left := [s[0]] + rest;
      assert s == [s[0]] + s[1..];
    }
  }

  lemma {:induction false} TrimEndCuts(s: string) returns (right: string)
    ensures s == TrimEnd(s) + right && Blank(right) && TrimEnd(s) <= s
    ensures TrimEnd(s) != "" ==> TrimEnd(s)[|TrimEnd(s)| - 1] as int !in SPACES
  {
    right := "";
    if s != [] && IsSpace(s[|s| - 1]) {
      var rest := TrimEndCuts(s[..|s| - 1]);
      right := rest + [s[|s| - 1]];
      assert s == s[..|s| - 1] + [s[|s| - 1]];
    }
  }

  /** Trimming takes exactly the white space off both ends. */
  lemma TrimCutsBlanks(s: string) returns (left: string, right: string)
    ensures s == left + Trim(s) + right && Blank(left) && Blank(right)
    ensures Trim(s) != "" ==> Trim(s)[0] as int !in SPACES && Trim(s)[|Trim(s)| - 1] as int !in SPACES
  {
    left := TrimStartCuts(s);
    right := TrimEndCuts(TrimStart(s));
    hide Blank, TrimStart, TrimEnd;
    assert left + (Trim(s) + right) == left + Trim(s) + right;
  }

  /** The first of two fields that is a string with something in it. */
  lemma EitherReads(event: map<string, Value>, k1: string, k2: string)
    ensures k1 in event && event[k1].StringValue? && event[k1].s != "" ==> Either(event, k1, k2) == event[k1].s
    ensures !(k1 in event && event[k1].StringValue? && event[k1].s != "") ==>
              Either(event, k1, k2) == if k2 in event && event[k2].StringValue? then event[k2].s else ""
  {
  }

  /** Which call a line is about, as a start or delta of its input or as a whole. */
  function CallOf(event: map<string, Value>): string {
    if Kind(event) == "tool-call" then StringField(event, "toolCallId").GetOr("")
    else if Kind(event) == "tool-input-start" || Kind(event) == "tool-input-delta" then
      Either(event, "id", "toolCallId")
    else ""
  }

  predicate Opens(event: map<string, Value>, id: string) {
    (Kind(event) == "tool-call" || Kind(event) == "tool-input-start") && CallOf(event) == id
  }

  /** The whole input of a call, as text. */
  function InputOf(json: Json, event: map<string, Value>): string {
    if "input" in event && event["input"].StringValue? then event["input"].s
    else json.stringify(if "input" in event then Some(event["input"]) else None)
  }

  // ------------------------------------------------------------ what a line sends, what events show

  function TextSent(event: map<string, Value>): string {
    if Kind(event) == "text-delta" || Kind(event) == "reasoning-delta" then Either(event, "text", "delta") else ""
  }

  /** The arguments a line adds to call `id`, which has been opened before or not. */
  function ArgumentsSent(json: Json, event: map<string, Value>, id: string, begun: bool): string {
    if CallOf(event) != id then ""
    else if Kind(event) == "tool-input-delta" && begun then Either(event, "delta", "inputTextDelta")
    else if Kind(event) == "tool-call" && !begun then InputOf(json, event)
    else ""
  }

  function NameSent(event: map<string, Value>, id: string, begun: bool): seq<string> {
    if Opens(event, id) && !begun then [StringField(event, "toolName").GetOr("")] else []
  }

  /** What stands at the end of a step: the reason and usage it gives, or those so far. */
  function ReasonAfter(event: map<string, Value>, reason: Option<string>): Option<string> {
    var given := StringField(event, "finishReason");
    if Kind(event) == "finish-step" && given.Some? && given.value != "" then given else reason
  }

  function UsageAfter(event: map<string, Value>, usage: Option<map<string, Value>>): Option<map<string, Value>> {
    if Kind(event) == "finish-step" && "usage" in event && event["usage"].RecordValue? then Some(event["usage"].fields)
    else usage
  }

  /** What a line that finishes the answer sends: the reason of the last step that gave one, or
      its own, or "stop"; and the usage of the last step that gave one. */
  function StopsSent(event: map<string, Value>, reason: Option<string>, usage: Option<map<string, Value>>)
    : seq<StreamEvent>
  {
    if Kind(event) != "finish" then []
    else
      var last := match reason case Some(r) => r case None => StringField(event, "finishReason").GetOr("stop");
      [MessageStop(MapFinishReason(last))] + match usage case Some(u) => [ReportUsage(u)] case None => []
  }

  lemma FinishReasonsMap(reason: string)
    ensures MapFinishReason("length") == Length && MapFinishReason("tool_calls") == ToolCall
    ensures MapFinishReason("content_filter") == ContentFilter
    ensures reason !in {"length", "tool_calls", "content_filter"} ==> MapFinishReason(reason) == Completed
  {
  }

  /** The field is there and holds a number. */
  ghost predicate Holds(record: map<string, Value>, key: string) {
    key in record && record[key].NumberValue?
  }

  /** Token counts under their newer names count before those under the older ones, and what is
      not a number counts as missing. */
  lemma UsageReads(u: map<string, Value>)
    ensures var usage := ReportUsage(u).usage;
            && usage.inputTokens == (if Holds(u, "promptTokens") then Some(u["promptTokens"].n)
                                     else if Holds(u, "inputTokens") then Some(u["inputTokens"].n) else None)
            && usage.outputTokens == (if Holds(u, "completionTokens") then Some(u["completionTokens"].n)
                                      else if Holds(u, "outputTokens") then Some(u["outputTokens"].n) else None)
            && usage.cacheRead == (if Holds(u, "cacheReadTokens") then Some(u["cacheReadTokens"].n) else None)
            && usage.cacheWrite == (if Holds(u, "cacheWriteTokens") then Some(u["cacheWriteTokens"].n) else None)
  {
  }

  function TextShown(events: seq<StreamEvent>): string {
    if events == [] then ""
    else (if events[0].TextDelta? then events[0].text else "") + TextShown(events[1..])
  }

  function ArgumentsShown(events: seq<StreamEvent>, id: string): string {
    if events == [] then ""
    else (if events[0].ToolCallDelta? && events[0].callId == id then events[0].delta else "")
         + ArgumentsShown(events[1..], id)
  }

  function NamesShown(events: seq<StreamEvent>, id: string): seq<string> {
    if events == [] then []
    else (if events[0].ToolCallStart? && events[0].callId == id then [events[0].name] else [])
         + NamesShown(events[1..], id)
  }

  function StopsShown(events: seq<StreamEvent>): seq<StreamEvent> {
    if events == [] then []
    else (if events[0].MessageStop? || events[0].UsageReport? then [events[0]] else []) + StopsShown(events[1..])
  }

  lemma {:induction false} TextJoins(a: seq<StreamEvent>, b: seq<StreamEvent>)
    ensures TextShown(a + b) == TextShown(a) + TextShown(b)
  {
    if a == [] {
      assert a + b == b;
    } else {
      assert (a + b)[1..] == a[1..] + b && (a + b)[0] == a[0];
      TextJoins(a[1..], b);
    }
  }

  lemma {:induction false} ArgumentsJoin(a: seq<StreamEvent>, b: seq<StreamEvent>, id: string)
    ensures ArgumentsShown(a + b, id) == ArgumentsShown(a, id) + ArgumentsShown(b, id)
  {
    if a == [] {
      assert a + b == b;
    } else {
      assert (a + b)[1..] == a[1..] + b && (a + b)[0] == a[0];
      ArgumentsJoin(a[1..], b, id);
    }
  }

  lemma {:induction false} NamesJoin(a: seq<StreamEvent>, b: seq<StreamEvent>, id: string)
    ensures NamesShown(a + b, id) == NamesShown(a, id) + NamesShown(b, id)
  {
    if a == [] {
      assert a + b == b;
    } else {
      assert (a + b)[1..] == a[1..] + b && (a + b)[0] == a[0];
      NamesJoin(a[1..], b, id);
    }
  }

  lemma {:induction false} StopsJoin(a: seq<StreamEvent>, b: seq<StreamEvent>)
    ensures StopsShown(a + b) == StopsShown(a) + StopsShown(b)
  {
    if a == [] {
      assert a + b == b;
    } else {
      StopsJoin(a[1..], b);
      StopsStep(a);
      StopsStep(a + b);
      hide StopsShown;
      assert (a + b)[1..] == a[1..] + b && (a + b)[0] == a[0];
      var first := if a[0].MessageStop? || a[0].UsageReport? then [a[0]] else [];
      assert first + (StopsShown(a[1..]) + StopsShown(b)) == first + StopsShown(a[1..]) + StopsShown(b);
    }
  }

  lemma StopsStep(events: seq<StreamEvent>)
    requires events != []
    ensures StopsShown(events)
            == (if events[0].MessageStop? || events[0].UsageReport? then [events[0]] else []) + StopsShown(events[1..])
  {
  }

  lemma ShownJoins(a: seq<StreamEvent>, b: seq<StreamEvent>, id: string)
    ensures TextShown(a + b) == TextShown(a) + TextShown(b)
    ensures ArgumentsShown(a + b, id) == ArgumentsShown(a, id) + ArgumentsShown(b, id)
    ensures NamesShown(a + b, id) == NamesShown(a, id) + NamesShown(b, id)
    ensures StopsShown(a + b) == StopsShown(a) + StopsShown(b)
  {
    hide TextShown, ArgumentsShown, NamesShown, StopsShown;
    TextJoins(a, b);
    ArgumentsJoin(a, b, id);
    NamesJoin(a, b, id);
    StopsJoin(a, b);
  }

  // ------------------------------------------------------------ one line

  /** What the events of one object show is what it sends, and the state follows it. */
  ghost predicate ShowsEvent(json: Json, event: map<string, Value>, state: State, id: string) {
    match DecodeEvent(json, event, state)
    case Thrown => Kind(event) == "error"
    case Decoded(events, next) =>
      && Kind(event) != "error"
      && TextShown(events) == TextSent(event)
      && ArgumentsShown(events, id) == ArgumentsSent(json, event, id, id in state.tools)
      && NamesShown(events, id) == NameSent(event, id, id in state.tools)
      && StopsShown(events) == StopsSent(event, state.finishReason, state.usage)
      && (id in next.tools <==> id in state.tools || Opens(event, id))
      && next.finishReason == ReasonAfter(event, state.finishReason)
      && next.usage == UsageAfter(event, state.usage)
  }

  lemma ShownOfTwo(a: StreamEvent, b: StreamEvent, id: string)
    ensures TextShown([]) == "" && ArgumentsShown([], id) == "" && NamesShown([], id) == [] && StopsShown([]) == []
    ensures TextShown([a]) == if a.TextDelta? then a.text else ""
    ensures ArgumentsShown([a], id) == if a.ToolCallDelta? && a.callId == id then a.delta else ""
    ensures NamesShown([a], id) == if a.ToolCallStart? && a.callId == id then [a.name] else []
    ensures StopsShown([a]) == if a.MessageStop? || a.UsageReport? then [a] else []
    ensures TextShown([a, b]) == TextShown([a]) + TextShown([b])
    ensures ArgumentsShown([a, b], id) == ArgumentsShown([a], id) + ArgumentsShown([b], id)
    ensures NamesShown([a, b], id) == NamesShown([a], id) + NamesShown([b], id)
    ensures StopsShown([a, b]) == StopsShown([a]) + StopsShown([b])
  {
    assert [a][1..] == [] && [a, b][1..] == [b] && [b][1..] == [];
  }

  lemma TextEvent(json: Json, event: map<string, Value>, state: State, id: string)
    requires id != "" && (Kind(event) == "text-delta" || Kind(event) == "reasoning-delta")
    ensures ShowsEvent(json, event, state, id)
  {
    ShownOfTwo(TextDelta(Either(event, "text", "delta")), TextDelta(""), id);
    hide Either, TextShown, ArgumentsShown, NamesShown, StopsShown;
  }

  lemma StartEvent(json: Json, event: map<string, Value>, state: State, id: string)
    requires id != "" && Kind(event) == "tool-input-start"
    ensures ShowsEvent(json, event, state, id)
  {
    var start := ToolStart(event, Either(event, "id", "toolCallId"));
    ShownOfTwo(start, start, id);
    hide Either, TextShown, ArgumentsShown, NamesShown, StopsShown;
  }

  lemma DeltaEvent(json: Json, event: map<string, Value>, state: State, id: string)
    requires id != "" && Kind(event) == "tool-input-delta"
    ensures ShowsEvent(json, event, state, id)
  {
    var delta := ToolCallDelta(Either(event, "id", "toolCallId"), Either(event, "delta", "inputTextDelta"));
    ShownOfTwo(delta, delta, id);
    hide Either, TextShown, ArgumentsShown, NamesShown, StopsShown;
  }

  /** The three things one object can come to beside a single delta: a call opened and given
      whole, and the end with or without its usage. */
  lemma CallDecodes(json: Json, event: map<string, Value>, state: State)
    requires Kind(event) == "tool-call"
    ensures var call := CallOf(event);
            DecodeEvent(json, event, state) ==
            if call == "" || call in state.tools then Decoded([], state)
            else Decoded([ToolStart(event, call), ToolCallDelta(call, InputOf(json, event))], StartTool(state, call))
  {
    hide Either;
  }

  lemma FinishDecodes(json: Json, event: map<string, Value>, state: State)
    requires Kind(event) == "finish"
    ensures DecodeEvent(json, event, state) == Decoded(StopsSent(event, state.finishReason, state.usage), state)
  {
    hide Either, MapFinishReason, ReportUsage;
  }

  /** What does not even look at calls and texts. */
  lemma NotAbout(event: map<string, Value>, id: string, reason: Option<string>, usage: Option<map<string, Value>>)
    requires id != "" && (Kind(event) == "finish" || Kind(event) == "tool-call")
    ensures TextSent(event) == "" && Kind(event) != "error"
    ensures ReasonAfter(event, reason) == reason && UsageAfter(event, usage) == usage
    ensures Kind(event) == "finish" ==> CallOf(event) != id && !Opens(event, id)
    ensures Kind(event) == "tool-call" ==> StopsSent(event, reason, usage) == []
  {
  }

  lemma CallSends(json: Json, event: map<string, Value>, id: string, begun: bool)
    requires id != "" && Kind(event) == "tool-call"
    ensures var first := CallOf(event) == id && !begun;
            && ArgumentsSent(json, event, id, begun) == (if first then InputOf(json, event) else "")
            && NameSent(event, id, begun) == (if first then [StringField(event, "toolName").GetOr("")] else [])
            && (Opens(event, id) <==> CallOf(event) == id)
  {
    hide CallOf, InputOf;
  }

  lemma CallShows(start: StreamEvent, delta: StreamEvent, id: string)
    requires start.ToolCallStart? && delta.ToolCallDelta? && delta.callId == start.callId
    ensures var events := [start, delta];
            && TextShown(events) == "" && StopsShown(events) == []
            && ArgumentsShown(events, id) == (if start.callId == id then delta.delta else "")
            && NamesShown(events, id) == (if start.callId == id then [start.name] else [])
  {
    ShownOfTwo(start, delta, id);
    ShownOfTwo(delta, delta, id);
    hide TextShown, ArgumentsShown, NamesShown, StopsShown;
  }

  lemma CallEvent(json: Json, event: map<string, Value>, state: State, id: string)
    requires id != "" && Kind(event) == "tool-call"
    ensures ShowsEvent(json, event, state, id)
  {
    var call := CallOf(event);
    var start, delta := ToolStart(event, call), ToolCallDelta(call, InputOf(json, event));
    CallDecodes(json, event, state);
    CallSends(json, event, id, id in state.tools);
    NotAbout(event, id, state.finishReason, state.usage);
    ShownOfTwo(start, start, id);
    CallShows(start, delta, id);
    hide TextShown, ArgumentsShown, NamesShown, StopsShown, DecodeEvent, InputOf, CallOf, Kind;
    hide TextSent, ArgumentsSent, NameSent, StopsSent, ReasonAfter, UsageAfter, Opens;
    assert ShowsEvent(json, event, state, id);
  }

  lemma FinishEvent(json: Json, event: map<string, Value>, state: State, id: string)
    requires id != "" && Kind(event) == "finish"
    ensures ShowsEvent(json, event, state, id)
  {
    FinishDecodes(json, event, state);
    NotAbout(event, id, state.finishReason, state.usage);
    StopsAreShown(event, state.finishReason, state.usage, id);
    hide Either, TextShown, ArgumentsShown, NamesShown, StopsShown, DecodeEvent, TextSent, StopsSent,
      ReasonAfter, UsageAfter, CallOf, Opens;
    assert ShowsEvent(json, event, state, id);
  }

  lemma StopsAreShown(event: map<string, Value>, reason: Option<string>, usage: Option<map<string, Value>>, id: string)
    ensures var sent := StopsSent(event, reason, usage);
            TextShown(sent) == "" && ArgumentsShown(sent, id) == "" && NamesShown(sent, id) == []
            && StopsShown(sent) == sent
  {
    var sent := StopsSent(event, reason, usage);
    assert forall i :: 0 <= i < |sent| ==> sent[i].MessageStop? || sent[i].UsageReport?;
    hide StopsSent;
    OnlyStops(sent, id);
  }

  lemma {:induction false} OnlyStops(events: seq<StreamEvent>, id: string)
    requires forall i :: 0 <= i < |events| ==> events[i].MessageStop? || events[i].UsageReport?
    ensures TextShown(events) == "" && ArgumentsShown(events, id) == "" && NamesShown(events, id) == []
    ensures StopsShown(events) == events
  {
    if events != [] { OnlyStops(events[1..], id); }
  }

  lemma QuietEvent(json: Json, event: map<string, Value>, state: State, id: string)
    requires id != "" && Kind(event) !in {"text-delta", "reasoning-delta", "tool-input-start", "tool-input-delta"}
    requires Kind(event) != "tool-call" && Kind(event) != "finish"
    ensures ShowsEvent(json, event, state, id)
  {
    hide Either;
  }

  lemma EventShows(json: Json, event: map<string, Value>, state: State, id: string)
    requires id != ""
    ensures ShowsEvent(json, event, state, id)
  {
    hide ShowsEvent;
    var kind := Kind(event);
    if kind == "text-delta" || kind == "reasoning-delta" {
      TextEvent(json, event, state, id);
    } else if kind == "tool-input-start" {
      StartEvent(json, event, state, id);
    } else if kind == "tool-input-delta" {
      DeltaEvent(json, event, state, id);
    } else if kind == "tool-call" {
      CallEvent(json, event, state, id);
    } else if kind == "finish" {
      FinishEvent(json, event, state, id);
    } else {
      hide Kind;
      QuietEvent(json, event, state, id);
    }
  }

  /** A line that throws stops the decoder; one that holds no object does nothing. */
  lemma LineTaken(json: Json, line: string, state: State)
    ensures var held := ObjectOf(json, line);
            && (TakeLine(json, line, state).Thrown? <==> Throws(json, line))
            && (held.Some? ==> TakeLine(json, line, state) == DecodeEvent(json, held.value, state))
            && (held.None? && !Throws(json, line) ==> TakeLine(json, line, state) == Decoded([], state))
  {
    if ObjectOf(json, line).Some? { EventShows(json, ObjectOf(json, line).value, state, "x"); }
    hide Trim, Kind, DecodeEvent, TextShown, ArgumentsShown, NamesShown, StopsShown, TextSent, ArgumentsSent, NameSent,
      StopsSent, Opens, ReasonAfter, UsageAfter;
  }

  // ------------------------------------------------------------ whole texts

  function TextsSent(json: Json, lines: seq<string>): string {
    if lines == [] then ""
    else match ObjectOf(json, lines[0])
      case None => TextsSent(json, lines[1..])
      case Some(event) => TextSent(event) + TextsSent(json, lines[1..])
  }

  function AllArgumentsSent(json: Json, lines: seq<string>, id: string, begun: bool): string {
    if lines == [] then ""
    else match ObjectOf(json, lines[0])
      case None => AllArgumentsSent(json, lines[1..], id, begun)
      case Some(event) =>
        ArgumentsSent(json, event, id, begun) + AllArgumentsSent(json, lines[1..], id, begun || Opens(event, id))
  }

  function NamesSent(json: Json, lines: seq<string>, id: string, begun: bool): seq<string> {
    if lines == [] then []
    else match ObjectOf(json, lines[0])
      case None => NamesSent(json, lines[1..], id, begun)
      case Some(event) => NameSent(event, id, begun) + NamesSent(json, lines[1..], id, begun || Opens(event, id))
  }

  function AllStopsSent(json: Json, lines: seq<string>, reason: Option<string>, usage: Option<map<string, Value>>)
    : seq<StreamEvent>
  {
    if lines == [] then []
    else match ObjectOf(json, lines[0])
      case None => AllStopsSent(json, lines[1..], reason, usage)
      case Some(event) =>
        StopsSent(event, reason, usage)
        + AllStopsSent(json, lines[1..], ReasonAfter(event, reason), UsageAfter(event, usage))
  }

  /** The finish reason of the last step that gave one. */
  function LastReason(json: Json, lines: seq<string>, reason: Option<string>): Option<string> {
    if lines == [] then reason
    else match ObjectOf(json, lines[0])
      case None => LastReason(json, lines[1..], reason)
      case Some(event) => LastReason(json, lines[1..], ReasonAfter(event, reason))
  }

  ghost predicate Shows(json: Json, lines: seq<string>, state: State, id: string, p: Progress) {
    && TextShown(p.events) == TextsSent(json, lines)
    && ArgumentsShown(p.events, id) == AllArgumentsSent(json, lines, id, id in state.tools)
    && NamesShown(p.events, id) == NamesSent(json, lines, id, id in state.tools)
    && StopsShown(p.events) == AllStopsSent(json, lines, state.finishReason, state.usage)
    && p.state.finishReason == LastReason(json, lines, state.finishReason)
  }

  lemma ShowsMore(json: Json, line: string, rest: seq<string>, state: State, id: string, p: Progress, next: State,
                  events: seq<StreamEvent>)
    requires ObjectOf(json, line).Some? && ShowsEvent(json, ObjectOf(json, line).value, state, id)
    requires DecodeEvent(json, ObjectOf(json, line).value, state) == Decoded(events, next)
    requires Shows(json, rest, next, id, p)
    ensures Shows(json, [line] + rest, state, id, Progress(events + p.events, p.state, p.failed))
  {
    hide DecodeEvent, ObjectOf, TextShown, ArgumentsShown, NamesShown, StopsShown;
    ShownJoins(events, p.events, id);
    assert ([line] + rest)[1..] == rest;
    hide TextSent, ArgumentsSent, NameSent, StopsSent, Opens, ReasonAfter, UsageAfter;
  }

  lemma ShowsNoMore(json: Json, line: string, rest: seq<string>, state: State, id: string, p: Progress)
    requires ObjectOf(json, line).None? && Shows(json, rest, state, id, p)
    ensures Shows(json, [line] + rest, state, id, Progress([] + p.events, p.state, p.failed))
  {
    assert ([line] + rest)[1..] == rest && [] + p.events == p.events;
    hide ObjectOf, TextShown, ArgumentsShown, NamesShown, StopsShown;
  }

  lemma ShowsNothing(json: Json, state: State, id: string, failed: bool)
    ensures Shows(json, [], state, id, Progress([], state, failed))
  {
  }

  lemma {:induction false} FoldShows(json: Json, lines: seq<string>, state: State, id: string)
    requires id != ""
    ensures Shows(json, Kept(json, lines), state, id, Fold(json, lines, state))
    ensures Fold(json, lines, state).failed <==> |Kept(json, lines)| < |lines|
    decreases |lines|
  {
    hide Shows, ShowsEvent, Throws, ObjectOf, DecodeEvent, TakeLine;
    if lines == [] {
      ShowsNothing(json, state, id, false);
      return;
    }
    LineTaken(json, lines[0], state);
    if Throws(json, lines[0]) {
      ShowsNothing(json, state, id, true);
      return;
    }
    var held := ObjectOf(json, lines[0]);
    var result := TakeLine(json, lines[0], state);
    FoldShows(json, lines[1..], result.state, id);
    var rest := Fold(json, lines[1..], result.state);
    if held.Some? {
      EventShows(json, held.value, state, id);
      ShowsMore(json, lines[0], Kept(json, lines[1..]), state, id, rest, result.state, result.events);
    } else {
      ShowsNoMore(json, lines[0], Kept(json, lines[1..]), state, id, rest);
    }
    assert Shows(json, Kept(json, lines), state, id, Fold(json, lines, state));
  }

  lemma StopShown(stop: StreamEvent, id: string)
    requires stop.MessageStop?
    ensures TextShown([stop]) == "" && ArgumentsShown([stop], id) == "" && NamesShown([stop], id) == []
    ensures StopsShown([stop]) == [stop]
  {
    ShownOfTwo(stop, stop, id);
  }

  /** Over a whole body, up to a line that throws: the text shown is the text sent, each call
      shows its name once and the arguments sent for it from its first line on, and stop reasons
      and usage are those of the lines, followed by the closing stop when no line threw. */
  lemma ContentIsKept(json: Json, text: string, id: string)
    requires id != ""
    ensures var lines := Split(text, '\n');
            var kept, output := Kept(json, lines), DecodeText(json, text);
            && (output.end.FailedLine? <==> |kept| < |lines|)
            && TextShown(output.events) == TextsSent(json, kept)
            && ArgumentsShown(output.events, id) == AllArgumentsSent(json, kept, id, false)
            && NamesShown(output.events, id) == NamesSent(json, kept, id, false)
            && StopsShown(output.events) == AllStopsSent(json, kept, None, None)
                 + (if |kept| < |lines| then []
                    else [MessageStop(MapFinishReason(LastReason(json, kept, None).GetOr("stop")))])
  {
    var lines := Split(text, '\n');
    FoldShows(json, lines, START, id);
    var all := Fold(json, lines, START);
    var stop := MessageStop(MapFinishReason(all.state.finishReason.GetOr("stop")));
    hide Split, Fold, Kept, TextShown, ArgumentsShown, NamesShown, StopsShown;
    StopShown(stop, id);
    ShownJoins(all.events, [stop], id);
    hide TextsSent, AllArgumentsSent, NamesSent, AllStopsSent, LastReason, MapFinishReason;
  }

  ghost predicate NoneEmpty(events: seq<StreamEvent>) {
    forall i :: 0 <= i < |events| ==>
      && (events[i].TextDelta? ==> events[i].text != "")
      && (events[i].ToolCallStart? || events[i].ToolCallDelta? ==> events[i].callId != "")
  }

  lemma LineSendsNothingEmpty(json: Json, line: string, state: State)
    requires TakeLine(json, line, state).Decoded?
    ensures NoneEmpty(TakeLine(json, line, state).events)
  {
    hide Trim, Either, MapFinishReason;
  }

  lemma {:induction false} FoldSendsNothingEmpty(json: Json, lines: seq<string>, state: State)
    ensures NoneEmpty(Fold(json, lines, state).events)
    decreases |lines|
  {
    if lines != [] && TakeLine(json, lines[0], state).Decoded? {
      LineSendsNothingEmpty(json, lines[0], state);
      hide TakeLine;
      FoldSendsNothingEmpty(json, lines[1..], TakeLine(json, lines[0], state).state);
    }
  }

  /** No text is sent that is empty, and no tool call without an id; an empty delta of a call
      comes only from a line that gives the whole call. */
  lemma NothingEmptyIsSent(json: Json, text: string, event: map<string, Value>, state: State)
    ensures NoneEmpty(DecodeText(json, text).events)
    ensures var r := DecodeEvent(json, event, state);
            r.Decoded? ==> forall i :: 0 <= i < |r.events| && r.events[i].ToolCallDelta? && r.events[i].delta == "" ==>
              Kind(event) == "tool-call"
  {
    FoldSendsNothingEmpty(json, Split(text, '\n'), START);
    hide Fold, Split, Either, MapFinishReason;
  }
}
