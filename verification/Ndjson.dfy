/** The NDJSON stream decoder of src/providers/commandcode.ts. The text decoder is taken to
    yield the concatenated text; JSON parsing and printing are parameters. A `char` stands
    for one UTF-16 code unit. */
module Ndjson {
  import opened Common
  import opened Text
  import opened StreamContract

  datatype Value =
    | StringValue(s: string)
    | NumberValue(n: int)
    | RecordValue(fields: map<string, Value>)
    | NullValue
    | OtherValue

  datatype Parse = Malformed | Parsed(value: Value)

  datatype Json = Json(parse: string -> Parse, stringify: Option<Value> -> string)

  datatype State = State(tools: map<string, nat>, nextTool: nat, finishReason: Option<string>,
    usage: Option<map<string, Value>>)

  const START := State(map[], 0, None, None)

  /** The events of one line and the state after it, or a throw. */
  datatype LineResult = Decoded(events: seq<StreamEvent>, state: State) | Thrown

  function StringField(event: map<string, Value>, key: string): Option<string> {
    if key in event && event[key].StringValue? then Some(event[key].s) else None
  }

  function NumberField(record: map<string, Value>, key: string): Option<int> {
    if key in record && record[key].NumberValue? then Some(record[key].n) else None
  }

  /** `eventString(e, k1) || eventString(e, k2)`, with "" for every falsy outcome. */
  function Either(event: map<string, Value>, k1: string, k2: string): string {
    var first := StringField(event, k1).GetOr("");
    if first != "" then first else StringField(event, k2).GetOr("")
  }

  function MapFinishReason(reason: string): StopReason {
    if reason == "length" then Length
    else if reason == "tool_calls" then ToolCall
    else if reason == "content_filter" then ContentFilter
    else Completed
  }

  function StartTool(state: State, id: string): State {
    state.(tools := state.tools[id := state.nextTool], nextTool := state.nextTool + 1)
  }

  function ReportUsage(usage: map<string, Value>): StreamEvent {
    UsageReport(Usage(
      OrElse(NumberField(usage, "promptTokens"), NumberField(usage, "inputTokens")),
      OrElse(NumberField(usage, "completionTokens"), NumberField(usage, "outputTokens")),
      NumberField(usage, "cacheReadTokens"),
      NumberField(usage, "cacheWriteTokens")))
  }

  function ToolStart(event: map<string, Value>, id: string): StreamEvent {
    ToolCallStart(id, StringField(event, "toolName").GetOr(""))
  }

  /** The object branches of `decodeCommandCodeLine`, by event type. */
  function DecodeEvent(json: Json, event: map<string, Value>, state: State): LineResult {
    var kind := StringField(event, "type").GetOr("");
    if kind == "" then Decoded([], state)
    else if kind == "text-delta" || kind == "reasoning-delta" then
      var text := Either(event, "text", "delta");
      Decoded(if text != "" then [TextDelta(text)] else [], state)
    else if kind == "tool-input-start" then
      var id := Either(event, "id", "toolCallId");
      if id == "" || id in state.tools then Decoded([], state)
        else Decoded([ToolStart(event, id)], StartTool(state, id))
    else if kind == "tool-input-delta" then
      var id := Either(event, "id", "toolCallId");
      var delta := Either(event, "delta", "inputTextDelta");
      Decoded(if id == "" || delta == "" || id !in state.tools then [] else [ToolCallDelta(id, delta)], state)
    else if kind == "tool-call" then
      var id := StringField(event, "toolCallId").GetOr("");
      if id == "" || id in state.tools then Decoded([], state)
      else
        var input := if StringField(event, "input").Some? then StringField(event, "input").value
                     else json.stringify(if "input" in event then Some(event["input"]) else None);
        Decoded([ToolStart(event, id), ToolCallDelta(id, input)], StartTool(state, id))
    else if kind == "finish-step" then
      var reason := StringField(event, "finishReason").GetOr("");
      Decoded([], state.(
        finishReason := if reason != "" then Some(reason) else state.finishReason,
        usage := if "usage" in event && event["usage"].RecordValue? then Some(event["usage"].fields) else state.usage))
    else if kind == "finish" then
      var reason := OrElse(state.finishReason, StringField(event, "finishReason")).GetOr("stop");
      Decoded([MessageStop(MapFinishReason(reason))] +
              (if state.usage.Some? then [ReportUsage(state.usage.value)] else []), state)
    else if kind == "error" then Thrown
    else Decoded([], state)
  }

  /** `decodeCommandCodeLine`: a malformed line is skipped, reading a field of `null`
      throws, and other values that are not objects have no type. */
  function DecodeLine(json: Json, line: string, state: State): LineResult {
    match json.parse(line)
    case Malformed => Decoded([], state)
    case Parsed(NullValue) => Thrown
    case Parsed(RecordValue(event)) => DecodeEvent(json, event, state)
    case Parsed(_) => Decoded([], state)
  }

  predicate IsSpace(c: char) {
    var u := c as int;
    9 <= u <= 13 || u == 0x20 || u == 0xA0 || u == 0x1680 || 0x2000 <= u <= 0x200A
    || u == 0x2028 || u == 0x2029 || u == 0x202F || u == 0x205F || u == 0x3000 || u == 0xFEFF
  }

  function TrimStart(s: string): string {
    if s != [] && IsSpace(s[0]) then TrimStart(s[1..]) else s
  }

  function TrimEnd(s: string): string {
    if s != [] && IsSpace(s[|s| - 1]) then TrimEnd(s[..|s| - 1]) else s
  }

  function Trim(s: string): string { TrimEnd(TrimStart(s)) }

  /** One line as the stream loop treats it: blank lines are skipped. */
  function TakeLine(json: Json, line: string, state: State): LineResult {
    if Trim(line) == "" then Decoded([], state) else DecodeLine(json, Trim(line), state)
  }

  datatype Progress = Progress(events: seq<StreamEvent>, state: State, failed: bool)

  function Fold(json: Json, lines: seq<string>, state: State): Progress {
    if lines == [] then Progress([], state, false)
    else
      match TakeLine(json, lines[0], state)
      case Thrown => Progress([], state, true)
      case Decoded(events, next) =>
        var rest := Fold(json, lines[1..], next);
        Progress(events + rest.events, rest.state, rest.failed)
  }

  datatype End = Ended | FailedLine | AbortSeen

  datatype Output = Output(events: seq<StreamEvent>, end: End)

  /** The simple form: decode the whole text line by line, then stop. */
  function DecodeText(json: Json, text: string): Output {
    var all := Fold(json, Split(text, '\n'), START);
    if all.failed then Output(all.events, FailedLine)
    else Output(all.events + [MessageStop(MapFinishReason(all.state.finishReason.GetOr("stop")))], Ended)
  }

  /** What is out when an abort is seen after `text` has arrived: the complete lines. */
  function DecodeAborted(json: Json, text: string): Output {
    var lines := Split(text, '\n');
    var done := Fold(json, lines[..|lines| - 1], START);
    Output(done.events, if done.failed then FailedLine else AbortSeen)
  }

  function Concat(chunks: seq<string>): string {
    if chunks == [] then [] else Concat(chunks[..|chunks| - 1]) + chunks[|chunks| - 1]
  }

  // ------------------------------------------------------------ folding and splitting

  lemma {:induction false} FoldJoin(json: Json, a: seq<string>, b: seq<string>, state: State)
    ensures var x := Fold(json, a, state);
            Fold(json, a + b, state) ==
            if x.failed then x
            else var y := Fold(json, b, x.state); Progress(x.events + y.events, y.state, y.failed)
    decreases |a|
  {
    hide TakeLine;
    if a == [] {
      assert a + b == b;
      var y := Fold(json, b, state);
      assert [] + y.events == y.events;
    } else {
      assert (a + b)[1..] == a[1..] + b;
      match TakeLine(json, a[0], state) {
        case Thrown =>
        case Decoded(events, next) =>
          FoldJoin(json, a[1..], b, next);
          var x := Fold(json, a[1..], next);
          if !x.failed {
            var y := Fold(json, b, x.state);
            assert events + (x.events + y.events) == (events + x.events) + y.events;
          }
      }
    }
  }

  lemma SplitHead(c: char, s: string)
    ensures var rest := Split(s, '\n');
            Split([c] + s, '\n') == if c == '\n' then [[]] + rest else [[c] + rest[0]] + rest[1..]
  {
    assert ([c] + s)[1..] == s;
  }

  lemma {:induction false} SplitAppend(a: string, b: string)
    ensures var parts := Split(a, '\n');
            Split(a + b, '\n') == parts[..|parts| - 1] + Split(parts[|parts| - 1] + b, '\n')
  {
    if a == [] {
      assert a + b == b && "" + b == b;
      assert [""][..0] == [];
    } else {
      var c, t := a[0], a[1..];
      assert a == [c] + t && a + b == [c] + (t + b);
      SplitHead(c, t);
      SplitHead(c, t + b);
      SplitAppend(t, b);
      var rest := Split(t, '\n');
      var last := rest[|rest| - 1];
      SplitHead(c, last + b);
      assert ([c] + last) + b == [c] + (last + b);
      hide Split;
      AppendCases(c, rest, Split(last + b, '\n'));
    }
  }

  lemma AppendCases(c: char, rest: seq<string>, tail: seq<string>)
    requires rest != [] && tail != []
    ensures var whole := rest[..|rest| - 1] + tail;
            if c == '\n' then
              var parts := [[]] + rest;
              [[]] + whole == parts[..|parts| - 1] + tail && parts[|parts| - 1] == rest[|rest| - 1]
            else
              var parts := [[c] + rest[0]] + rest[1..];
              if |rest| == 1 then whole == tail && parts == [[c] + rest[0]] && parts[..0] == []
              else
                && [[c] + whole[0]] + whole[1..] == parts[..|parts| - 1] + tail
                && parts[|parts| - 1] == rest[|rest| - 1]
  {
  }

  function Init(lines: seq<string>): seq<string>
    requires lines != []
  {
    lines[..|lines| - 1]
  }

  /** The complete lines of `text` are taken, and the buffer holds what follows the last
      newline. */
  ghost predicate InStep(json: Json, text: string, buffer: string, progress: Progress) {
    var lines := Split(text, '\n');
    progress == Fold(json, Init(lines), START) && (!progress.failed ==> buffer == lines[|lines| - 1])
  }

  /** The inner loop: takes every complete line out of the buffer, or stops at a throw. */
  method DrainBuffer(json: Json, ghost text: string, ghost done: seq<string>, held: string, taken: Progress)
    returns (buffer: string, progress: Progress)
    requires !taken.failed && taken == Fold(json, done, START)
    requires Split(text, '\n') == done + Split(held, '\n')
    ensures InStep(json, text, buffer, progress)
  {
    hide TakeLine, IndexOf, Split, Fold, Concat;
    buffer, progress := held, taken;
    ghost var seen := done;
    var newline := IndexOf(buffer, '\n');
    while newline != -1
      invariant newline == IndexOf(buffer, '\n')
      invariant !progress.failed && progress == Fold(json, seen, START)
      invariant Split(text, '\n') == seen + Split(buffer, '\n')
      decreases |buffer|
    {
      FirstLine(buffer, newline);
      var line, rest := buffer[..newline], buffer[newline + 1..];
      OneMore(json, seen, line, Split(rest, '\n'));
      match TakeLine(json, line, progress.state) {
        case Thrown =>
          progress := progress.(failed := true);
          return;
        case Decoded(events, next) =>
          progress := Progress(progress.events + events, next, false);
      }
      seen, buffer := seen + [line], rest;
      newline := IndexOf(buffer, '\n');
    }
    SplitNone(buffer, '\n');
    assert Init(seen + [buffer]) == seen;
  }

  /** Taking one more line, with at least one part after it. */
  lemma OneMore(json: Json, seen: seq<string>, line: string, rest: seq<string>)
    requires !Fold(json, seen, START).failed && rest != []
    ensures seen + ([line] + rest) == (seen + [line]) + rest
    ensures var x := Fold(json, seen, START);
            match TakeLine(json, line, x.state)
            case Thrown => Fold(json, Init(seen + ([line] + rest)), START) == x.(failed := true)
            case Decoded(events, next) => Fold(json, seen + [line], START) == Progress(x.events + events, next, false)
  {
    hide TakeLine;
    var x := Fold(json, seen, START);
    FoldJoin(json, seen, [line], START);
    FoldOne(json, line, x.state);
    assert Init(seen + ([line] + rest)) == (seen + [line]) + Init(rest);
    FoldJoin(json, seen + [line], Init(rest), START);
    assert x.events + [] == x.events;
  }

  lemma FirstLine(buffer: string, newline: nat)
    requires newline < |buffer| && newline == IndexOf(buffer, '\n')
    ensures Split(buffer, '\n') == [buffer[..newline]] + Split(buffer[newline + 1..], '\n')
  {
    hide Split, IndexOf;
    var a, b := buffer[..newline], buffer[newline + 1..];
    assert buffer[newline] == '\n';
    assert a + ['\n'] + b == buffer;
    SplitFirst(a, '\n', b);
  }

  lemma FoldOne(json: Json, line: string, state: State)
    ensures Fold(json, [line], state) ==
            match TakeLine(json, line, state)
            case Thrown => Progress([], state, true)
            case Decoded(events, next) => Progress(events, next, false)
  {
    assert [line][1..] == [];
    if TakeLine(json, line, state).Decoded? {
      var events := TakeLine(json, line, state).events;
      assert events + [] == events;
    }
  }

  /** A throw ends the decoding: more text changes nothing. */
  lemma FailureIsFinal(json: Json, text: string, more: string)
    requires Fold(json, Init(Split(text, '\n')), START).failed
    ensures Fold(json, Split(text + more, '\n'), START) == Fold(json, Init(Split(text, '\n')), START)
    ensures Fold(json, Init(Split(text + more, '\n')), START) == Fold(json, Init(Split(text, '\n')), START)
  {
    SplitAppend(text, more);
    var parts := Split(text, '\n');
    var rest := Split(parts[|parts| - 1] + more, '\n');
    hide Fold, Split, TakeLine;
    FoldJoin(json, Init(parts), rest, START);
    FoldJoin(json, Init(parts), Init(rest), START);
    assert Init(Init(parts) + rest) == Init(parts) + Init(rest);
  }

  lemma {:induction false} ConcatSplit(chunks: seq<string>, k: nat)
    requires k <= |chunks|
    ensures Concat(chunks) == Concat(chunks[..k]) + Concat(chunks[k..])
  {
    if k == |chunks| {
      assert chunks[..k] == chunks && chunks[k..] == [];
      assert Concat(chunks) + "" == Concat(chunks);
    } else {
      var init := chunks[..|chunks| - 1];
      ConcatSplit(init, k);
      assert init[..k] == chunks[..k] && chunks[k..][..|chunks[k..]| - 1] == init[k..];
    }
  }

  /** Nothing failed and no more text comes: what is left is the buffer. */
  lemma FinishOutput(json: Json, text: string, buffer: string, progress: Progress)
    requires InStep(json, text, buffer, progress) && !progress.failed
    ensures DecodeText(json, text) ==
            match TakeLine(json, buffer, progress.state)
            case Thrown => Output(progress.events, FailedLine)
            case Decoded(events, state) =>
              Output(progress.events + events + [MessageStop(MapFinishReason(state.finishReason.GetOr("stop")))], Ended)
  {
    var lines := Split(text, '\n');
    hide TakeLine, Split, MapFinishReason;
    assert Init(lines) + [buffer] == lines;
    FoldJoin(json, Init(lines), [buffer], START);
    FoldOne(json, buffer, progress.state);
    hide Fold;
    assert progress.events + [] == progress.events;
  }

  lemma AbortOutput(json: Json, text: string, buffer: string, progress: Progress)
    requires InStep(json, text, buffer, progress) && !progress.failed
    ensures DecodeAborted(json, text) == Output(progress.events, AbortSeen)
  {
    hide Fold, Split;
  }

  lemma FailureOutput(json: Json, text: string, more: string, buffer: string, progress: Progress)
    requires InStep(json, text, buffer, progress) && progress.failed
    ensures DecodeText(json, text + more) == DecodeAborted(json, text + more) == Output(progress.events, FailedLine)
  {
    FailureIsFinal(json, text, more);
    hide Fold, Split, MapFinishReason;
  }

  lemma Feed(json: Json, text: string, buffer: string, progress: Progress, chunk: string)
    requires InStep(json, text, buffer, progress) && !progress.failed
    ensures progress == Fold(json, Init(Split(text, '\n')), START)
    ensures Split(text + chunk, '\n') == Init(Split(text, '\n')) + Split(buffer + chunk, '\n')
  {
    SplitAppend(text, chunk);
    hide Fold, Split;
  }

  lemma StartsInStep(json: Json)
    ensures InStep(json, "", "", Progress([], START, false))
  {
    assert Init([""]) == [];
  }

  /** `decodeCommandCodeNdjson` on a body that arrives as `chunks`, with the abort signal
      seen before read number `abortAt` (the read that reports the end included). The output
      depends on the concatenated text only, however it was cut. */
  method DecodeNdjson(json: Json, chunks: seq<string>, abortAt: Option<nat>) returns (output: Output)
    ensures abortAt.None? || abortAt.value > |chunks| ==> output == DecodeText(json, Concat(chunks))
    ensures abortAt.Some? && abortAt.value <= |chunks| ==>
            output == DecodeAborted(json, Concat(chunks[..abortAt.value]))
  {
    hide *;
    var buffer, progress := "", Progress([], START, false);
    ghost var end := if abortAt.Some? && abortAt.value <= |chunks| then abortAt.value else |chunks|;
    var next := 0;
    ConcatNone(chunks);
    StartsInStep(json);
    while true
      invariant 0 <= next <= end && !progress.failed
      invariant InStep(json, Concat(chunks[..next]), buffer, progress)
      decreases end - next
    {
      ghost var text := Concat(chunks[..next]);
      if abortAt == Some(next) {
        AbortOutput(json, text, buffer, progress);
        return Output(progress.events, AbortSeen);
      }
      if next == |chunks| { break; }
      AddChunk(chunks, next);
      Feed(json, text, buffer, progress, chunks[next]);
      buffer, progress := DrainBuffer(json, text + chunks[next], Init(Split(text, '\n')), buffer + chunks[next],
          progress);
      if progress.failed {
        ghost var more := MoreChunks(chunks, next + 1, end);
        FailureOutput(json, text + chunks[next], more, buffer, progress);
        return Output(progress.events, FailedLine);
      }
      next := next + 1;
    }
    FinishOutput(json, Concat(chunks), buffer, progress);
    match TakeLine(json, buffer, progress.state) {
      case Thrown => return Output(progress.events, FailedLine);
      case Decoded(events, state) =>
        return Output(progress.events + events + [MessageStop(MapFinishReason(state.finishReason.GetOr("stop")))],
            Ended);
    }
  }

  lemma ConcatNone(chunks: seq<string>)
    ensures Concat(chunks[..0]) == "" && Concat(chunks[..|chunks|]) == Concat(chunks)
  {
    assert chunks[..0] == [] && chunks[..|chunks|] == chunks;
  }

  lemma MoreChunks(chunks: seq<string>, k: nat, end: nat) returns (more: string)
    requires k <= end <= |chunks|
    ensures Concat(chunks[..end]) == Concat(chunks[..k]) + more
  {
    ConcatSplit(chunks[..end], k);
    assert chunks[..end][..k] == chunks[..k];
    more := Concat(chunks[..end][k..]);
  }

  lemma AddChunk(chunks: seq<string>, next: nat)
    requires next < |chunks|
    ensures Concat(chunks[..next + 1]) == Concat(chunks[..next]) + chunks[next]
  {
    assert chunks[..next + 1][..next] == chunks[..next];
  }

  /** What an abort leaves out is exactly a tail: the events out when it is seen are a prefix
      of the events of the whole text. */
  lemma AbortedIsPrefix(json: Json, text: string, more: string)
    ensures DecodeAborted(json, text).events <= DecodeText(json, text + more).events
  {
    SplitAppend(text, more);
    var parts := Split(text, '\n');
    var rest := Split(parts[|parts| - 1] + more, '\n');
    hide Fold, Split, TakeLine;
    FoldJoin(json, Init(parts), rest, START);
  }

  // ------------------------------------------------------------ tool calls

  function Started(events: seq<StreamEvent>): set<string> {
    set i | 0 <= i < |events| && events[i].ToolCallStart? :: events[i].callId
  }

  /** Each call starts at most once, and no delta comes before its start. */
  ghost predicate Disciplined(events: seq<StreamEvent>, known: set<string>) {
    forall i :: 0 <= i < |events| ==>
      && (events[i].ToolCallStart? ==> events[i].callId !in known + Started(events[..i]))
      && (events[i].ToolCallDelta? ==> events[i].callId in known + Started(events[..i]))
  }

  lemma StartedJoin(a: seq<StreamEvent>, b: seq<StreamEvent>)
    ensures Started(a + b) == Started(a) + Started(b)
  {
    var all := a + b;
    forall id | id in Started(a)
      ensures id in Started(all)
    {
      var i :| 0 <= i < |a| && a[i].ToolCallStart? && a[i].callId == id;
      assert all[i] == a[i];
    }
    forall id | id in Started(b)
      ensures id in Started(all)
    {
      var i :| 0 <= i < |b| && b[i].ToolCallStart? && b[i].callId == id;
      assert all[|a| + i] == b[i];
    }
  }

  lemma DisciplinedJoin(a: seq<StreamEvent>, b: seq<StreamEvent>, known: set<string>)
    requires Disciplined(a, known) && Disciplined(b, known + Started(a))
    ensures Disciplined(a + b, known)
  {
    hide Started;
    var all := a + b;
    forall i | 0 <= i < |all|
      ensures all[i].ToolCallStart? ==> all[i].callId !in known + Started(all[..i])
      ensures all[i].ToolCallDelta? ==> all[i].callId in known + Started(all[..i])
    {
      if i < |a| {
        assert all[..i] == a[..i];
      } else {
        var j := i - |a|;
        assert all[i] == b[j] && all[..i] == a + b[..j];
        StartedJoin(a, b[..j]);
      }
    }
  }

  lemma LineIsDisciplined(json: Json, line: string, state: State)
    requires TakeLine(json, line, state).Decoded?
    ensures var r := TakeLine(json, line, state);
            Disciplined(r.events, state.tools.Keys) && r.state.tools.Keys == state.tools.Keys + Started(r.events)
  {
    var r := TakeLine(json, line, state);
    LineShapes(json, line, state);
    hide TakeLine;
    if r.events != [] { StartedFirst(r.events); }
  }

  lemma StartedFirst(events: seq<StreamEvent>)
    requires 1 <= |events| <= 2
    ensures Started(events[..0]) == {}
    ensures Started(events[..1]) == if events[0].ToolCallStart? then {events[0].callId} else {}
    ensures |events| == 2 && !events[1].ToolCallStart? ==> Started(events) == Started(events[..1])
    ensures |events| == 1 ==> Started(events) == Started(events[..1])
  {
  }

  /** The events one line can produce. */
  lemma LineShapes(json: Json, line: string, state: State)
    requires TakeLine(json, line, state).Decoded?
    ensures var r := TakeLine(json, line, state);
            || (r.events == [] && r.state.tools == state.tools)
            || (|r.events| == 1 && r.events[0].TextDelta? && r.state.tools == state.tools)
            || (|r.events| == 1 && r.events[0].ToolCallStart? && r.events[0].callId !in state.tools
                && r.state.tools.Keys == state.tools.Keys + {r.events[0].callId})
            || (|r.events| == 1 && r.events[0].ToolCallDelta? && r.events[0].callId in state.tools
              && r.state.tools == state.tools)
            || (|r.events| == 2 && r.events[0].ToolCallStart? && r.events[1].ToolCallDelta?
              && r.events[1].callId == r.events[0].callId
                && r.events[0].callId !in state.tools && r.state.tools.Keys == state.tools.Keys + {r.events[0].callId})
            || (1 <= |r.events| <= 2 && r.events[0].MessageStop? && (|r.events| == 2 ==> r.events[1].UsageReport?)
              && r.state.tools == state.tools)
  {
    hide Trim, Either, MapFinishReason;
  }

  lemma {:induction false} FoldIsDisciplined(json: Json, lines: seq<string>, state: State)
    ensures Disciplined(Fold(json, lines, state).events, state.tools.Keys)
    decreases |lines|
  {
    if lines != [] && TakeLine(json, lines[0], state).Decoded? {
      LineIsDisciplined(json, lines[0], state);
      hide TakeLine;
      var r := TakeLine(json, lines[0], state);
      FoldIsDisciplined(json, lines[1..], r.state);
      DisciplinedJoin(r.events, Fold(json, lines[1..], r.state).events, state.tools.Keys);
    }
  }

  /** In the decoder's output each tool call starts at most once and every delta follows the
      start of its call. */
  lemma ToolCallsAreDisciplined(json: Json, text: string)
    ensures Disciplined(DecodeText(json, text).events, {})
  {
    FoldIsDisciplined(json, Split(text, '\n'), START);
    var all := Fold(json, Split(text, '\n'), START);
    hide Fold, Split;
    var last := [MessageStop(MapFinishReason(all.state.finishReason.GetOr("stop")))];
    assert last[..0] == [];
    DisciplinedJoin(all.events, last, {});
  }

  // ------------------------------------------------------------ usage comes too late

  /** Every usage report directly follows a `message_stop`. */
  ghost predicate UsageAfterStop(events: seq<StreamEvent>) {
    forall i :: 0 <= i < |events| && events[i].UsageReport? ==> i > 0 && IsTerminal(events[i - 1])
  }

  lemma {:induction false} FoldUsageAfterStop(json: Json, lines: seq<string>, state: State)
    ensures UsageAfterStop(Fold(json, lines, state).events)
    decreases |lines|
  {
    if lines != [] && TakeLine(json, lines[0], state).Decoded? {
      var r := TakeLine(json, lines[0], state);
      LineShapes(json, lines[0], state);
      hide TakeLine, UsageAfterStop;
      FoldUsageAfterStop(json, lines[1..], r.state);
      UsageJoins(r.events, Fold(json, lines[1..], r.state).events);
    }
  }

  lemma UsageJoins(line: seq<StreamEvent>, rest: seq<StreamEvent>)
    requires UsageAfterStop(rest)
    requires forall i :: 0 <= i < |line| && line[i].UsageReport? ==> i == 1 && line[0].MessageStop?
    ensures UsageAfterStop(line + rest)
  {
    var all := line + rest;
    forall i | 0 <= i < |all| && all[i].UsageReport?
      ensures i > 0 && IsTerminal(all[i - 1])
    {
      if i >= |line| { assert all[i] == rest[i - |line|] && rest[i - |line|].UsageReport?; }
    }
  }

  lemma DecodedUsageAfterStop(json: Json, text: string)
    ensures UsageAfterStop(DecodeText(json, text).events)
  {
    FoldUsageAfterStop(json, Split(text, '\n'), START);
    hide Fold;
  }
}
