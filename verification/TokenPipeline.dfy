/** `smartTruncate` and `applyTokenSaver` (src/domain/token-saver.ts). */
module TokenPipeline {
  import opened Common
  import opened Text
  import opened Decimal
  import opened TokenSaver
  import opened TokenFilters

  const MIN_COMPRESSIBLE := 500
  const PROBE := 1024

  datatype FilterName =
    | GitDiffFilter | GitStatusFilter | TreeFilter | ReadNumberedFilter | GrepFilter | DedupLogFilter | GenericFilter

  /** The candidates in the order they are tried; only the last is lossless. */
  const CANDIDATES: seq<FilterName> := [GitDiffFilter, GitStatusFilter, TreeFilter, ReadNumberedFilter, GrepFilter,
      DedupLogFilter]

  /** The pattern-driven parts: detection on a probe, hunk headers, and the three filters
      that rewrite what their patterns match. */
  datatype Patterns = Patterns(
    detect: (FilterName, string) -> bool,
    isHunk: string -> bool,
    gitStatus: string -> string,
    tree: (string, nat) -> string,
    grep: (string, nat) -> string)

  function Apply(patterns: Patterns, filter: FilterName, text: string, maxChars: nat): string {
    match filter
    case GitDiffFilter => GitDiff(text, maxChars, patterns.isHunk)
    case GitStatusFilter => patterns.gitStatus(text)
    case TreeFilter => patterns.tree(text, maxChars)
    case ReadNumberedFilter => ReadNumbered(text, maxChars)
    case GrepFilter => patterns.grep(text, maxChars)
    case DedupLogFilter => DedupLog(text)
    case GenericFilter => if |text| > maxChars then Generic(text, maxChars) else text
  }

  predicate Accepts(patterns: Patterns, filter: FilterName, text: string, maxChars: nat) {
    && (|text| <= maxChars ==> filter.DedupLogFilter?)
    && patterns.detect(filter, text[..Min(PROBE, |text|)])
    && |Apply(patterns, filter, text, maxChars)| < |text|
  }

  /** The first candidate that is detected, allowed, and shortens the text. */
  function FirstAccepted(patterns: Patterns, candidates: seq<FilterName>, text: string,
                         maxChars: nat): (chosen: Option<FilterName>)
    ensures chosen.Some? ==> chosen.value in candidates && Accepts(patterns, chosen.value, text, maxChars)
  {
    if candidates == [] then None
    else if Accepts(patterns, candidates[0], text, maxChars) then Some(candidates[0])
    else FirstAccepted(patterns, candidates[1..], text, maxChars)
  }

  datatype Outcome = Outcome(text: string, filter: Option<FilterName>)

  function Truncate(patterns: Patterns, text: string, maxChars: nat, smart: bool): Outcome {
    if |text| < MIN_COMPRESSIBLE then Outcome(text, None)
    else
      var chosen := if smart then FirstAccepted(patterns, CANDIDATES, text, maxChars) else None;
      match chosen
      case Some(filter) => Outcome(Apply(patterns, filter, text, maxChars), chosen)
      case None => if |text| <= maxChars then Outcome(text, None)
        else Outcome(Generic(text, maxChars), Some(GenericFilter))
  }

  /** The candidate loop of `smartTruncate`. */
  method SmartTruncate(patterns: Patterns, text: string, maxChars: nat, smart: bool) returns (outcome: Outcome)
    ensures outcome == Truncate(patterns, text, maxChars, smart)
  {
    hide Generic, Apply, Accepts;
    if |text| < MIN_COMPRESSIBLE { return Outcome(text, None); }
    if smart {
      assert CANDIDATES[0..] == CANDIDATES;
      for next := 0 to |CANDIDATES|
        invariant FirstAccepted(patterns, CANDIDATES, text, maxChars)
                  == FirstAccepted(patterns, CANDIDATES[next..], text, maxChars)
      {
        assert CANDIDATES[next..][1..] == CANDIDATES[next + 1..];
        if Accepts(patterns, CANDIDATES[next], text, maxChars) {
          return Outcome(Apply(patterns, CANDIDATES[next], text, maxChars), Some(CANDIDATES[next]));
        }
      }
    }
    if |text| <= maxChars { return Outcome(text, None); }
    return Outcome(Generic(text, maxChars), Some(GenericFilter));
  }

  /** A text is either left exactly as it is or made strictly shorter. */
  lemma TruncateNeverLengthens(patterns: Patterns, text: string, maxChars: nat, smart: bool)
    requires 267 <= maxChars <= 10000
    ensures var outcome := Truncate(patterns, text, maxChars, smart);
            outcome.text == text || |outcome.text| < |text|
    ensures Truncate(patterns, text, maxChars, smart).filter.None? ==>
            Truncate(patterns, text, maxChars, smart).text == text
  {
    hide Apply, Generic;
    if |text| > maxChars { GenericShortens(text, maxChars); }
  }

  /** A text within the limit is never cut: it stays as it is, or it is deduplicated, and
      then reading its notes back restores it whenever none of its lines is a note. */
  lemma WithinLimitOnlyDedup(patterns: Patterns, text: string, maxChars: nat, smart: bool)
    requires |text| <= maxChars
    ensures var outcome := Truncate(patterns, text, maxChars, smart);
            outcome.text == text || outcome == Outcome(DedupLog(text), Some(DedupLogFilter))
    ensures var outcome := Truncate(patterns, text, maxChars, smart);
            NoNotes(Split(text, '\n')) ==>
              text == if outcome.filter.Some? then Join(Expand(Split(outcome.text, '\n'), None), '\n') else outcome.text
  {
    hide DedupLog, Generic, GitDiff, ReadNumbered, Expand, NoNotes, Split, Join;
    if NoNotes(Split(text, '\n')) { DedupLogIsLossless(text); }
  }

  // ------------------------------------------------------------ the request

  datatype Quality = Lite | Balanced | Extreme

  datatype Limits = Limits(maxChars: nat, keepLastTurns: nat)

  function LimitsOf(quality: Quality): Limits {
    match quality
    case Lite => Limits(8000, 3)
    case Balanced => Limits(4000, 2)
    case Extreme => Limits(2000, 1)
  }

  datatype SaverConfig = SaverConfig(enabled: bool, quality: Quality, smartTruncate: bool)

  datatype Block = ToolResult(text: Option<string>, rest: nat) | OtherBlock(rest: nat)

  datatype Message = Message(role: string, content: seq<Block>, rest: nat)

  datatype Request = Request(messages: seq<Message>, rest: nat)

  function SaveBlock(patterns: Patterns, block: Block, maxChars: nat, smart: bool): Block {
    if block.ToolResult? && block.text.Some? then
      block.(text := Some(Truncate(patterns, block.text.value, maxChars, smart).text))
    else block
  }

  function SaveContent(patterns: Patterns, content: seq<Block>, maxChars: nat, smart: bool): (saved: seq<Block>)
    ensures |saved| == |content|
  {
    seq(|content|, j requires 0 <= j < |content| => SaveBlock(patterns, content[j], maxChars, smart))
  }

  function Cutoff(messages: nat, keepLastTurns: nat): nat {
    Max(0, messages - keepLastTurns * 2)
  }

  function ApplyTokenSaver(patterns: Patterns, request: Request, config: SaverConfig): Request {
    if !config.enabled || request.messages == [] then request
    else
      var limits := LimitsOf(config.quality);
      var cutoff := Cutoff(|request.messages|, limits.keepLastTurns);
      var messages := request.messages;
      request.(messages := seq(|messages|, i requires 0 <= i < |messages| =>
        if i >= cutoff then messages[i]
        else messages[i].(content := SaveContent(patterns, messages[i].content, limits.maxChars,
          config.smartTruncate))))
  }

  /** A tool result is as before or strictly shorter; any other block is as before. */
  ghost predicate SavedFrom(before: Block, after: Block) {
    || after == before
    || (before.ToolResult? && before.text.Some? && after.ToolResult? && after.text.Some?
        && after.rest == before.rest && |after.text.value| < |before.text.value|)
  }

  /** The token saver keeps the number, roles and order of messages and blocks, touches
      nothing but the text of tool results, never lengthens one and strictly shortens any it
      changes, and leaves the last `2 * keepLastTurns` messages and a disabled request as
      they are. */
  lemma TokenSaverFrame(patterns: Patterns, request: Request, config: SaverConfig)
    ensures var after := ApplyTokenSaver(patterns, request, config);
            && after.rest == request.rest
            && |after.messages| == |request.messages|
            && (!config.enabled ==> after == request)
            && forall i :: 0 <= i < |request.messages| ==>
                 && after.messages[i].role == request.messages[i].role
                   && after.messages[i].rest == request.messages[i].rest
                 && |after.messages[i].content| == |request.messages[i].content|
                 && (i >= |request.messages| - 2 * LimitsOf(config.quality).keepLastTurns ==>
                   after.messages[i] == request.messages[i])
                 && forall j :: 0 <= j < |request.messages[i].content| ==>
                      SavedFrom(request.messages[i].content[j], after.messages[i].content[j])
  {
    forall i, j | 0 <= i < |request.messages| && 0 <= j < |request.messages[i].content|
      ensures SavedFrom(request.messages[i].content[j],
                        SaveBlock(patterns, request.messages[i].content[j], LimitsOf(config.quality).maxChars,
                            config.smartTruncate))
    {
      BlockIsSaved(patterns, request.messages[i].content[j], LimitsOf(config.quality).maxChars, config.smartTruncate);
    }
    hide SaveBlock, SavedFrom;
  }

  lemma BlockIsSaved(patterns: Patterns, block: Block, maxChars: nat, smart: bool)
    requires 267 <= maxChars <= 10000
    ensures SavedFrom(block, SaveBlock(patterns, block, maxChars, smart))
  {
    if block.ToolResult? && block.text.Some? {
      TruncateNeverLengthens(patterns, block.text.value, maxChars, smart);
      hide Truncate;
    }
  }
}
