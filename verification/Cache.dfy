/** Prefix planning for prompt caching (src/domain/cache.ts): sections of a request, the
    plan built from them, and its application. Whether a text looks stable (timestamps,
    UUIDs, key blocks) is a parameter. */
module Cache {
  import opened Common
  import opened Text
  import opened Digest

  datatype Role = System | Developer | User | Assistant | Tool

  datatype Block = Block(isText: bool, text: Option<Str>, ephemeral: bool, rest: nat)

  datatype Message = Message(role: Role, content: seq<Block>, rest: nat)

  /** `tools` is the serialised tool list, present when the list is not empty. */
  datatype Request = Request(messages: seq<Message>, tools: Option<Str>, toolsLength: nat, cacheKey: Option<Str>,
    rest: nat)

  datatype Kind = SystemSection | DeveloperSection | ToolsSection | StaticContext | StableHistory | Dynamic

  datatype Position = Position(message: nat, block: nat)

  datatype Section = Section(kind: Kind, at: Option<Position>, stable: bool, charLength: nat)

  type Stability = Str -> bool

  function SectionKind(role: Role, sawAssistant: bool): Kind {
    match role
    case System => SystemSection
    case Developer => DeveloperSection
    case User => if sawAssistant then StableHistory else StaticContext
    case Assistant => StableHistory
    case Tool => Dynamic
  }

  predicate StableBlock(role: Role, block: Block, looksStable: Stability) {
    role != Tool && block.isText && block.text.Some? && looksStable(block.text.value)
  }

  function TextLength(block: Block): nat {
    match block.text case Some(text) => |text| case None => 0
  }

  function BlockSection(message: Message, i: nat, j: nat, sawAssistant: bool, looksStable: Stability): Section
    requires j < |message.content|
  {
    Section(SectionKind(message.role, sawAssistant), Some(Position(i, j)),
            StableBlock(message.role, message.content[j], looksStable), TextLength(message.content[j]))
  }

  function MessageSections(message: Message, i: nat, sawAssistant: bool, looksStable: Stability,
                           count: nat): (sections: seq<Section>)
    requires count <= |message.content|
    ensures |sections| == count
  {
    if count == 0 then []
    else
      MessageSections(message, i, sawAssistant, looksStable, count - 1)
      + [BlockSection(message, i, count - 1, sawAssistant, looksStable)]
  }

  predicate SawAssistant(messages: seq<Message>) {
    exists i :: 0 <= i < |messages| && messages[i].role == Assistant
  }

  /** The sections of all blocks, in order. */
  function BlockSections(messages: seq<Message>, looksStable: Stability): seq<Section> {
    if messages == [] then []
    else
      var last := messages[|messages| - 1];
      BlockSections(messages[..|messages| - 1], looksStable)
      + MessageSections(last, |messages| - 1, SawAssistant(messages), looksStable, |last.content|)
  }

  function InsertionIndex(sections: seq<Section>): (index: nat)
    ensures index <= |sections|
  {
    if sections == [] then 0
    else if sections[0].kind.SystemSection? || sections[0].kind.DeveloperSection? then 1 + InsertionIndex(sections[1..])
    else 0
  }

  function ToolsSectionOf(request: Request): Section {
    Section(ToolsSection, None, true, request.toolsLength)
  }

  function Marked(request: Request, looksStable: Stability): seq<Section> {
    var sections := BlockSections(request.messages, looksStable);
    if request.tools.None? then sections
    else
      var at := InsertionIndex(sections);
      sections[..at] + [ToolsSectionOf(request)] + sections[at..]
  }

  /** The nested loops of `markCacheSections`. */
  method MarkCacheSections(request: Request, looksStable: Stability) returns (sections: seq<Section>)
    ensures sections == Marked(request, looksStable)
  {
    var messages := request.messages;
    var sawAssistant := false;
    sections := [];
    for i := 0 to |messages|
      invariant sawAssistant == SawAssistant(messages[..i])
      invariant sections == BlockSections(messages[..i], looksStable)
    {
      var message := messages[i];
      assert messages[..i + 1][..i] == messages[..i];
      if message.role == Assistant {
        sawAssistant := true;
        assert messages[..i + 1][i].role == Assistant;
      }
      assert forall k :: 0 <= k < i ==> messages[..i + 1][k] == messages[..i][k];
      assert sawAssistant == SawAssistant(messages[..i + 1]);
      hide SawAssistant;
      ghost var before := sections;
      assert before + [] == before;
      for j := 0 to |message.content|
        invariant sections == before + MessageSections(message, i, sawAssistant, looksStable, j)
      {
        sections := sections + [BlockSection(message, i, j, sawAssistant, looksStable)];
      }
    }
    assert messages[..|messages|] == messages;
    if request.tools.Some? {
      var at := CountInstructions(sections);
      sections := sections[..at] + [ToolsSectionOf(request)] + sections[at..];
    }
  }

  /** The loop of `insertionIndex`. */
  method CountInstructions(sections: seq<Section>) returns (index: nat)
    ensures index == InsertionIndex(sections)
  {
    index := 0;
    while index < |sections| && (sections[index].kind.SystemSection? || sections[index].kind.DeveloperSection?)
      invariant index <= |sections|
      invariant InsertionIndex(sections) == index + InsertionIndex(sections[index..])
    {
      assert sections[index..][1..] == sections[index + 1..];
      index := index + 1;
    }
  }

  // ------------------------------------------------------------ the plan

  predicate Cacheable(section: Section) {
    section.stable && !section.kind.Dynamic? && !section.kind.ToolsSection?
  }

  /** The maximal leading run of stable cacheable blocks. */
  function LeadingRun(sections: seq<Section>): (run: seq<Section>)
    ensures run <= sections
    ensures forall i :: 0 <= i < |run| ==> Cacheable(run[i])
    ensures |run| < |sections| ==> !Cacheable(sections[|run|])
  {
    if sections == [] || !Cacheable(sections[0]) then [] else [sections[0]] + LeadingRun(sections[1..])
  }

  predicate Placed(section: Section, messages: seq<Message>) {
    section.at.Some? && section.at.value.message < |messages|
        && section.at.value.block < |messages[section.at.value.message].content|
  }

  function BlockAt(section: Section, messages: seq<Message>): Block
    requires Placed(section, messages)
  {
    messages[section.at.value.message].content[section.at.value.block]
  }

  function TextsOf(run: seq<Section>, messages: seq<Message>): (texts: seq<Str>)
    ensures |texts| == |run|
  {
    seq(|run|, k requires 0 <= k < |run| =>
      if Placed(run[k], messages) then BlockAt(run[k], messages).text.GetOr([]) else [])
  }

  datatype Plan = Plan(sections: seq<Section>, end: Option<Position>, fingerprint: Option<Str>)

  function Fingerprint(texts: seq<Str>, tools: Option<Str>): Str {
    Hex16(Fnv64(FNV64_OFFSET, Join(texts + (if tools.Some? then [tools.value] else []), 0)))
  }

  function PlanOf(request: Request, looksStable: Stability): Plan {
    var run := LeadingRun(BlockSections(request.messages, looksStable));
    if run == [] then Plan(Marked(request, looksStable), None, None)
    else Plan(Marked(request, looksStable), run[|run| - 1].at,
      Some(Fingerprint(TextsOf(run, request.messages), request.tools)))
  }

  function WithoutTools(sections: seq<Section>): seq<Section> {
    if sections == [] then []
    else
      var init := WithoutTools(sections[..|sections| - 1]);
      var last := sections[|sections| - 1];
      if last.kind.ToolsSection? then init else init + [last]
  }

  lemma {:induction false} WithoutToolsJoin(a: seq<Section>, b: seq<Section>)
    ensures WithoutTools(a + b) == WithoutTools(a) + WithoutTools(b)
  {
    if b == [] {
      assert a + b == a;
      assert WithoutTools(a) + [] == WithoutTools(a);
    } else {
      assert (a + b)[..|a + b| - 1] == a + b[..|b| - 1];
      WithoutToolsJoin(a, b[..|b| - 1]);
    }
  }

  lemma {:induction false} NoToolsToDrop(sections: seq<Section>)
    requires forall i :: 0 <= i < |sections| ==> !sections[i].kind.ToolsSection?
    ensures WithoutTools(sections) == sections
  {
    if sections != [] { NoToolsToDrop(sections[..|sections| - 1]); }
  }

  /** Wherever the tools section is put, skipping it leaves the block sections. */
  lemma ToolsPositionIsIrrelevant(sections: seq<Section>, tools: Section, at: nat)
    requires at <= |sections| && tools.kind.ToolsSection?
    requires forall i :: 0 <= i < |sections| ==> !sections[i].kind.ToolsSection?
    ensures WithoutTools(sections[..at] + [tools] + sections[at..]) == sections
  {
    WithoutToolsJoin(sections[..at] + [tools], sections[at..]);
    WithoutToolsJoin(sections[..at], [tools]);
    NoToolsToDrop(sections[..at]);
    NoToolsToDrop(sections[at..]);
    assert [tools][..0] == [];
    assert sections[..at] + [] + sections[at..] == sections;
  }

  lemma {:induction false} MessageSectionAt(message: Message, i: nat, saw: bool, looksStable: Stability, count: nat,
                                            j: nat)
    requires j < count <= |message.content|
    ensures MessageSections(message, i, saw, looksStable, count)[j] == BlockSection(message, i, j, saw, looksStable)
  {
    if j < count - 1 { MessageSectionAt(message, i, saw, looksStable, count - 1, j); }
  }

  ghost predicate Describes(section: Section, messages: seq<Message>, looksStable: Stability) {
    && Placed(section, messages)
    && !section.kind.ToolsSection?
    && section.stable == StableBlock(messages[section.at.value.message].role, BlockAt(section, messages), looksStable)
    && (section.kind.Dynamic? <==> messages[section.at.value.message].role == Tool)
  }

  predicate Precedes(a: Position, b: Position) {
    a.message < b.message || (a.message == b.message && a.block < b.block)
  }

  ghost predicate Lists(s: seq<Section>, messages: seq<Message>, looksStable: Stability) {
    && (forall k :: 0 <= k < |s| ==> Describes(s[k], messages, looksStable))
    && (forall k, l :: 0 <= k < l < |s| ==> Precedes(s[k].at.value, s[l].at.value))
  }

  /** The block sections list every block of the request once, in reading order, each with
      its own stability. */
  lemma {:induction false} SectionsListBlocks(messages: seq<Message>, looksStable: Stability)
    ensures Lists(BlockSections(messages, looksStable), messages, looksStable)
  {
    if messages != [] {
      var n := |messages| - 1;
      var init, last := messages[..n], messages[n];
      SectionsListBlocks(init, looksStable);
      var a := BlockSections(init, looksStable);
      var b := MessageSections(last, n, SawAssistant(messages), looksStable, |last.content|);
      forall j | 0 <= j < |b|
        ensures b[j] == BlockSection(last, n, j, SawAssistant(messages), looksStable)
      {
        MessageSectionAt(last, n, SawAssistant(messages), looksStable, |last.content|, j);
      }
      forall k | 0 <= k < |a|
        ensures Describes(a[k], messages, looksStable) && a[k].at.value.message < n
      {
        assert Describes(a[k], init, looksStable);
        assert init[a[k].at.value.message] == messages[a[k].at.value.message];
      }
    }
  }

  lemma {:induction false} EveryBlockIsListed(messages: seq<Message>, looksStable: Stability, i: nat, j: nat)
    requires i < |messages| && j < |messages[i].content|
    ensures exists k ::
              && 0 <= k < |BlockSections(messages, looksStable)|
              && BlockSections(messages, looksStable)[k].at == Some(Position(i, j))
  {
    var n := |messages| - 1;
    var init, last := messages[..n], messages[n];
    var a := BlockSections(init, looksStable);
    var b := MessageSections(last, n, SawAssistant(messages), looksStable, |last.content|);
    var all := BlockSections(messages, looksStable);
    assert all == a + b;
    if i < n {
      assert init[i] == messages[i];
      EveryBlockIsListed(init, looksStable, i, j);
      var k :| 0 <= k < |a| && a[k].at == Some(Position(i, j));
      assert all[k].at == Some(Position(i, j));
    } else {
      MessageSectionAt(last, n, SawAssistant(messages), looksStable, |last.content|, j);
      assert all[|a| + j].at == Some(Position(i, j));
    }
  }

  /** The prefix loop of `buildCachePlan` over the sections as marked. */
  method ScanPrefix(sections: seq<Section>, messages: seq<Message>) returns (end: Option<Position>, texts: seq<Str>)
    ensures var run := LeadingRun(WithoutTools(sections));
            && texts == TextsOf(run, messages)
            && end == if run == [] then None else run[|run| - 1].at
  {
    end, texts := None, [];
    var inPrefix := true;
    ghost var run: seq<Section> := [];
    hide Cacheable, Placed, BlockAt;
    for next := 0 to |sections|
      invariant run == LeadingRun(WithoutTools(sections[..next]))
      invariant inPrefix <==> run == WithoutTools(sections[..next])
      invariant texts == TextsOf(run, messages)
      invariant end == if run == [] then None else run[|run| - 1].at
    {
      var section := sections[next];
      ghost var seen := WithoutTools(sections[..next]);
      assert sections[..next + 1][..next] == sections[..next];
      if !section.kind.ToolsSection? {
        RunGrows(seen, section);
        if inPrefix {
          if Cacheable(section) {
            end := section.at;
            texts := texts + [if Placed(section, messages) then BlockAt(section, messages).text.GetOr([]) else []];
            run := run + [section];
          } else {
            inPrefix := false;
          }
        }
      }
    }
    assert sections[..|sections|] == sections;
  }

  lemma {:induction false} RunGrows(seen: seq<Section>, section: Section)
    ensures LeadingRun(seen + [section])
            == if LeadingRun(seen) == seen && Cacheable(section) then seen + [section] else LeadingRun(seen)
    ensures seen + [section] != LeadingRun(seen)
  {
    if seen != [] {
      RunGrows(seen[1..], section);
      assert (seen + [section])[1..] == seen[1..] + [section];
      assert seen == [seen[0]] + seen[1..];
    }
  }

  method BuildCachePlan(request: Request, looksStable: Stability) returns (plan: Plan)
    ensures plan == PlanOf(request, looksStable)
  {
    var sections := MarkCacheSections(request, looksStable);
    var end, texts := ScanPrefix(sections, request.messages);
    SkippingTools(request, looksStable);
    if end.None? {
      SectionsListBlocks(request.messages, looksStable);
      return Plan(sections, None, None);
    }
    if request.tools.Some? { texts := texts + [request.tools.value]; } else { assert texts + [] == texts; }
    var digest := Fnv1a64(Join(texts, 0));
    return Plan(sections, end, Some(digest));
  }

  lemma SkippingTools(request: Request, looksStable: Stability)
    ensures WithoutTools(Marked(request, looksStable)) == BlockSections(request.messages, looksStable)
  {
    var sections := BlockSections(request.messages, looksStable);
    SectionsListBlocks(request.messages, looksStable);
    NoToolsToDrop(sections);
    if request.tools.Some? { ToolsPositionIsIrrelevant(sections, ToolsSectionOf(request), InsertionIndex(sections)); }
  }

  // ------------------------------------------------------------ what the plan means

  ghost predicate StableAt(messages: seq<Message>, looksStable: Stability, p: Position) {
    && p.message < |messages| && p.block < |messages[p.message].content| && messages[p.message].role != Tool
    && var block := messages[p.message].content[p.block];
      block.isText && block.text.Some? && looksStable(block.text.value)
  }

  predicate Exists(messages: seq<Message>, p: Position) {
    p.message < |messages| && p.block < |messages[p.message].content|
  }

  lemma SectionOf(messages: seq<Message>, looksStable: Stability, p: Position) returns (k: nat)
    requires Exists(messages, p)
    ensures var s := BlockSections(messages, looksStable);
            k < |s| && s[k].at == Some(p) && (Cacheable(s[k]) <==> StableAt(messages, looksStable, p))
  {
    EveryBlockIsListed(messages, looksStable, p.message, p.block);
    SectionsListBlocks(messages, looksStable);
    var s := BlockSections(messages, looksStable);
    k :| 0 <= k < |s| && s[k].at == Some(p);
    assert Describes(s[k], messages, looksStable);
  }

  /** The plan ends at a stable block and every block before it is stable too. */
  lemma PlanCoversStablePrefix(request: Request, looksStable: Stability)
    requires PlanOf(request, looksStable).end.Some?
    ensures var end := PlanOf(request, looksStable).end.value;
            && StableAt(request.messages, looksStable, end)
            && forall p :: Exists(request.messages, p) && Precedes(p, end) ==>
              StableAt(request.messages, looksStable, p)
  {
    var messages := request.messages;
    var s := BlockSections(messages, looksStable);
    var run := LeadingRun(s);
    SectionsListBlocks(messages, looksStable);
    hide BlockSections, StableBlock, StableAt, Marked, Fingerprint;
    var end := PlanOf(request, looksStable).end.value;
    assert s[|run| - 1] == run[|run| - 1] && Describes(s[|run| - 1], messages, looksStable);
    var last := SectionPlace(s, messages, looksStable, |run| - 1);
    forall p | Exists(messages, p) && Precedes(p, end)
      ensures StableAt(messages, looksStable, p)
    {
      var k := SectionOf(messages, looksStable, p);
      assert k < |run|;
      assert s[k] == run[k];
    }
  }

  lemma NoneFollowsTheLast(s: seq<Section>, messages: seq<Message>, looksStable: Stability, n: nat, k: nat)
    requires Lists(s, messages, looksStable) && k < n <= |s|
    ensures !Precedes(s[n - 1].at.value, s[k].at.value)
  {
    if k < n - 1 { assert Precedes(s[k].at.value, s[n - 1].at.value); }
  }

  ghost predicate Blocks(messages: seq<Message>, looksStable: Stability, end: Option<Position>, q: Position) {
    Exists(messages, q) && !StableAt(messages, looksStable, q) && (end.Some? ==> Precedes(end.value, q))
  }

  /** The plan is maximal: a block after its end (any block, when there is no plan) is, or
      comes after, a block that is not stable and stands after the end. */
  lemma PlanIsMaximal(request: Request, looksStable: Stability, p: Position) returns (q: Position)
    requires Exists(request.messages, p)
    requires var end := PlanOf(request, looksStable).end; end.Some? ==> Precedes(end.value, p)
    ensures Blocks(request.messages, looksStable, PlanOf(request, looksStable).end, q) && (q == p || Precedes(q, p))
  {
    var messages := request.messages;
    var s := BlockSections(messages, looksStable);
    var n := |LeadingRun(s)|;
    SectionsListBlocks(messages, looksStable);
    hide BlockSections, StableBlock, Precedes, LeadingRun, Lists, Exists, StableAt, Cacheable, Marked, Fingerprint;
    var k := SectionOf(messages, looksStable, p);
    if n > 0 {
      assert LeadingRun(s)[n - 1] == s[n - 1];
      var end := SectionPlace(s, messages, looksStable, n - 1);
    }
    if k < n { NoneFollowsTheLast(s, messages, looksStable, n, k); }
    q := SectionPlace(s, messages, looksStable, n);
    if n < k { InOrder(s, messages, looksStable, n, k); }
    if n > 0 { InOrder(s, messages, looksStable, n - 1, n); }
  }

  lemma SectionPlace(s: seq<Section>, messages: seq<Message>, looksStable: Stability, k: nat) returns (p: Position)
    requires Lists(s, messages, looksStable) && k < |s|
    ensures s[k].at == Some(p) && Exists(messages, p) && (Cacheable(s[k]) <==> StableAt(messages, looksStable, p))
  {
    assert Describes(s[k], messages, looksStable);
    p := s[k].at.value;
  }

  lemma InOrder(s: seq<Section>, messages: seq<Message>, looksStable: Stability, k: nat, l: nat)
    requires Lists(s, messages, looksStable) && k < l < |s|
    ensures s[k].at.Some? && s[l].at.Some? && Precedes(s[k].at.value, s[l].at.value)
  {
    assert Describes(s[k], messages, looksStable) && Describes(s[l], messages, looksStable);
  }

  // ------------------------------------------------------------ applying the plan

  function Flagged(block: Block): Block {
    block.(ephemeral := true)
  }

  function ApplyCachePlan(request: Request, plan: Plan): Request {
    if plan.fingerprint.None? then request
    else if plan.end.None? || !Exists(request.messages, plan.end.value) then request.(cacheKey := plan.fingerprint)
    else
      var p := plan.end.value;
      var message := request.messages[p.message];
      var content := message.content[p.block := Flagged(message.content[p.block])];
      request.(messages := request.messages[p.message := message.(content := content)], cacheKey := plan.fingerprint)
  }

  ghost predicate SameBlocks(a: seq<Message>, b: seq<Message>) {
    && |a| == |b|
    && forall i :: 0 <= i < |a| ==>
         && a[i].role == b[i].role && |a[i].content| == |b[i].content|
         && forall j :: 0 <= j < |a[i].content| ==>
              a[i].content[j].(ephemeral := false) == b[i].content[j].(ephemeral := false)
  }

  ghost predicate OnlyFlagDiffers(before: seq<Message>, after: seq<Message>, end: Option<Position>) {
    && |after| == |before|
    && forall i :: 0 <= i < |before| ==>
         && after[i].role == before[i].role && after[i].rest == before[i].rest
         && |after[i].content| == |before[i].content|
         && forall j :: 0 <= j < |before[i].content| ==>
              after[i].content[j] == if end == Some(Position(i, j)) then before[i].content[j].(ephemeral := true)
                  else before[i].content[j]
  }

  lemma FlagNone(messages: seq<Message>)
    ensures OnlyFlagDiffers(messages, messages, None)
  {
  }

  lemma FlagOne(messages: seq<Message>, p: Position)
    requires Exists(messages, p)
    ensures var message := messages[p.message];
            var content := message.content[p.block := Flagged(message.content[p.block])];
            OnlyFlagDiffers(messages, messages[p.message := message.(content := content)], Some(p))
  {
  }

  /** Applying the request's own plan sets the cache key and the flag of the one block the
      plan ends at, and changes nothing else; without a plan it changes nothing at all. */
  lemma ApplyChangesOneFlag(request: Request, looksStable: Stability)
    ensures var plan := PlanOf(request, looksStable);
            var applied := ApplyCachePlan(request, plan);
            && applied.tools == request.tools && applied.toolsLength == request.toolsLength
              && applied.rest == request.rest
            && OnlyFlagDiffers(request.messages, applied.messages, plan.end)
            && applied.cacheKey == (if plan.end.Some? then plan.fingerprint else request.cacheKey)
            && (plan.end.Some? <==> plan.fingerprint.Some?)
  {
    var plan := PlanOf(request, looksStable);
    PlanHasBoth(request, looksStable);
    hide OnlyFlagDiffers;
    FlagNone(request.messages);
    if plan.end.Some? {
      PlanCoversStablePrefix(request, looksStable);
      hide PlanOf, Precedes, StableAt;
      FlagOne(request.messages, plan.end.value);
    }
  }

  lemma PlanHasBoth(request: Request, looksStable: Stability)
    ensures PlanOf(request, looksStable).end.Some? <==> PlanOf(request, looksStable).fingerprint.Some?
  {
    var s := BlockSections(request.messages, looksStable);
    var run := LeadingRun(s);
    SectionsListBlocks(request.messages, looksStable);
    if run != [] { assert Describes(s[|run| - 1], request.messages, looksStable); }
  }

  lemma {:induction false} SameMessageSections(a: Message, b: Message, i: nat, saw: bool, looksStable: Stability,
                                               count: nat)
    requires a.role == b.role && |a.content| == |b.content| && count <= |a.content|
    requires forall j :: 0 <= j < |a.content| ==> a.content[j].(ephemeral := false) == b.content[j].(ephemeral := false)
    ensures MessageSections(a, i, saw, looksStable, count) == MessageSections(b, i, saw, looksStable, count)
  {
    if count > 0 {
      SameMessageSections(a, b, i, saw, looksStable, count - 1);
      SameBlock(a.content[count - 1], b.content[count - 1]);
    }
  }

  lemma SameBlock(a: Block, b: Block)
    requires a.(ephemeral := false) == b.(ephemeral := false)
    ensures a.isText == b.isText && a.text == b.text
  {
    assert a.(ephemeral := false).isText == b.(ephemeral := false).isText;
    assert a.(ephemeral := false).text == b.(ephemeral := false).text;
  }

  lemma {:induction false} SameSections(a: seq<Message>, b: seq<Message>, looksStable: Stability)
    requires SameBlocks(a, b)
    ensures BlockSections(a, looksStable) == BlockSections(b, looksStable)
  {
    if a != [] {
      var n := |a| - 1;
      SameSections(a[..n], b[..n], looksStable);
      SameMessageSections(a[n], b[n], n, SawAssistant(a), looksStable, |a[n].content|);
      assert SawAssistant(a) == SawAssistant(b) by {
        if SawAssistant(a) { var i :| 0 <= i < |a| && a[i].role == Assistant; assert b[i].role == Assistant; }
        if SawAssistant(b) { var i :| 0 <= i < |b| && b[i].role == Assistant; assert a[i].role == Assistant; }
      }
    }
  }

  /** Planning does not look at the flags it sets: a request that has its plan applied gets
      the same plan, and so the same key, again. */
  lemma PlanSurvivesApplication(request: Request, looksStable: Stability)
    ensures var plan := PlanOf(request, looksStable);
            PlanOf(ApplyCachePlan(request, plan), looksStable) == plan
  {
    var plan := PlanOf(request, looksStable);
    var applied := ApplyCachePlan(request, plan);
    ApplyChangesOneFlag(request, looksStable);
    FlagsAside(request.messages, applied.messages, plan.end);
    SameSections(applied.messages, request.messages, looksStable);
    var run := LeadingRun(BlockSections(request.messages, looksStable));
    SameTexts(run, request.messages, applied.messages, looksStable);
  }

  lemma FlagsAside(before: seq<Message>, after: seq<Message>, end: Option<Position>)
    requires OnlyFlagDiffers(before, after, end)
    ensures SameBlocks(after, before)
  {
  }

  lemma SameTexts(run: seq<Section>, before: seq<Message>, after: seq<Message>, looksStable: Stability)
    requires SameBlocks(after, before) && run <= BlockSections(before, looksStable)
    ensures TextsOf(run, after) == TextsOf(run, before)
  {
    SectionsListBlocks(before, looksStable);
    forall k | 0 <= k < |run|
      ensures Placed(run[k], after) && Placed(run[k], before)
              && BlockAt(run[k], after).text == BlockAt(run[k], before).text
    {
      assert Describes(BlockSections(before, looksStable)[k], before, looksStable);
      SameBlock(BlockAt(run[k], after), BlockAt(run[k], before));
    }
  }

  /** The key is a function of the prefix texts and the tools: messages added after a block
      that closed the prefix change neither the end of the plan nor the key. */
  lemma {:induction false} LaterMessagesDoNotMatter(request: Request, more: seq<Message>, looksStable: Stability)
    requires var s := BlockSections(request.messages, looksStable); LeadingRun(s) != s
    ensures var longer := request.(messages := request.messages + more);
            PlanOf(longer, looksStable).end == PlanOf(request, looksStable).end
            && PlanOf(longer, looksStable).fingerprint == PlanOf(request, looksStable).fingerprint
  {
    var a, b := request.messages, request.messages + more;
    SectionsExtend(a, more, looksStable);
    var s := BlockSections(a, looksStable);
    var run := LeadingRun(s);
    RunOfPrefix(s, BlockSections(b, looksStable));
    SectionsListBlocks(a, looksStable);
    forall k | 0 <= k < |run|
      ensures Placed(run[k], a) && Placed(run[k], b) && BlockAt(run[k], b) == BlockAt(run[k], a)
    {
      assert Describes(s[k], a, looksStable);
    }
    assert TextsOf(run, b) == TextsOf(run, a);
  }

  lemma {:induction false} SectionsExtend(a: seq<Message>, more: seq<Message>, looksStable: Stability)
    ensures BlockSections(a, looksStable) <= BlockSections(a + more, looksStable)
  {
    if more == [] {
      assert a + more == a;
    } else {
      SectionsExtend(a, more[..|more| - 1], looksStable);
      assert (a + more)[..|a + more| - 1] == a + more[..|more| - 1];
    }
  }

  lemma {:induction false} RunOfPrefix(s: seq<Section>, t: seq<Section>)
    requires s <= t && LeadingRun(s) != s
    ensures LeadingRun(t) == LeadingRun(s)
  {
    if Cacheable(s[0]) {
      assert s == [s[0]] + s[1..];
      RunOfPrefix(s[1..], t[1..]);
    }
  }
}
