/** What `markCacheSections` says about each block and about the tools (src/domain/cache.ts),
    and which texts the plan's key is made from. */
module CacheSections {
  import opened Common
  import opened Text
  import opened Digest
  import opened Cache
  import opened CacheKey

  /** A block is a piece of history once an assistant has spoken, or when one speaks. */
  ghost predicate InHistory(messages: seq<Message>, i: nat) {
    exists j :: 0 <= j <= i && j < |messages| && messages[j].role == Assistant
  }

  ghost predicate RightKind(section: Section, messages: seq<Message>, i: nat)
    requires i < |messages|
  {
    match messages[i].role
    case System => section.kind == SystemSection
    case Developer => section.kind == DeveloperSection
    case Tool => section.kind == Dynamic
    case Assistant => section.kind == StableHistory
    case User => section.kind == if InHistory(messages, i) then StableHistory else StaticContext
  }

  /** The section tells the role, the place in the conversation, the stability and the size of
      its block. */
  ghost predicate Tells(section: Section, messages: seq<Message>, looksStable: Stability) {
    && section.at.Some?
    && var Position(i, j) := section.at.value;
    && i < |messages| && j < |messages[i].content|
    && RightKind(section, messages, i)
    && var block := messages[i].content[j];
    && (section.stable <==>
          messages[i].role != Tool && block.isText && block.text.Some? && looksStable(block.text.value))
    && section.charLength == (if block.text.Some? then |block.text.value| else 0)
  }

  lemma TellsMore(section: Section, messages: seq<Message>, more: seq<Message>, looksStable: Stability)
    requires Tells(section, messages, looksStable) && messages <= more
    ensures Tells(section, more, looksStable)
  {
    var i := section.at.value.message;
    assert messages[i] == more[i];
    if InHistory(more, i) {
      var j :| 0 <= j <= i && j < |more| && more[j].role == Assistant;
      assert messages[j] == more[j];
    }
  }

  lemma OneTells(messages: seq<Message>, j: nat, looksStable: Stability)
    requires messages != [] && j < |messages[|messages| - 1].content|
    ensures var n := |messages| - 1;
            Tells(BlockSection(messages[n], n, j, SawAssistant(messages), looksStable), messages, looksStable)
  {
    assert SawAssistant(messages) == InHistory(messages, |messages| - 1);
  }

  lemma {:induction false} BlocksAreTold(messages: seq<Message>, looksStable: Stability, k: nat)
    requires k < |BlockSections(messages, looksStable)|
    ensures Tells(BlockSections(messages, looksStable)[k], messages, looksStable)
  {
    var n := |messages| - 1;
    var init, last := messages[..n], messages[n];
    var a := BlockSections(init, looksStable);
    var saw := SawAssistant(messages);
    hide SawAssistant, Tells;
    if k < |a| {
      BlocksAreTold(init, looksStable, k);
      TellsMore(a[k], init, messages, looksStable);
    } else {
      MessageSectionAt(last, n, saw, looksStable, |last.content|, k - |a|);
      OneTells(messages, k - |a|, looksStable);
    }
  }

  ghost predicate Instructs(section: Section) {
    section.kind == SystemSection || section.kind == DeveloperSection
  }

  lemma {:induction false} InsertsBehindInstructions(sections: seq<Section>)
    ensures var at := InsertionIndex(sections);
            && (forall k :: 0 <= k < at ==> Instructs(sections[k]))
            && (at < |sections| ==> !Instructs(sections[at]))
  {
    if sections != [] && Instructs(sections[0]) { InsertsBehindInstructions(sections[1..]); }
  }

  ghost predicate ToldInOrder(sections: seq<Section>, messages: seq<Message>, looksStable: Stability) {
    && (forall k :: 0 <= k < |sections| ==> Tells(sections[k], messages, looksStable))
    && (forall k, l :: 0 <= k < l < |sections| ==> Precedes(sections[k].at.value, sections[l].at.value))
    && (forall i, j :: 0 <= i < |messages| && 0 <= j < |messages[i].content| ==>
          Listed(sections, Position(i, j)))
  }

  ghost predicate Listed(sections: seq<Section>, p: Position) {
    exists k :: 0 <= k < |sections| && sections[k].at == Some(p)
  }

  lemma AllAreTold(messages: seq<Message>, looksStable: Stability)
    ensures ToldInOrder(BlockSections(messages, looksStable), messages, looksStable)
  {
    var s := BlockSections(messages, looksStable);
    SectionsListBlocks(messages, looksStable);
    hide BlockSections, Describes, Tells, Precedes, Lists;
    forall k | 0 <= k < |s|
      ensures Tells(s[k], messages, looksStable)
    {
      BlocksAreTold(messages, looksStable, k);
    }
    forall i, j | 0 <= i < |messages| && 0 <= j < |messages[i].content|
      ensures Listed(s, Position(i, j))
    {
      EveryBlockIsListed(messages, looksStable, i, j);
    }
    forall k, l | 0 <= k < l < |s|
      ensures s[k].at.Some? && s[l].at.Some? && Precedes(s[k].at.value, s[l].at.value)
    {
      InOrder(s, messages, looksStable, k, l);
    }
    assert ToldInOrder(s, messages, looksStable);
  }

  lemma MarkedIs(request: Request, looksStable: Stability)
    ensures var told := BlockSections(request.messages, looksStable);
            var tools := if request.tools.Some? then [Section(ToolsSection, None, true, request.toolsLength)] else [];
            Marked(request, looksStable)
            == told[..InsertionIndex(told)] + tools + told[InsertionIndex(told)..]
  {
    var told := BlockSections(request.messages, looksStable);
    var at := InsertionIndex(told);
    hide BlockSections, InsertionIndex;
    assert told[..at] + [] + told[at..] == told;
  }

  /** The marked sections tell of every block once, in reading order, its role, stability and
      size. A request with tools has one section more, stable and with their size, right
      behind the leading system and developer sections. */
  lemma SectionsTellAll(request: Request, looksStable: Stability) returns (at: nat, told: seq<Section>)
    ensures ToldInOrder(told, request.messages, looksStable) && at <= |told|
    ensures Marked(request, looksStable) ==
              told[..at]
              + (if request.tools.Some? then [Section(ToolsSection, None, true, request.toolsLength)] else [])
              + told[at..]
    ensures forall k :: 0 <= k < at ==> Instructs(told[k])
    ensures at < |told| ==> !Instructs(told[at])
  {
    told := BlockSections(request.messages, looksStable);
    at := InsertionIndex(told);
    AllAreTold(request.messages, looksStable);
    InsertsBehindInstructions(told);
    hide ToldInOrder, BlockSections, InsertionIndex, Instructs;
    MarkedIs(request, looksStable);
  }

  /** The key's parts are the texts of all blocks up to the plan's end, in reading order, and
      then the tools. */
  lemma KeyPartsAre(request: Request, looksStable: Stability) returns (places: seq<Position>)
    requires PlanOf(request, looksStable).end.Some?
    ensures forall k, l :: 0 <= k < l < |places| ==> Precedes(places[k], places[l])
    ensures var end := PlanOf(request, looksStable).end.value;
            forall p :: p in places <==> Exists(request.messages, p) && (p == end || Precedes(p, end))
    ensures |KeyParts(request, looksStable)| == |places| + if request.tools.Some? then 1 else 0
    ensures request.tools.Some? ==> KeyParts(request, looksStable)[|places|] == request.tools.value
    ensures forall k :: 0 <= k < |places| ==>
              && Exists(request.messages, places[k])
              && request.messages[places[k].message].content[places[k].block].text
                 == Some(KeyParts(request, looksStable)[k])
  {
    var messages := request.messages;
    var s := BlockSections(messages, looksStable);
    var run := LeadingRun(s);
    SectionsListBlocks(messages, looksStable);
    hide BlockSections, LeadingRun, Marked, Fingerprint;
    assert run <= s && run != [];
    forall k | 0 <= k < |run|
      ensures run[k] == s[k] && Describes(run[k], messages, looksStable) && Cacheable(run[k])
    {
      assert Describes(s[k], messages, looksStable);
    }
    places := seq(|run|, k requires 0 <= k < |run| => run[k].at.value);
    RunIsPrefix(request, looksStable, places);
    RunTexts(run, messages, looksStable);
    assert PlanOf(request, looksStable).end.value == run[|run| - 1].at.value;
  }

  lemma RunTexts(run: seq<Section>, messages: seq<Message>, looksStable: Stability)
    requires forall k :: 0 <= k < |run| ==> Describes(run[k], messages, looksStable) && Cacheable(run[k])
    ensures forall k :: 0 <= k < |run| ==>
              Placed(run[k], messages) && BlockAt(run[k], messages).text == Some(TextsOf(run, messages)[k])
  {
    forall k | 0 <= k < |run|
      ensures Placed(run[k], messages) && BlockAt(run[k], messages).text == Some(TextsOf(run, messages)[k])
    {
      assert Describes(run[k], messages, looksStable) && Cacheable(run[k]);
    }
  }

  lemma EarlierPlace(messages: seq<Message>, looksStable: Stability, n: nat, k: nat)
    requires k < n <= |BlockSections(messages, looksStable)|
    ensures var s := BlockSections(messages, looksStable);
            && s[n - 1].at.Some? && s[k].at.Some? && Exists(messages, s[k].at.value)
            && (s[k].at == s[n - 1].at || Precedes(s[k].at.value, s[n - 1].at.value))
  {
    var s := BlockSections(messages, looksStable);
    SectionsListBlocks(messages, looksStable);
    hide BlockSections, Lists, Exists, Cacheable, StableAt, Precedes;
    var p := SectionPlace(s, messages, looksStable, k);
    var q := SectionPlace(s, messages, looksStable, n - 1);
    if k < n - 1 { InOrder(s, messages, looksStable, k, n - 1); }
  }

  lemma PlaceIsEarlier(messages: seq<Message>, looksStable: Stability, n: nat, p: Position) returns (k: nat)
    requires 0 < n <= |BlockSections(messages, looksStable)| && Exists(messages, p)
    requires var last := BlockSections(messages, looksStable)[n - 1].at;
             last.Some? && (p == last.value || Precedes(p, last.value))
    ensures k < n && BlockSections(messages, looksStable)[k].at == Some(p)
  {
    var s := BlockSections(messages, looksStable);
    SectionsListBlocks(messages, looksStable);
    hide BlockSections, Lists, Exists, Cacheable, StableAt, Precedes;
    k := SectionOf(messages, looksStable, p);
    if k >= n {
      InOrder(s, messages, looksStable, n - 1, k);
      PrecedesOnce(s[n - 1].at.value, p);
    }
  }

  lemma RunIsPrefix(request: Request, looksStable: Stability, places: seq<Position>)
    requires var run := LeadingRun(BlockSections(request.messages, looksStable));
             && run != [] && |places| == |run|
             && forall k :: 0 <= k < |run| ==> run[k].at == Some(places[k])
    ensures var end := places[|places| - 1];
            forall p :: p in places <==> Exists(request.messages, p) && (p == end || Precedes(p, end))
  {
    var messages := request.messages;
    var s := BlockSections(messages, looksStable);
    var n := |LeadingRun(s)|;
    forall k | 0 <= k < n
      ensures s[k].at == Some(places[k])
    {
      assert LeadingRun(s)[k] == s[k];
    }
    hide BlockSections, LeadingRun, Exists, Precedes;
    forall p
      ensures p in places <==> Exists(messages, p) && (p == places[n - 1] || Precedes(p, places[n - 1]))
    {
      if p in places {
        var k :| 0 <= k < n && places[k] == p;
        EarlierPlace(messages, looksStable, n, k);
      }
      if Exists(messages, p) && (p == places[n - 1] || Precedes(p, places[n - 1])) {
        var k := PlaceIsEarlier(messages, looksStable, n, p);
        assert places[k] == p;
      }
    }
  }

  lemma PrecedesOnce(a: Position, b: Position)
    ensures !(Precedes(a, b) && Precedes(b, a)) && !Precedes(a, a)
  {
  }
}
