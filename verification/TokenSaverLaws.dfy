/** What the filters of src/domain/token-saver.ts keep and cut, and which of them is used. */
module TokenSaverLaws {
  import opened Common
  import opened Text
  import opened Decimal
  import opened TokenSaver
  import opened TokenFilters
  import opened TokenPipeline

  /** The count in the note of a cut is one less than the lines of what was cut. */
  lemma {:induction false} NewlinesSplitLines(s: string)
    ensures |Split(s, '\n')| == Newlines(s) + 1
  {
    if s != [] { NewlinesSplitLines(s[1..]); }
  }

  // ------------------------------------------------------------ dedup-log

  /** How a note reads. */
  lemma NoteReads(n: nat)
    requires n > 0
    ensures n == 1 ==> Note(n) == "  … (1 duplicate line)"
    ensures n > 1 ==> Note(n) == "  … (" + Print(n) + " duplicate lines)"
  {
    if n > 1 {
      hide Print;
      assert "lines" + ")" == "lines)" && " duplicate " + "lines)" == " duplicate lines)";
      var a, b := "  … (" + Print(n), " duplicate ";
      assert a + b + "lines" + ")" == a + (b + ("lines" + ")"));
    }
  }

  /** No line comes twice in a row, no note follows a note, and the line after a note is not
      the line before it. */
  ghost predicate Tight(output: seq<string>) {
    && (forall i :: 0 < i < |output| ==> output[i] != output[i - 1] && !(IsNote(output[i]) && IsNote(output[i - 1])))
    && (forall i :: 1 < i < |output| && IsNote(output[i - 1]) ==> output[i] != output[i - 2])
  }

  lemma {:induction false} DedupIsTight(lines: seq<string>, previous: string, duplicates: nat)
    requires NoNotes(lines) && !IsNote(previous)
    ensures Tight([previous] + Dedup(lines, Some(previous), duplicates))
    ensures var rest := Dedup(lines, Some(previous), duplicates);
            rest != [] && !IsNote(rest[0]) ==> rest[0] != previous && duplicates == 0
    decreases |lines|
  {
    if duplicates > 0 { assert IsNote(Note(duplicates)); }
    if lines == [] { return; }
    DedupStep(lines, Some(previous), duplicates);
    if lines[0] == previous {
      DedupIsTight(lines[1..], previous, duplicates + 1);
    } else {
      DedupIsTight(lines[1..], lines[0], 0);
      hide Dedup, IsNote, Note;
      var rest := [lines[0]] + Dedup(lines[1..], Some(lines[0]), 0);
      assert [previous] + (Flush(duplicates) + rest) == ([previous] + Flush(duplicates)) + rest;
      assert !IsNote(lines[0]);
      TightJoin(previous, duplicates, rest);
    }
  }

  lemma TightJoin(previous: string, duplicates: nat, rest: seq<string>)
    requires Tight(rest) && rest != [] && rest[0] != previous && !IsNote(rest[0]) && !IsNote(previous)
    requires duplicates > 0 ==> IsNote(Note(duplicates))
    ensures Tight([previous] + (Flush(duplicates) + rest))
  {
    hide Note, IsNote;
  }

  /** Of a log without lines of note form every run of equal lines comes out as one line,
      with one note when there were more. */
  lemma DedupLeavesNoRepeats(lines: seq<string>)
    requires NoNotes(lines)
    ensures Tight(Dedup(lines, None, 0))
  {
    if lines != [] {
      DedupStep(lines, None, 0);
      DedupIsTight(lines[1..], lines[0], 0);
      var rest := Dedup(lines[1..], Some(lines[0]), 0);
      assert [] + ([lines[0]] + rest) == [lines[0]] + rest;
    }
  }

  // ------------------------------------------------------------ read-numbered

  lemma {:induction false} HeadOverflows(lines: seq<string>, size: nat, maxChars: nat)
    ensures var h := HeadCount(lines, size, maxChars);
            h < |lines| ==> 10 * (size + Size(lines[..h + 1]) - 1) > 6 * maxChars
  {
    var h := HeadCount(lines, size, maxChars);
    if h == 0 {
      if lines != [] { SizeOfOne(lines[0]); assert lines[..1] == [lines[0]]; }
    } else if h < |lines| {
      HeadOverflows(lines[1..], size + |lines[0]| + 1, maxChars);
      assert lines[..h + 1] == [lines[0]] + lines[1..][..h];
    }
  }

  lemma {:induction false} TailOverflows(lines: seq<string>, size: nat, maxChars: nat)
    ensures var t := TailCount(lines, size, maxChars);
            t < |lines| ==> 10 * (size + Size(lines[|lines| - t - 1..]) - 1) > 3 * maxChars
  {
    var n, t := |lines|, TailCount(lines, size, maxChars);
    if t == 0 {
      if lines != [] { SizeOfOne(lines[n - 1]); assert lines[n - 1..] == [lines[n - 1]]; }
    } else if t < n {
      var init, last := lines[..n - 1], lines[n - 1];
      TailOverflows(init, size + |last| + 1, maxChars);
      assert TailCount(init, size + |last| + 1, maxChars) == t - 1;
      hide TailCount, Size;
      SizeOfOne(last);
      SizeJoin(init[n - t - 1..], [last]);
      SuffixEnd(lines, n - t - 1);
    }
  }

  /** The head is the longest run of first lines within 60% of the limit, the tail the longest
      run of last lines within 30%, newlines between them counted. */
  lemma HeadAndTailAreLongest(lines: seq<string>, maxChars: nat)
    ensures var h := HeadCount(lines, 0, maxChars);
            && (h > 0 ==> 10 * (Size(lines[..h]) - 1) <= 6 * maxChars)
            && (h < |lines| ==> 10 * (Size(lines[..h + 1]) - 1) > 6 * maxChars)
    ensures var t := TailCount(lines, 0, maxChars);
            && (t > 0 ==> 10 * (Size(lines[|lines| - t..]) - 1) <= 3 * maxChars)
            && (t < |lines| ==> 10 * (Size(lines[|lines| - t - 1..]) - 1) > 3 * maxChars)
  {
    HeadFits(lines, 0, maxChars);
    HeadOverflows(lines, 0, maxChars);
    TailFits(lines, 0, maxChars);
    TailOverflows(lines, 0, maxChars);
  }

  /** A text within the limit is not touched. */
  lemma WithinLimitIsKept(text: string, maxChars: nat)
    requires |text| <= maxChars
    ensures ReadNumbered(text, maxChars) == text
  {
  }

  // ------------------------------------------------------------ git-diff

  /** A line that begins a hunk or a file. */
  ghost predicate Heads(line: string, isHunk: string -> bool) {
    isHunk(line) || "diff --git " <= line
  }

  /** The lines from `a` to `b` are one hunk. */
  ghost predicate HunkAt(lines: seq<string>, a: nat, b: nat, isHunk: string -> bool) {
    && a < b <= |lines| && isHunk(lines[a])
    && (forall i :: a < i < b ==> !Heads(lines[i], isHunk))
    && (b < |lines| ==> Heads(lines[b], isHunk))
  }

  lemma {:induction false} BodyEndsAt(lines: seq<string>, n: nat, isHunk: string -> bool)
    requires n <= |lines| && (forall i :: 0 <= i < n ==> !Heads(lines[i], isHunk))
    requires n < |lines| ==> Heads(lines[n], isHunk)
    ensures BodyLength(lines, isHunk) == n
  {
    assert n < |lines| ==> Heads(lines[n], isHunk);
    if n > 0 {
      assert !Heads(lines[0], isHunk);
      forall i | 0 <= i < n - 1
        ensures !Heads(lines[1..][i], isHunk)
      {
        assert !Heads(lines[i + 1], isHunk);
      }
      BodyEndsAt(lines[1..], n - 1, isHunk);
    }
  }

  lemma FirstHunk(lines: seq<string>, b: nat, isHunk: string -> bool)
    requires HunkAt(lines, 0, b, isHunk)
    ensures Pieces(lines, isHunk) == ShrinkHunk(lines[..b]) + Pieces(lines[b..], isHunk)
  {
    BodyEndsAt(lines[1..], b - 1, isHunk);
    hide BodyLength, ShrinkHunk;
  }

  lemma FirstHunkEnds(lines: seq<string>, isHunk: string -> bool) returns (b: nat)
    requires lines != [] && isHunk(lines[0])
    ensures HunkAt(lines, 0, b, isHunk)
  {
    b := 1 + BodyLength(lines[1..], isHunk);
    forall i | 0 < i < b
      ensures !Heads(lines[i], isHunk)
    {
      assert lines[i] == lines[1..][i - 1];
    }
  }

  /** The pieces of the first line, or of the hunk it begins, come first, whether or not the
      lines end at a later hunk. */
  lemma FirstComesFirst(lines: seq<string>, a: nat, isHunk: string -> bool) returns (n: nat, first: seq<Piece>)
    requires 0 < a < |lines| && isHunk(lines[a])
    ensures 0 < n <= a
    ensures Pieces(lines, isHunk) == first + Pieces(lines[n..], isHunk)
    ensures Pieces(lines[..a], isHunk) == first + Pieces(lines[..a][n..], isHunk)
  {
    if isHunk(lines[0]) {
      n := FirstHunkEnds(lines, isHunk);
      first := ShrinkHunk(lines[..n]);
      HeadsHunk(lines[a], isHunk);
      hide Pieces, ShrinkHunk, Heads;
      assert n <= a;
      FirstHunk(lines, n, isHunk);
      CutHunk(lines, n, a, isHunk);
      FirstHunk(lines[..a], n, isHunk);
      assert lines[..a][..n] == lines[..n];
    } else {
      n, first := 1, [Kept(lines[0])];
    }
  }

  lemma StartSlices(lines: seq<string>, b: nat)
    requires b <= |lines|
    ensures lines[0..b] == lines[..b] && lines[..0] == []
  {
    assert lines[0..] == lines;
    assert lines[0..b] == lines[..b];
  }

  lemma SlicesBehind(lines: seq<string>, n: nat, a: nat, b: nat)
    requires n <= a <= b <= |lines|
    ensures lines[..a][n..] == lines[n..][..a - n]
    ensures lines[n..][a - n..b - n] == lines[a..b] && lines[n..][b - n..] == lines[b..]
  {
    var left, right := lines[n..][a - n..b - n], lines[a..b];
    assert |left| == |right| && forall k :: 0 <= k < |left| ==> left[k] == right[k];
  }

  /** What stands before, the part from `a` to `b` taken as one hunk and what follows it are
      treated apart. */
  ghost predicate Apart(lines: seq<string>, a: nat, b: nat, isHunk: string -> bool)
    requires a < b <= |lines|
  {
    Pieces(lines, isHunk) == Pieces(lines[..a], isHunk) + (ShrinkHunk(lines[a..b]) + Pieces(lines[b..], isHunk))
  }

  lemma ApartAtStart(lines: seq<string>, b: nat, isHunk: string -> bool)
    requires HunkAt(lines, 0, b, isHunk)
    ensures Apart(lines, 0, b, isHunk)
  {
    assert Pieces([], isHunk) == [];
    FirstHunk(lines, b, isHunk);
    hide Pieces, HunkAt, ShrinkHunk;
    StartSlices(lines, b);
    Reassociate(ShrinkHunk(lines[..b]) + Pieces(lines[b..], isHunk), [], []);
  }

  lemma ApartLater(lines: seq<string>, n: nat, first: seq<Piece>, a: nat, b: nat, isHunk: string -> bool)
    requires 0 < n <= a < b <= |lines| && Apart(lines[n..], a - n, b - n, isHunk)
    requires Pieces(lines, isHunk) == first + Pieces(lines[n..], isHunk)
    requires Pieces(lines[..a], isHunk) == first + Pieces(lines[..a][n..], isHunk)
    ensures Apart(lines, a, b, isHunk)
  {
    hide Pieces, ShrinkHunk;
    SlicesBehind(lines, n, a, b);
    Reassociate(first, Pieces(lines[..a][n..], isHunk), ShrinkHunk(lines[a..b]) + Pieces(lines[b..], isHunk));
    assert Apart(lines, a, b, isHunk);
  }

  /** One step: what begins the lines can be taken off. */
  lemma ApartByStep(lines: seq<string>, a: nat, b: nat, isHunk: string -> bool) returns (n: nat)
    requires HunkAt(lines, a, b, isHunk) && a > 0
    ensures 0 < n <= a < b <= |lines| && HunkAt(lines[n..], a - n, b - n, isHunk)
    ensures Apart(lines[n..], a - n, b - n, isHunk) ==> Apart(lines, a, b, isHunk)
  {
    assert a < b <= |lines| && isHunk(lines[a]);
    var first;
    n, first := FirstComesFirst(lines, a, isHunk);
    ShiftHunk(lines, n, a, b, isHunk);
    hide Apart, HunkAt, Pieces, ShrinkHunk;
    if Apart(lines[n..], a - n, b - n, isHunk) { ApartLater(lines, n, first, a, b, isHunk); }
  }

  lemma {:induction false} HunkIsApart(lines: seq<string>, a: nat, b: nat, isHunk: string -> bool)
    requires HunkAt(lines, a, b, isHunk)
    ensures Apart(lines, a, b, isHunk)
    decreases a
  {
    hide *;
    if a == 0 {
      ApartAtStart(lines, b, isHunk);
    } else {
      var n := ApartByStep(lines, a, b, isHunk);
      HunkIsApart(lines[n..], a - n, b - n, isHunk);
    }
  }

  lemma HeadsHunk(line: string, isHunk: string -> bool)
    requires isHunk(line)
    ensures Heads(line, isHunk)
  {
  }

  lemma CutHunk(lines: seq<string>, n: nat, a: nat, isHunk: string -> bool)
    requires HunkAt(lines, 0, n, isHunk) && n <= a <= |lines|
    ensures HunkAt(lines[..a], 0, n, isHunk)
  {
    hide Heads;
  }

  lemma ShiftHunk(lines: seq<string>, n: nat, a: nat, b: nat, isHunk: string -> bool)
    requires HunkAt(lines, a, b, isHunk) && n <= a
    ensures HunkAt(lines[n..], a - n, b - n, isHunk)
  {
    hide Heads;
    assert forall i :: a - n < i < b - n ==> lines[n..][i] == lines[i + n];
  }

  /** Every hunk of more than eleven lines keeps its header, its first five and its last five
      lines, with the number of the others between them; a shorter one is kept whole, and so
      is everything outside hunks. */
  lemma HunksKeepTheirEnds(lines: seq<string>, a: nat, b: nat, isHunk: string -> bool)
    requires HunkAt(lines, a, b, isHunk)
    ensures Pieces(lines, isHunk)
            == Pieces(lines[..a], isHunk)
             + ((if b - a <= 11 then Keeping(lines[a..b])
                 else Keeping(lines[a..a + 6]) + [Elided(b - a - 11)] + Keeping(lines[b - 5..b]))
                + Pieces(lines[b..], isHunk))
  {
    HunkIsApart(lines, a, b, isHunk);
    hide Pieces, Heads;
    var hunk := lines[a..b];
    KeepingAll(hunk);
    if |hunk| > 11 {
      KeepingAll(hunk[..6]);
      KeepingAll(hunk[|hunk| - 5..]);
      assert hunk[..6] == lines[a..a + 6] && hunk[|hunk| - 5..] == lines[b - 5..b];
    }
  }

  function Keeping(lines: seq<string>): seq<Piece> {
    if lines == [] then [] else [Kept(lines[0])] + Keeping(lines[1..])
  }

  lemma {:induction false} KeepingAll(lines: seq<string>)
    ensures KeepAll(lines) == Keeping(lines)
  {
    if lines != [] {
      KeepingAll(lines[1..]);
      assert KeepAll(lines) == [Kept(lines[0])] + KeepAll(lines[1..]);
    }
  }

  lemma {:induction false} NoHunksKeepAll(lines: seq<string>, isHunk: string -> bool)
    requires forall i :: 0 <= i < |lines| ==> !isHunk(lines[i])
    ensures Pieces(lines, isHunk) == Keeping(lines)
  {
    if lines != [] { NoHunksKeepAll(lines[1..], isHunk); }
  }

  lemma {:induction false} SizeDrop(lines: seq<string>, count: nat)
    requires count <= |lines|
    ensures Size(lines) >= count + Size(lines[count..])
  {
    if count > 0 {
      SizeDrop(lines[1..], count - 1);
      assert lines[1..][count - 1..] == lines[count..];
    } else {
      assert lines[0..] == lines;
    }
  }

  lemma HunkNoteLength(count: nat)
    requires count < Pow10(21)
    ensures |RenderPiece(Elided(count))| <= 50
  {
    assert |"…["| == 2 && |" hunk lines elided]…"| == 20;
    PrintLength(count, 21);
  }

  lemma {:induction false} RenderSize(pieces: seq<Piece>, lines: seq<string>, isHunk: string -> bool)
    requires Follows(pieces, lines, isHunk) && |lines| < Pow10(21)
    ensures Size(Render(pieces)) <= 60 * Size(lines)
  {
    if pieces == [] { return; }
    var rest := Render(pieces[1..]);
    assert Render(pieces) == [RenderPiece(pieces[0])] + rest;
    assert ([RenderPiece(pieces[0])] + rest)[1..] == rest;
    match pieces[0] {
      case Kept(line) => RenderSize(pieces[1..], lines[1..], isHunk);
      case Elided(count) =>
        RenderSize(pieces[1..], lines[count..], isHunk);
        HunkNoteLength(count);
        hide RenderPiece, Follows, StartsFile;
        SizeDrop(lines, count);
    }
  }

  /** What `gitDiff` makes of a text fits the limit, whatever the diff; when its hunks alone
      make it fit, no more is cut. */
  lemma GitDiffFits(text: string, maxChars: nat, isHunk: string -> bool)
    requires 267 <= maxChars && |text| + 1 < Pow10(21)
    ensures |GitDiff(text, maxChars, isHunk)| <= maxChars
    ensures var shrunk := Join(Render(Pieces(Split(text, '\n'), isHunk)), '\n');
            |shrunk| <= maxChars ==> GitDiff(text, maxChars, isHunk) == shrunk
  {
    var lines := Split(text, '\n');
    var pieces := Pieces(lines, isHunk);
    var shrunk := Join(Render(pieces), '\n');
    GitDiffFollows(lines, isHunk);
    LineCount(text);
    RenderSize(pieces, lines, isHunk);
    JoinSplit(text, '\n');
    JoinLength(lines);
    if pieces != [] { JoinLength(Render(pieces)); }
    assert Pow10(23) == 100 * Pow10(21);
    hide Size, Split, Join, Pieces, Render, Follows, Generic, Pow10;
    assert |shrunk| < Pow10(23);
    if |shrunk| > maxChars { GenericFits(shrunk, maxChars); }
  }

  // ------------------------------------------------------------ which filter, and what it leaves

  const ORDER: seq<FilterName> :=
    [GitDiffFilter, GitStatusFilter, TreeFilter, ReadNumberedFilter, GrepFilter, DedupLogFilter]

  /** What the filter makes of the text. */
  ghost predicate Makes(patterns: Patterns, filter: FilterName, text: string, maxChars: nat, result: string) {
    && (filter == GitDiffFilter ==> result == GitDiff(text, maxChars, patterns.isHunk))
    && (filter == GitStatusFilter ==> result == patterns.gitStatus(text))
    && (filter == TreeFilter ==> result == patterns.tree(text, maxChars))
    && (filter == ReadNumberedFilter ==> result == ReadNumbered(text, maxChars))
    && (filter == GrepFilter ==> result == patterns.grep(text, maxChars))
    && (filter == DedupLogFilter ==> result == DedupLog(text))
    && (filter == GenericFilter ==> |text| > maxChars && result == Generic(text, maxChars))
  }

  /** The filter recognises the first 1024 characters, is lossless or the text is over the
      limit, and makes the text shorter. */
  ghost predicate Suits(patterns: Patterns, filter: FilterName, text: string, maxChars: nat) {
    && patterns.detect(filter, if |text| <= 1024 then text else text[..1024])
    && (|text| > maxChars || filter == DedupLogFilter)
    && exists result :: Makes(patterns, filter, text, maxChars, result) && |result| < |text|
  }

  lemma SuitsIs(patterns: Patterns, filter: FilterName, text: string, maxChars: nat)
    requires filter != GenericFilter
    ensures Suits(patterns, filter, text, maxChars) <==> Accepts(patterns, filter, text, maxChars)
    ensures Makes(patterns, filter, text, maxChars, Apply(patterns, filter, text, maxChars))
  {
    hide GitDiff, ReadNumbered, DedupLog, Generic;
    assert |text| <= 1024 ==> text[..|text|] == text;
    assert Makes(patterns, filter, text, maxChars, Apply(patterns, filter, text, maxChars));
  }

  lemma {:induction false} FirstOfOrder(patterns: Patterns, candidates: seq<FilterName>, text: string, maxChars: nat)
      returns (k: nat)
    requires GenericFilter !in candidates
    ensures k <= |candidates| && forall l :: 0 <= l < k ==> !Suits(patterns, candidates[l], text, maxChars)
    ensures FirstAccepted(patterns, candidates, text, maxChars)
            == if k < |candidates| then Some(candidates[k]) else None
    ensures k < |candidates| ==> Suits(patterns, candidates[k], text, maxChars)
  {
    hide Suits, Accepts;
    k := 0;
    if candidates != [] {
      SuitsIs(patterns, candidates[0], text, maxChars);
      if !Accepts(patterns, candidates[0], text, maxChars) {
        var rest := FirstOfOrder(patterns, candidates[1..], text, maxChars);
        k := rest + 1;
      }
    }
  }

  lemma GenericMakes(patterns: Patterns, text: string, maxChars: nat)
    ensures |text| > maxChars ==> Makes(patterns, GenericFilter, text, maxChars, Generic(text, maxChars))
  {
    hide Generic, GitDiff, ReadNumbered, DedupLog;
  }

  /** A text shorter than 500 characters is left alone. Any other goes to the first filter of
      the order that suits it, when the saver is to be smart; what none suits is cut when it
      is over the limit, and left alone when it is not. */
  lemma FirstSuitableWins(patterns: Patterns, text: string, maxChars: nat, smart: bool) returns (k: nat)
    ensures k <= |ORDER| && forall l :: 0 <= l < k ==> !(smart && Suits(patterns, ORDER[l], text, maxChars))
    ensures k < |ORDER| ==> smart && Suits(patterns, ORDER[k], text, maxChars)
    ensures var outcome := Truncate(patterns, text, maxChars, smart);
            && (|text| < 500 || (k == |ORDER| && |text| <= maxChars) ==> outcome == Outcome(text, None))
            && (|text| >= 500 && (k < |ORDER| || |text| > maxChars) ==>
                  && outcome.filter == Some(if k < |ORDER| then ORDER[k] else GenericFilter)
                  && Makes(patterns, outcome.filter.value, text, maxChars, outcome.text))
  {
    assert ORDER == CANDIDATES;
    hide Suits, Accepts, Makes, FirstAccepted, Apply, Generic, GitDiff, ReadNumbered, DedupLog;
    k := FirstOfOrder(patterns, ORDER, text, maxChars);
    if k < |ORDER| { SuitsIs(patterns, ORDER[k], text, maxChars); }
    if !smart { k := |ORDER|; }
    assert |text| > maxChars ==> Makes(patterns, GenericFilter, text, maxChars, Generic(text, maxChars)) by {
      GenericMakes(patterns, text, maxChars);
    }
  }

  /** A text over the limit comes out within it, unless the git-status, tree, grep or dedup-log
      filter took it, and in any case shorter than before. */
  lemma LongTextsAreCut(patterns: Patterns, text: string, maxChars: nat, smart: bool)
    requires 2000 <= maxChars < |text| && |text| + 1 < Pow10(21)
    ensures var outcome := Truncate(patterns, text, maxChars, smart);
            && outcome.filter.Some?
            && (outcome.filter.value in {GitDiffFilter, ReadNumberedFilter, GenericFilter} ==>
                  |outcome.text| <= maxChars)
            && |outcome.text| < |text|
  {
    var k := FirstSuitableWins(patterns, text, maxChars, smart);
    GitDiffFits(text, maxChars, patterns.isHunk);
    assert Pow10(21) <= Pow10(23) by { Pow10Climbs(21, 23); }
    hide Suits, Generic, GitDiff, ReadNumbered, DedupLog, Truncate, Pow10;
    ReadNumberedFits(text, maxChars);
    GenericFits(text, maxChars);
    if k < |ORDER| {
      assert Suits(patterns, ORDER[k], text, maxChars);
      SuitedShortens(patterns, text, maxChars, k);
    }
  }

  lemma SuitedShortens(patterns: Patterns, text: string, maxChars: nat, k: nat)
    requires k < |ORDER| && Suits(patterns, ORDER[k], text, maxChars)
    ensures forall result :: Makes(patterns, ORDER[k], text, maxChars, result) ==> |result| < |text|
  {
    hide GitDiff, ReadNumbered, DedupLog, Generic;
  }

  // ------------------------------------------------------------ the request

  /** The saver is at work: every tool result before the last six, four or two messages, by
      quality, becomes what `smartTruncate` makes of it at 8000, 4000 or 2000 characters, and
      those later stay. */
  lemma OldResultsAreSaved(patterns: Patterns, request: Request, config: SaverConfig, i: nat, j: nat)
    requires config.enabled && i < |request.messages| && j < |request.messages[i].content|
    requires request.messages[i].content[j].ToolResult? && request.messages[i].content[j].text.Some?
    ensures var maxChars := match config.quality case Lite => 8000 case Balanced => 4000 case Extreme => 2000;
            var recent := match config.quality case Lite => 6 case Balanced => 4 case Extreme => 2;
            var text := request.messages[i].content[j].text.value;
            var after := ApplyTokenSaver(patterns, request, config);
            && i < |after.messages| && j < |after.messages[i].content|
            && after.messages[i].content[j] == request.messages[i].content[j].(text := Some(
                 if i + recent >= |request.messages| then text
                 else Truncate(patterns, text, maxChars, config.smartTruncate).text))
  {
    hide Truncate;
  }
}
