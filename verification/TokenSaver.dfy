/** The compressing filters of src/domain/token-saver.ts. A `char` stands for one UTF-16
    code unit. Filters driven by regular expressions are parameters. */
module TokenSaver {
  import opened Common
  import opened Text
  import opened Decimal

  function Newlines(s: string): nat {
    if s == [] then 0 else (if s[0] == '\n' then 1 else 0) + Newlines(s[1..])
  }

  lemma {:induction false} NewlinesBound(s: string)
    ensures Newlines(s) <= |s|
  {
    if s != [] { NewlinesBound(s[1..]); }
  }

  // ------------------------------------------------------------ generic

  function HeadSize(maxChars: nat): nat { maxChars * 7 / 10 }

  function TailSize(text: string, maxChars: nat): nat {
    Min(|text|, Max(0, maxChars - HeadSize(maxChars) - 80))
  }

  /** Head, a note of what was cut, tail. */
  function Generic(text: string, maxChars: nat): string
    requires |text| > maxChars
  {
    var head, tail := HeadSize(maxChars), TailSize(text, maxChars);
    text[..head]
    + "\n\n…[truncated " + Print(|text| - head - tail) + " chars / ~" + Print(Newlines(text[head..|text| - tail]))
        + " lines]…\n\n"
    + text[|text| - tail..]
  }

  lemma GenericLength(text: string, maxChars: nat)
    requires |text| > maxChars >= 267
    ensures var dropped := |text| - (maxChars - 80);
            dropped >= 0
            && |Generic(text, maxChars)| == maxChars - 46 + |Print(dropped)|
              + |Print(Newlines(text[HeadSize(maxChars)..|text| - TailSize(text, maxChars)]))|
  {
    assert HeadSize(maxChars) + TailSize(text, maxChars) == maxChars - 80;
    assert |"\n\n…[truncated "| == 14 && |" chars / ~"| == 10 && |" lines]…\n\n"| == 10;
  }

  /** A text longer than the limit and shorter than 10^23 is cut to at most the limit. */
  lemma GenericFits(text: string, maxChars: nat)
    requires 267 <= maxChars < |text| < Pow10(23)
    ensures |Generic(text, maxChars)| <= maxChars
  {
    GenericLength(text, maxChars);
    var cut := text[HeadSize(maxChars)..|text| - TailSize(text, maxChars)];
    NewlinesBound(cut);
    PrintLength(|text| - (maxChars - 80), 23);
    PrintLength(Newlines(cut), 23);
  }

  /** What is kept of a text over the limit is its first seven tenths of the limit and its end,
      80 characters short of the limit together; the note in between says how many characters and
      about how many lines are missing. */
  lemma GenericKeepsEnds(text: string, maxChars: nat)
    requires |text| > maxChars >= 267
    ensures var head := 7 * maxChars / 10;
            var tail := maxChars - 80 - head;
            var gap := text[head..|text| - tail];
            && 0 <= tail
            && Generic(text, maxChars) == text[..head]
                 + ("\n\n…[truncated " + Print(|gap|) + " chars / ~" + Print(Newlines(gap)) + " lines]…\n\n")
                 + text[|text| - tail..]
            && text == text[..head] + gap + text[|text| - tail..]
  {
    var head := HeadSize(maxChars);
    var tail := TailSize(text, maxChars);
    assert 7 * maxChars == maxChars * 7 && tail == maxChars - 80 - head;
    var a, b, c := text[..head], text[|text| - tail..], text[head..|text| - tail];
    ThreeParts(text, head, |text| - tail);
    hide HeadSize, TailSize;
    Associates(a, "\n\n…[truncated ", Print(|c|), " chars / ~", Print(Newlines(c)), " lines]…\n\n", b);
    hide Print, Newlines;
  }

  lemma ThreeParts(text: string, i: nat, j: nat)
    requires i <= j <= |text|
    ensures text == text[..i] + text[i..j] + text[j..]
  {
  }

  lemma Associates(a: string, b: string, c: string, d: string, e: string, f: string, g: string)
    ensures a + b + c + d + e + f + g == a + (b + c + d + e + f) + g
  {
  }

  lemma LongGenericShortens(text: string, maxChars: nat)
    requires 267 <= maxChars <= 10000 && 100_000 <= |text|
    ensures |Generic(text, maxChars)| < |text|
  {
    var head, tail := HeadSize(maxChars), TailSize(text, maxChars);
    assert head + tail == maxChars - 80;
    hide HeadSize, TailSize, Generic, Newlines, Print;
    GenericLength(text, maxChars);
    var cut := text[head..|text| - tail];
    assert |cut| == |text| - (maxChars - 80);
    NewlinesBound(cut);
    PrintIsShort(|text| - (maxChars - 80));
    PrintIsShort(Newlines(cut));
    FewDigits(|text| - (maxChars - 80), |Print(|text| - (maxChars - 80))|, |Print(Newlines(cut))|);
  }

  lemma FewDigits(n: nat, a: nat, b: nat)
    requires n >= 100 && a <= n / 10 + 1 && b <= n / 10 + 1
    ensures a + b + 34 < n
  {
  }

  /** Whatever its length, a text over the limit gets strictly shorter. */
  lemma GenericShortens(text: string, maxChars: nat)
    requires 267 <= maxChars <= 10000 && maxChars < |text|
    ensures |Generic(text, maxChars)| < |text|
  {
    if |text| < Pow10(23) {
      hide *;
      GenericFits(text, maxChars);
    } else {
      FiveDigits();
      hide *;
      LongGenericShortens(text, maxChars);
    }
  }

  lemma FiveDigits()
    ensures Pow10(23) >= 100000
  {
    assert Pow10(5) == 100000;
    Pow10Climbs(5, 23);
  }

  lemma {:induction false} Pow10Climbs(a: nat, b: nat)
    requires a <= b
    ensures Pow10(a) <= Pow10(b)
  {
    if a < b { Pow10Climbs(a, b - 1); }
  }

  // ------------------------------------------------------------ dedup-log

  function Note(count: nat): string {
    "  … (" + Print(count) + " duplicate " + (if count == 1 then "line" else "lines") + ")"
  }

  function Flush(count: nat): seq<string> {
    if count > 0 then [Note(count)] else []
  }

  function Dedup(lines: seq<string>, previous: Option<string>, duplicates: nat): seq<string> {
    if lines == [] then Flush(duplicates)
    else if previous == Some(lines[0]) then Dedup(lines[1..], previous, duplicates + 1)
    else Flush(duplicates) + [lines[0]] + Dedup(lines[1..], Some(lines[0]), 0)
  }

  function DedupLog(text: string): string {
    Join(Dedup(Split(text, '\n'), None, 0), '\n')
  }

  /** The loop of `dedupLog`. */
  method RunDedupLog(text: string) returns (result: string)
    ensures result == DedupLog(text)
  {
    var lines := Split(text, '\n');
    var output: seq<string> := [];
    var previous: Option<string> := None;
    var duplicates := 0;
    assert lines[0..] == lines;
    assert [] + Dedup(lines, None, 0) == Dedup(lines, None, 0);
    for next := 0 to |lines|
      invariant output + Dedup(lines[next..], previous, duplicates) == Dedup(lines, None, 0)
    {
      assert lines[next..][1..] == lines[next + 1..];
      if previous == Some(lines[next]) {
        duplicates := duplicates + 1;
      } else {
        ghost var rest := Dedup(lines[next + 1..], Some(lines[next]), 0);
        assert output + (Flush(duplicates) + [lines[next]] + rest) == output + Flush(duplicates) + [lines[next]] + rest;
        if duplicates > 0 { output := output + [Note(duplicates)]; } else { assert output + [] == output; }
        output := output + [lines[next]];
        previous := Some(lines[next]);
        duplicates := 0;
      }
    }
    if duplicates > 0 { output := output + [Note(duplicates)]; } else { assert output + [] == output; }
    return Join(output, '\n');
  }

  ghost predicate IsNote(line: string) {
    exists n: nat :: n > 0 && line == Note(n)
  }

  lemma NoteInjective(m: nat, n: nat)
    requires Note(m) == Note(n)
    ensures m == n
  {
    var a, b := Note(m), Note(n);
    assert a[|a| - 2] == (if m == 1 then 'e' else 's');
    assert b[|b| - 2] == (if n == 1 then 'e' else 's');
    assert |"  … ("| == 5 && |" duplicate "| == 11 && |"line"| == 4 && |"lines"| == 5;
    assert a[5..5 + |Print(m)|] == Print(m);
    assert b[5..5 + |Print(n)|] == Print(n);
    PrintInjective(m, n);
  }

  ghost function NoteCount(line: string): nat
    requires IsNote(line)
    ensures NoteCount(line) > 0 && line == Note(NoteCount(line))
  {
    var n: nat :| n > 0 && line == Note(n);
    n
  }

  function Repeat(line: string, count: nat): seq<string> {
    if count == 0 then [] else [line] + Repeat(line, count - 1)
  }

  /** Reads a deduplicated log back: a note after a line stands for copies of that line. */
  ghost function Expand(output: seq<string>, previous: Option<string>): seq<string> {
    if output == [] then []
    else if previous.Some? && IsNote(output[0]) then
      Repeat(previous.value, NoteCount(output[0])) + Expand(output[1..], previous)
    else [output[0]] + Expand(output[1..], Some(output[0]))
  }

  /** No line reads as a note, unless it repeats the line before it. */
  ghost predicate Unambiguous(lines: seq<string>, previous: Option<string>) {
    lines == [] || ((previous.Some? && IsNote(lines[0]) ==> previous == Some(lines[0]))
        && Unambiguous(lines[1..], Some(lines[0])))
  }

  lemma ExpandFlush(duplicates: nat, previous: Option<string>, rest: seq<string>)
    requires duplicates > 0 ==> previous.Some?
    ensures Expand(Flush(duplicates) + rest, previous) ==
            (if duplicates > 0 then Repeat(previous.value, duplicates) else []) + Expand(rest, previous)
  {
    if duplicates > 0 {
      assert IsNote(Note(duplicates));
      NoteInjective(NoteCount(Note(duplicates)), duplicates);
      assert (Flush(duplicates) + rest)[1..] == rest;
    } else {
      assert Flush(duplicates) + rest == rest;
      assert [] + Expand(rest, previous) == Expand(rest, previous);
    }
  }

  lemma {:induction false} RepeatSwap(line: string, count: nat)
    ensures Repeat(line, count) + [line] == Repeat(line, count + 1) == [line] + Repeat(line, count)
  {
    if count > 0 { RepeatSwap(line, count - 1); }
  }

  /** The lines still to come out: the suppressed repetitions, then the rest. */
  function Owed(lines: seq<string>, previous: Option<string>, duplicates: nat): seq<string>
    requires duplicates > 0 ==> previous.Some?
  {
    (if duplicates > 0 then Repeat(previous.value, duplicates) else []) + lines
  }

  lemma {:induction false} ExpandInvertsDedup(lines: seq<string>, previous: Option<string>, duplicates: nat)
    requires duplicates > 0 ==> previous.Some?
    requires Unambiguous(lines, previous)
    ensures Expand(Dedup(lines, previous, duplicates), previous) == Owed(lines, previous, duplicates)
  {
    if lines == [] {
      ExpandFlush(duplicates, previous, []);
      assert Flush(duplicates) + [] == Flush(duplicates);
      return;
    }
    UnambiguousTail(lines, previous);
    DedupStep(lines, previous, duplicates);
    hide *;
    var line, rest := lines[0], lines[1..];
    if previous == Some(line) {
      ExpandInvertsDedup(rest, previous, duplicates + 1);
      OwedRepeats(lines, previous, duplicates);
    } else {
      ExpandInvertsDedup(rest, Some(line), 0);
      var output := Dedup(rest, Some(line), 0);
      OwedNothing(rest, Some(line));
      ExpandLine(line, output, previous);
      ExpandFlush(duplicates, previous, [line] + output);
      OwedLine(lines, previous, duplicates);
    }
    assert Expand(Dedup(lines, previous, duplicates), previous) == Owed(lines, previous, duplicates);
  }

  lemma UnambiguousTail(lines: seq<string>, previous: Option<string>)
    requires Unambiguous(lines, previous) && lines != []
    ensures Unambiguous(lines[1..], Some(lines[0]))
    ensures previous.Some? && previous != Some(lines[0]) ==> !IsNote(lines[0])
  {
  }

  lemma DedupStep(lines: seq<string>, previous: Option<string>, duplicates: nat)
    requires lines != []
    ensures Dedup(lines, previous, duplicates)
            == if previous == Some(lines[0]) then Dedup(lines[1..], previous, duplicates + 1)
               else Flush(duplicates) + ([lines[0]] + Dedup(lines[1..], Some(lines[0]), 0))
  {
    hide Flush;
    var rest := Dedup(lines[1..], Some(lines[0]), 0);
    assert Flush(duplicates) + [lines[0]] + rest == Flush(duplicates) + ([lines[0]] + rest);
  }

  lemma OwedRepeats(lines: seq<string>, previous: Option<string>, duplicates: nat)
    requires lines != [] && previous == Some(lines[0])
    ensures Owed(lines[1..], previous, duplicates + 1) == Owed(lines, previous, duplicates)
  {
    RepeatOnto(lines[0], duplicates, lines[1..]);
    assert lines == [lines[0]] + lines[1..];
  }

  lemma OwedNothing(lines: seq<string>, previous: Option<string>)
    ensures Owed(lines, previous, 0) == lines
  {
  }

  lemma OwedLine(lines: seq<string>, previous: Option<string>, duplicates: nat)
    requires lines != [] && (duplicates > 0 ==> previous.Some?)
    ensures Owed(lines, previous, duplicates)
            == (if duplicates > 0 then Repeat(previous.value, duplicates) else []) + ([lines[0]] + lines[1..])
  {
    assert lines == [lines[0]] + lines[1..];
  }

  lemma RepeatOnto(line: string, count: nat, rest: seq<string>)
    ensures Repeat(line, count + 1) + rest == (if count > 0 then Repeat(line, count) else []) + ([line] + rest)
  {
    RepeatSwap(line, count);
    assert Repeat(line, count) + [line] + rest == Repeat(line, count) + ([line] + rest);
  }

  /** A line that is no note, or follows none, stands for itself. */
  lemma ExpandLine(line: string, output: seq<string>, previous: Option<string>)
    requires previous.Some? ==> !IsNote(line)
    ensures Expand([line] + output, previous) == [line] + Expand(output, Some(line))
  {
    assert ([line] + output)[1..] == output;
  }

  lemma {:induction false} UnambiguousAfterRepeat(line: string, count: nat, rest: seq<string>)
    requires Unambiguous(rest, Some(line))
    ensures Unambiguous(Repeat(line, count) + rest, Some(line))
  {
    if count == 0 {
      assert Repeat(line, 0) + rest == rest;
    } else {
      UnambiguousAfterRepeat(line, count - 1, rest);
      assert (Repeat(line, count) + rest)[1..] == Repeat(line, count - 1) + rest;
    }
  }

  lemma {:induction false} ExpansionIsUnambiguous(output: seq<string>, previous: Option<string>)
    ensures Unambiguous(Expand(output, previous), previous)
  {
    if output != [] {
      if previous.Some? && IsNote(output[0]) {
        ExpansionIsUnambiguous(output[1..], previous);
        UnambiguousAfterRepeat(previous.value, NoteCount(output[0]), Expand(output[1..], previous));
      } else {
        ExpansionIsUnambiguous(output[1..], Some(output[0]));
        var rest := Expand(output[1..], Some(output[0]));
        assert ([output[0]] + rest)[1..] == rest;
      }
    }
  }

  /** Reading a deduplicated log back restores its lines exactly when no line reads as a
      note without repeating the line before it. */
  lemma DedupIsLossless(lines: seq<string>)
    ensures Expand(Dedup(lines, None, 0), None) == lines <==> Unambiguous(lines, None)
  {
    ExpansionIsUnambiguous(Dedup(lines, None, 0), None);
    if Unambiguous(lines, None) {
      ExpandInvertsDedup(lines, None, 0);
      assert [] + lines == lines;
    }
  }

  ghost predicate NoNotes(lines: seq<string>) {
    forall i :: 0 <= i < |lines| ==> !IsNote(lines[i])
  }

  lemma {:induction false} NoNotesMeansUnambiguous(lines: seq<string>, previous: Option<string>)
    requires NoNotes(lines)
    ensures Unambiguous(lines, previous)
  {
    if lines != [] { NoNotesMeansUnambiguous(lines[1..], Some(lines[0])); }
  }

  lemma NoteHasNoNewline(count: nat)
    ensures '\n' !in Note(count)
  {
    PrintReads(count);
    assert '\n' !in "  … (" && '\n' !in " duplicate " && '\n' !in "lines" && '\n' !in "line" && '\n' !in ")";
    assert '\n' !in Print(count);
  }

  lemma {:induction false} DedupKeepsLines(lines: seq<string>, previous: Option<string>, duplicates: nat)
    requires FreeOf(lines, '\n')
    ensures FreeOf(Dedup(lines, previous, duplicates), '\n')
    ensures lines != [] && previous.None? ==> Dedup(lines, previous, duplicates) != []
  {
    NoteHasNoNewline(duplicates);
    if lines != [] {
      if previous == Some(lines[0]) {
        DedupKeepsLines(lines[1..], previous, duplicates + 1);
      } else {
        DedupKeepsLines(lines[1..], Some(lines[0]), 0);
      }
    }
  }

  /** On texts: splitting the compressed text, reading its notes back and joining restores
      the text whenever no line of it has the form of a note. */
  lemma DedupLogIsLossless(text: string)
    requires NoNotes(Split(text, '\n'))
    ensures Join(Expand(Split(DedupLog(text), '\n'), None), '\n') == text
  {
    var lines := Split(text, '\n');
    SplitFree(text, '\n');
    DedupKeepsLines(lines, None, 0);
    SplitJoin(Dedup(lines, None, 0), '\n');
    NoNotesMeansUnambiguous(lines, None);
    DedupIsLossless(lines);
    JoinSplit(text, '\n');
  }
}
