/** The line filters of src/domain/token-saver.ts that elide: `readNumbered` and `gitDiff`. */
module TokenFilters {
  import opened Text
  import opened Decimal
  import opened TokenSaver

  // ------------------------------------------------------------ read-numbered

  /** How many lines the head takes: a line goes in while it keeps the head within 60% of
      the limit. */
  function HeadCount(lines: seq<string>, size: nat, maxChars: nat): (n: nat)
    ensures n <= |lines|
  {
    if lines == [] || 10 * (size + |lines[0]|) > 6 * maxChars then 0
    else 1 + HeadCount(lines[1..], size + |lines[0]| + 1, maxChars)
  }

  /** How many lines the tail takes from the end: up to 30% of the limit. */
  function TailCount(lines: seq<string>, size: nat, maxChars: nat): (n: nat)
    ensures n <= |lines|
  {
    if lines == [] || 10 * (size + |lines[|lines| - 1]|) > 3 * maxChars then 0
    else 1 + TailCount(lines[..|lines| - 1], size + |lines[|lines| - 1]| + 1, maxChars)
  }

  /** `Math.max(0, n)`. */
  function Clamp(n: int): nat { if n < 0 then 0 else n }

  function ElidedNote(count: nat): string {
    "…[" + Print(count) + " numbered lines elided]…"
  }

  function ReadNumbered(text: string, maxChars: nat): string {
    if |text| <= maxChars then text
    else
      var lines := Split(text, '\n');
      var h, t := HeadCount(lines, 0, maxChars), TailCount(lines, 0, maxChars);
      Join(lines[..h] + [ElidedNote(Clamp(|lines| - h - t))] + lines[|lines| - t..], '\n')
  }

  method TakeHead(lines: seq<string>, maxChars: nat) returns (h: nat)
    ensures h == HeadCount(lines, 0, maxChars)
  {
    h := 0;
    var headSize := 0;
    assert lines[0..] == lines;
    while h < |lines| && 10 * (headSize + |lines[h]|) <= 6 * maxChars
      invariant h <= |lines| && headSize >= 0
      invariant HeadCount(lines, 0, maxChars) == h + HeadCount(lines[h..], headSize, maxChars)
    {
      assert lines[h..][1..] == lines[h + 1..];
      headSize := headSize + |lines[h]| + 1;
      h := h + 1;
    }
  }

  method TakeTail(lines: seq<string>, maxChars: nat) returns (index: nat)
    ensures index == |lines| - TailCount(lines, 0, maxChars)
  {
    index := |lines|;
    var tailSize := 0;
    assert lines[..index] == lines;
    while index > 0 && 10 * (tailSize + |lines[index - 1]|) <= 3 * maxChars
      invariant index <= |lines| && tailSize >= 0
      invariant TailCount(lines, 0, maxChars) == |lines| - index + TailCount(lines[..index], tailSize, maxChars)
    {
      assert lines[..index][..index - 1] == lines[..index - 1];
      tailSize := tailSize + |lines[index - 1]| + 1;
      index := index - 1;
    }
  }

  /** `readNumbered` with its two greedy loops. */
  method RunReadNumbered(text: string, maxChars: nat) returns (result: string)
    ensures result == ReadNumbered(text, maxChars)
  {
    hide ElidedNote, HeadCount, TailCount, Split, Join;
    if |text| <= maxChars { return text; }
    var lines := Split(text, '\n');
    var h := TakeHead(lines, maxChars);
    var index := TakeTail(lines, maxChars);
    var gap: int := (index as int) - (h as int);
    assert Clamp(gap) == Clamp(|lines| - HeadCount(lines, 0, maxChars) - TailCount(lines, 0, maxChars));
    return Join(lines[..h] + [ElidedNote(Clamp(gap))] + lines[index..], '\n');
  }

  /** Characters of the lines, each with its newline. */
  function Size(lines: seq<string>): nat {
    if lines == [] then 0 else |lines[0]| + 1 + Size(lines[1..])
  }

  lemma {:induction false} SizeJoin(a: seq<string>, b: seq<string>)
    ensures Size(a + b) == Size(a) + Size(b)
  {
    if a == [] {
      assert a + b == b;
    } else {
      assert (a + b)[1..] == a[1..] + b;
      SizeJoin(a[1..], b);
    }
  }

  lemma {:induction false} JoinLength(lines: seq<string>)
    requires lines != []
    ensures |Join(lines, '\n')| == Size(lines) - 1
  {
    if |lines| > 1 { JoinLength(lines[1..]); }
  }

  lemma {:induction false} HeadFits(lines: seq<string>, size: nat, maxChars: nat)
    ensures var h := HeadCount(lines, size, maxChars); h > 0 ==> 10 * (size + Size(lines[..h]) - 1) <= 6 * maxChars
  {
    var h := HeadCount(lines, size, maxChars);
    if h > 0 {
      HeadFits(lines[1..], size + |lines[0]| + 1, maxChars);
      assert lines[..h] == [lines[0]] + lines[1..][..h - 1];
    }
  }

  lemma {:induction false} TailFits(lines: seq<string>, size: nat, maxChars: nat)
    ensures var t := TailCount(lines, size, maxChars); t > 0 ==>
            10 * (size + Size(lines[|lines| - t..]) - 1) <= 3 * maxChars
  {
    var n, t := |lines|, TailCount(lines, size, maxChars);
    if t > 0 {
      var init, last := lines[..n - 1], lines[n - 1];
      TailFits(init, size + |last| + 1, maxChars);
      assert TailCount(init, size + |last| + 1, maxChars) == t - 1;
      hide TailCount;
      var rest := init[n - t..];
      assert |init| - (t - 1) == n - t;
      SizeOfOne(last);
      SizeJoin(rest, [last]);
      SuffixEnd(lines, n - t);
      hide Size;
      assert t == 1 ==> rest == [];
      SizeOfNone();
    }
  }

  lemma SizeOfNone()
    ensures Size([]) == 0
  {
  }

  lemma SizeOfOne(line: string)
    ensures Size([line]) == |line| + 1
  {
    assert [line][1..] == [];
  }

  lemma SuffixEnd(lines: seq<string>, from: nat)
    requires from < |lines|
    ensures lines[from..] == lines[..|lines| - 1][from..] + [lines[|lines| - 1]]
  {
  }

  /** Head and tail with their newlines stay within 60% and 30% of the limit, plus one. */
  lemma HeadAndTailSizes(lines: seq<string>, maxChars: nat)
    ensures var h, t := HeadCount(lines, 0, maxChars), TailCount(lines, 0, maxChars);
            10 * Size(lines[..h]) <= 6 * maxChars + 10 && 10 * Size(lines[|lines| - t..]) <= 3 * maxChars + 10
  {
    HeadFits(lines, 0, maxChars);
    TailFits(lines, 0, maxChars);
    SizeOfNone();
    hide Size, HeadCount, TailCount;
    assert lines[..0] == [] && lines[|lines|..] == [];
  }

  lemma OverlapSizes(lines: seq<string>, h: nat, from: nat)
    requires from <= h <= |lines|
    ensures Size(lines) <= Size(lines[..h]) + Size(lines[from..])
  {
    assert lines == lines[..h] + lines[h..];
    SizeJoin(lines[..h], lines[h..]);
    assert lines[from..] == lines[from..h] + lines[h..];
    SizeJoin(lines[from..h], lines[h..]);
  }

  /** For a text over the limit the greedy head and tail never overlap: at least one line is
      elided, so the clamp at zero never acts. */
  lemma HeadAndTailNeverOverlap(text: string, maxChars: nat)
    requires |text| > maxChars >= 10
    ensures var lines := Split(text, '\n');
            HeadCount(lines, 0, maxChars) + TailCount(lines, 0, maxChars) < |lines|
  {
    var lines := Split(text, '\n');
    JoinSplit(text, '\n');
    JoinLength(lines);
    hide Split, Join, Size, HeadCount, TailCount;
    var n, h, t := |lines|, HeadCount(lines, 0, maxChars), TailCount(lines, 0, maxChars);
    HeadAndTailSizes(lines, maxChars);
    if h + t >= n { OverlapSizes(lines, h, n - t); }
  }

  /** The lines `readNumbered` joins for a text over the limit: a prefix and a suffix around
      a note. */
  function NumberedParts(lines: seq<string>, maxChars: nat): seq<string> {
    var h, t := HeadCount(lines, 0, maxChars), TailCount(lines, 0, maxChars);
    lines[..h] + [ElidedNote(Clamp(|lines| - h - t))] + lines[|lines| - t..]
  }

  /** For a text over the limit the note counts exactly the lines between prefix and
      suffix, at least one. */
  lemma ReadNumberedShape(text: string, maxChars: nat)
    requires |text| > maxChars >= 10
    ensures var lines := Split(text, '\n');
            var h, t := HeadCount(lines, 0, maxChars), TailCount(lines, 0, maxChars);
            && h + t < |lines|
            && NumberedParts(lines, maxChars) == lines[..h] + [ElidedNote(|lines| - h - t)] + lines[|lines| - t..]
            && ReadNumbered(text, maxChars) == Join(NumberedParts(lines, maxChars), '\n')
  {
    hide ElidedNote, HeadCount, TailCount, Split, Join;
    HeadAndTailNeverOverlap(text, maxChars);
  }

  /** The result of `readNumbered` fits the limit, for the limits in use. */
  lemma ReadNumberedFits(text: string, maxChars: nat)
    requires 2000 <= maxChars < |text| < Pow10(23)
    ensures |ReadNumbered(text, maxChars)| <= maxChars
  {
    ReadNumberedShape(text, maxChars);
    LineCount(text);
    var lines := Split(text, '\n');
    hide Split, Join, ReadNumbered, ElidedNote, HeadCount, TailCount;
    PartsFit(lines, maxChars);
    JoinLength(NumberedParts(lines, maxChars));
  }

  lemma SizeAround(a: seq<string>, note: string, b: seq<string>)
    ensures Size(a + [note] + b) == Size(a) + |note| + 1 + Size(b)
  {
    SizeJoin(a + [note], b);
    SizeJoin(a, [note]);
    assert [note][1..] == [];
  }

  lemma PartsFit(lines: seq<string>, maxChars: nat)
    requires 2000 <= maxChars && |lines| <= Pow10(23)
    requires HeadCount(lines, 0, maxChars) + TailCount(lines, 0, maxChars) < |lines|
    ensures NumberedParts(lines, maxChars) != [] && Size(NumberedParts(lines, maxChars)) <= maxChars
  {
    hide HeadCount, TailCount, ElidedNote, Size;
    var n, h, t := |lines|, HeadCount(lines, 0, maxChars), TailCount(lines, 0, maxChars);
    HeadAndTailSizes(lines, maxChars);
    NoteLength(n - h - t);
    SizeAround(lines[..h], ElidedNote(n - h - t), lines[n - t..]);
  }

  lemma NoteLength(count: nat)
    requires count <= Pow10(23)
    ensures |ElidedNote(count)| <= 50
  {
    assert |"…["| == 2 && |" numbered lines elided]…"| == 24;
    assert Pow10(24) == 10 * Pow10(23);
    Pow10Climbs(0, 23);
    PrintLength(count, 24);
  }

  lemma {:induction false} LineCount(text: string)
    ensures |Split(text, '\n')| <= |text| + 1
  {
    if text != [] { LineCount(text[1..]); }
  }

  // ------------------------------------------------------------ git-diff

  predicate StartsFile(line: string) {
    "diff --git " <= line
  }

  /** Lines of a hunk after its header: up to the next header or the next file. */
  function BodyLength(lines: seq<string>, isHunk: string -> bool): (n: nat)
    ensures n <= |lines|
    ensures forall i :: 0 <= i < n ==> !isHunk(lines[i]) && !StartsFile(lines[i])
    ensures n < |lines| ==> isHunk(lines[n]) || StartsFile(lines[n])
  {
    if lines == [] || isHunk(lines[0]) || StartsFile(lines[0]) then 0 else 1 + BodyLength(lines[1..], isHunk)
  }

  datatype Piece = Kept(line: string) | Elided(count: nat)

  function KeepAll(lines: seq<string>): (pieces: seq<Piece>)
    ensures |pieces| == |lines|
  {
    seq(|lines|, i requires 0 <= i < |lines| => Kept(lines[i]))
  }

  function ShrinkHunk(hunk: seq<string>): seq<Piece>
    requires hunk != []
  {
    if |hunk| <= 11 then KeepAll(hunk)
    else KeepAll(hunk[..6]) + [Elided(|hunk| - 11)] + KeepAll(hunk[|hunk| - 5..])
  }

  function Pieces(lines: seq<string>, isHunk: string -> bool): seq<Piece> {
    if lines == [] then []
    else if !isHunk(lines[0]) then [Kept(lines[0])] + Pieces(lines[1..], isHunk)
    else
      var n := 1 + BodyLength(lines[1..], isHunk);
      ShrinkHunk(lines[..n]) + Pieces(lines[n..], isHunk)
  }

  function RenderPiece(piece: Piece): string {
    match piece
    case Kept(line) => line
    case Elided(count) => "…[" + Print(count) + " hunk lines elided]…"
  }

  function Render(pieces: seq<Piece>): (lines: seq<string>)
    ensures |lines| == |pieces|
  {
    seq(|pieces|, i requires 0 <= i < |pieces| => RenderPiece(pieces[i]))
  }

  function GitDiff(text: string, maxChars: nat, isHunk: string -> bool): string {
    var result := Join(Render(Pieces(Split(text, '\n'), isHunk)), '\n');
    if |result| > maxChars then Generic(result, maxChars) else result
  }

  /** The inner loop of `gitDiff`: the index after the hunk that starts at `start`. */
  method HunkEnd(lines: seq<string>, start: nat, isHunk: string -> bool) returns (index: nat)
    requires start < |lines|
    ensures index == start + 1 + BodyLength(lines[start + 1..], isHunk)
    ensures start < index <= |lines|
  {
    hide StartsFile, RenderPiece;
    index := start + 1;
    while index < |lines| && !isHunk(lines[index]) && !StartsFile(lines[index])
      invariant start < index <= |lines|
      invariant BodyLength(lines[start + 1..], isHunk) == index - start - 1 + BodyLength(lines[index..], isHunk)
    {
      assert lines[index..][1..] == lines[index + 1..];
      index := index + 1;
    }
  }

  function PiecesFrom(lines: seq<string>, index: nat, isHunk: string -> bool): seq<Piece>
    requires index <= |lines|
  {
    Pieces(lines[index..], isHunk)
  }

  lemma PiecesStep(lines: seq<string>, index: nat, isHunk: string -> bool)
    requires index < |lines|
    ensures PiecesFrom(lines, index, isHunk) ==
            if !isHunk(lines[index]) then [Kept(lines[index])] + PiecesFrom(lines, index + 1, isHunk)
            else
              var end := index + 1 + BodyLength(lines[index + 1..], isHunk);
              ShrinkHunk(lines[index..end]) + PiecesFrom(lines, end, isHunk)
  {
    hide StartsFile, RenderPiece, ShrinkHunk;
    assert lines[index..][1..] == lines[index + 1..];
    var end := index + 1 + BodyLength(lines[index + 1..], isHunk);
    assert lines[index..][..end - index] == lines[index..end];
    assert lines[index..][end - index..] == lines[end..];
  }

  lemma PiecesEnds(lines: seq<string>, isHunk: string -> bool)
    ensures PiecesFrom(lines, 0, isHunk) == Pieces(lines, isHunk)
    ensures PiecesFrom(lines, |lines|, isHunk) == []
  {
    assert lines[0..] == lines && lines[|lines|..] == [];
  }

  lemma Reassociate(a: seq<Piece>, b: seq<Piece>, c: seq<Piece>)
    ensures a + (b + c) == (a + b) + c
    ensures [] + a == a == a + []
  {
  }

  /** The outer loop of `gitDiff`. */
  method CollectPieces(lines: seq<string>, isHunk: string -> bool) returns (output: seq<Piece>)
    ensures output == Pieces(lines, isHunk)
  {
    hide *;
    output := [];
    var index := 0;
    PiecesEnds(lines, isHunk);
    Reassociate(Pieces(lines, isHunk), [], []);
    while index < |lines|
      invariant 0 <= index <= |lines|
      invariant output + PiecesFrom(lines, index, isHunk) == Pieces(lines, isHunk)
    {
      PiecesStep(lines, index, isHunk);
      var end, pieces := index + 1, [Kept(lines[index])];
      if isHunk(lines[index]) {
        end := HunkEnd(lines, index, isHunk);
        pieces := ShrinkHunk(lines[index..end]);
      }
      Reassociate(output, pieces, PiecesFrom(lines, end, isHunk));
      output := output + pieces;
      index := end;
    }
    Reassociate(output, [], []);
  }

  method RunGitDiff(text: string, maxChars: nat, isHunk: string -> bool) returns (result: string)
    ensures result == GitDiff(text, maxChars, isHunk)
  {
    hide RenderPiece, Generic, Pieces, Split, Join;
    var pieces := CollectPieces(Split(text, '\n'), isHunk);
    result := Join(Render(pieces), '\n');
    if |result| > maxChars { result := Generic(result, maxChars); }
  }

  /** The pieces read along the lines: a kept piece is the next line, an elided piece skips
      exactly its count of lines, none of which is a hunk header or starts a file. */
  ghost predicate Follows(pieces: seq<Piece>, lines: seq<string>, isHunk: string -> bool) {
    if pieces == [] then lines == []
    else
      match pieces[0]
      case Kept(line) => lines != [] && lines[0] == line && Follows(pieces[1..], lines[1..], isHunk)
      case Elided(count) =>
        && 0 < count <= |lines|
        && (forall i :: 0 <= i < count ==> !isHunk(lines[i]) && !StartsFile(lines[i]))
        && Follows(pieces[1..], lines[count..], isHunk)
  }

  lemma {:induction false} KeptFollow(kept: seq<string>, pieces: seq<Piece>, lines: seq<string>, isHunk: string -> bool)
    requires Follows(pieces, lines, isHunk)
    ensures Follows(KeepAll(kept) + pieces, kept + lines, isHunk)
  {
    hide StartsFile, RenderPiece;
    if kept == [] {
      assert KeepAll(kept) + pieces == pieces && kept + lines == lines;
    } else {
      KeptFollow(kept[1..], pieces, lines, isHunk);
      assert (KeepAll(kept) + pieces)[1..] == KeepAll(kept[1..]) + pieces;
      assert (kept + lines)[1..] == kept[1..] + lines;
    }
  }

  lemma LongHunkFollows(hunk: seq<string>, rest: seq<string>, pieces: seq<Piece>, isHunk: string -> bool)
    requires |hunk| > 11 && Follows(pieces, rest, isHunk)
    requires forall i :: 0 < i < |hunk| ==> !isHunk(hunk[i]) && !StartsFile(hunk[i])
    ensures Follows(ShrinkHunk(hunk) + pieces, hunk + rest, isHunk)
  {
    hide StartsFile, RenderPiece, KeepAll;
    var n := |hunk|;
    var last := hunk[n - 5..];
    KeptFollow(last, pieces, rest, isHunk);
    var after := KeepAll(last) + pieces;
    var gap := [Elided(n - 11)] + after;
    var tail := hunk[6..] + rest;
    assert gap[1..] == after && tail[n - 11..] == last + rest;
    assert Follows(gap, tail, isHunk);
    hide Follows;
    KeptFollow(hunk[..6], gap, tail, isHunk);
    assert hunk[..6] + tail == hunk + rest;
    assert KeepAll(hunk[..6]) + gap == ShrinkHunk(hunk) + pieces;
  }

  lemma ShortHunkFollows(hunk: seq<string>, rest: seq<string>, pieces: seq<Piece>, isHunk: string -> bool)
    requires 0 < |hunk| <= 11 && Follows(pieces, rest, isHunk)
    ensures Follows(ShrinkHunk(hunk) + pieces, hunk + rest, isHunk)
  {
    hide StartsFile, RenderPiece;
    KeptFollow(hunk, pieces, rest, isHunk);
  }

  /** `gitDiff` before any cut: nothing but the middle of long hunks is lost, every header
      and every file line survives in place, and each note counts exactly what it stands
      for, so the compressed diff never has more lines than the diff. */
  lemma {:induction false} GitDiffFollows(lines: seq<string>, isHunk: string -> bool)
    ensures Follows(Pieces(lines, isHunk), lines, isHunk)
    ensures |Pieces(lines, isHunk)| <= |lines|
  {
    hide StartsFile, RenderPiece;
    if lines != [] {
      PiecesStep(lines, 0, isHunk);
      PiecesEnds(lines, isHunk);
      hide Pieces;
      if !isHunk(lines[0]) {
        GitDiffFollows(lines[1..], isHunk);
        assert ([Kept(lines[0])] + Pieces(lines[1..], isHunk))[1..] == Pieces(lines[1..], isHunk);
      } else {
        var n := 1 + BodyLength(lines[1..], isHunk);
        var hunk, rest := lines[..n], lines[n..];
        GitDiffFollows(rest, isHunk);
        hide Follows;
        assert forall i :: 0 < i < n ==> hunk[i] == lines[1..][i - 1];
        HunkFollows(hunk, rest, Pieces(rest, isHunk), isHunk);
        assert hunk + rest == lines && lines[0..n] == hunk;
      }
    }
  }

  lemma HunkFollows(hunk: seq<string>, rest: seq<string>, pieces: seq<Piece>, isHunk: string -> bool)
    requires hunk != [] && Follows(pieces, rest, isHunk)
    requires forall i :: 0 < i < |hunk| ==> !isHunk(hunk[i]) && !StartsFile(hunk[i])
    ensures Follows(ShrinkHunk(hunk) + pieces, hunk + rest, isHunk)
    ensures |ShrinkHunk(hunk)| <= |hunk|
  {
    hide StartsFile, RenderPiece;
    if |hunk| <= 11 {
      ShortHunkFollows(hunk, rest, pieces, isHunk);
    } else {
      LongHunkFollows(hunk, rest, pieces, isHunk);
    }
  }
}
