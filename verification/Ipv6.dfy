/** The IPv6 text parser of src/domain/protocols.ts and the address forms of section 2.2 of
    RFC 4291. */
module Ipv6 {
  import opened Common
  import opened Text
  import opened Bits

  // ------------------------------------------------------------ parts

  predicate IsDigit(c: char) { '0' <= c <= '9' }

  predicate IsHex(c: char) { IsDigit(c) || 'a' <= c <= 'f' || 'A' <= c <= 'F' }

  function HexDigit(c: char): (d: nat)
    requires IsHex(c)
    ensures d < 16
  {
    if IsDigit(c) then c as int - '0' as int
    else if 'a' <= c <= 'f' then c as int - 'a' as int + 10
    else c as int - 'A' as int + 10
  }

  predicate AllHex(s: string) { forall i :: 0 <= i < |s| ==> IsHex(s[i]) }

  predicate AllDigits(s: string) { forall i :: 0 <= i < |s| ==> IsDigit(s[i]) }

  function HexValue(s: string): nat
    requires AllHex(s)
  {
    if s == [] then 0 else HexValue(s[..|s| - 1]) * 16 + HexDigit(s[|s| - 1])
  }

  function DecValue(s: string): nat
    requires AllDigits(s)
  {
    if s == [] then 0 else DecValue(s[..|s| - 1]) * 10 + HexDigit(s[|s| - 1])
  }

  /** One to four hexadecimal digits of either case, leading zeros allowed. */
  predicate IsHextet(s: string) { 1 <= |s| <= 4 && AllHex(s) }

  predicate IsOctet(s: string) { 1 <= |s| <= 3 && AllDigits(s) && DecValue(s) <= 255 }

  predicate IsQuad(s: string) {
    var octets := Split(s, '.');
    |octets| == 4 && forall i :: 0 <= i < 4 ==> IsOctet(octets[i])
  }

  /** `parseHextet`. */
  function ParseHextet(s: string): Option<nat> {
    if IsHextet(s) then Some(HexValue(s)) else None
  }

  /** `ipv4ToHextets`. */
  function ParseQuad(s: string): Option<seq<nat>> {
    if !IsQuad(s) then None
    else
      var o := Split(s, '.');
      Some([DecValue(o[0]) * 256 + DecValue(o[1]), DecValue(o[2]) * 256 + DecValue(o[3])])
  }

  lemma {:induction false} HexValueBound(s: string)
    requires AllHex(s)
    ensures HexValue(s) < Pow2(4 * |s|)
  {
    if s != [] {
      HexValueBound(s[..|s| - 1]);
      var k := 4 * (|s| - 1);
      assert Pow2(k + 4) == 2 * Pow2(k + 3) == 4 * Pow2(k + 2) == 8 * Pow2(k + 1) == 16 * Pow2(k);
    }
  }

  lemma HextetBound(s: string)
    requires IsHextet(s)
    ensures HexValue(s) < 0x1_0000
  {
    HexValueBound(s);
    Pow2Sixteen();
    Pow2Climbs(4 * |s|, 16);
  }

  // ------------------------------------------------------------ the parser on its parts

  function Hextets(parts: seq<string>): (groups: Option<seq<nat>>)
    ensures groups.Some? <==> forall i :: 0 <= i < |parts| ==> IsHextet(parts[i])
    ensures groups.Some? ==>
            && |groups.value| == |parts|
            && forall i :: 0 <= i < |parts| ==> groups.value[i] == HexValue(parts[i])
  {
    if parts == [] then Some([])
    else
      var init := Hextets(parts[..|parts| - 1]);
      var last := ParseHextet(parts[|parts| - 1]);
      if init.None? || last.None? then None else Some(init.value + [last.value])
  }

  method ParseHextets(parts: seq<string>) returns (groups: Option<seq<nat>>)
    ensures groups == Hextets(parts)
  {
    var pushed: seq<nat> := [];
    for next := 0 to |parts|
      invariant Hextets(parts[..next]) == Some(pushed)
    {
      assert parts[..next + 1][..next] == parts[..next];
      var hextet := ParseHextet(parts[next]);
      if hextet.None? {
        assert !IsHextet(parts[next]);
        return None;
      }
      pushed := pushed + [hextet.value];
    }
    assert parts[..|parts|] == parts;
    return Some(pushed);
  }

  function Zeros(n: nat): (zeros: seq<nat>)
    ensures |zeros| == n && forall i :: 0 <= i < n ==> zeros[i] == 0
  {
    seq(n, i => 0)
  }

  /** `(value << 16) | group` over the groups. */
  function GroupsValue(groups: seq<nat>): nat {
    if groups == [] then 0 else GroupsValue(groups[..|groups| - 1]) * 0x1_0000 + groups[|groups| - 1]
  }

  lemma GroupIsOred(value: nat, group: nat)
    requires group < 0x1_0000
    ensures Or(Shift(value, 16), group) == value * 0x1_0000 + group
  {
    Pow2Sixteen();
    hide Or, Shift, Pow2;
    OrJoins(value, group, 16);
    ShiftIsTimes(value, 16);
  }

  ghost predicate SixteenBits(groups: seq<nat>) {
    forall i :: 0 <= i < |groups| ==> groups[i] < 0x1_0000
  }

  method FoldGroups(groups: seq<nat>) returns (value: nat)
    requires SixteenBits(groups)
    ensures value == GroupsValue(groups)
  {
    value := 0;
    for next := 0 to |groups|
      invariant value == GroupsValue(groups[..next])
    {
      assert groups[..next + 1][..next] == groups[..next];
      GroupIsOred(value, groups[next]);
      value := Or(Shift(value, 16), groups[next]);
    }
    assert groups[..|groups|] == groups;
  }

  predicate Dotted(parts: seq<string>) {
    parts != [] && '.' in parts[|parts| - 1]
  }

  function Assemble(left: seq<string>, right: Option<seq<string>>, quad: seq<nat>): Option<seq<nat>> {
    var first := Hextets(left);
    var second := Hextets(right.GetOr([]));
    if first.None? || second.None? then None
    else
      var missing := 8 - |first.value| - |second.value| - |quad|;
      if right.Some? && missing < 0 then None
      else
        var groups := first.value + (if right.Some? then Zeros(missing) else []) + second.value + quad;
        if |groups| == 8 then Some(groups) else None
  }

  /** The parser once the text is split at "::" and ":". */
  function ParseParts(left: seq<string>, right: Option<seq<string>>): Option<seq<nat>> {
    if Dotted(left) then
      var quad := ParseQuad(left[|left| - 1]);
      if quad.None? then None else Assemble(left[..|left| - 1], right, quad.value)
    else if right.Some? && Dotted(right.value) then
      var quad := ParseQuad(right.value[|right.value| - 1]);
      if quad.None? then None else Assemble(left, Some(right.value[..|right.value| - 1]), quad.value)
    else Assemble(left, right, [])
  }

  // ------------------------------------------------------------ splitting at "::"

  function SplitDouble(s: string): (parts: seq<string>)
    ensures |parts| >= 1
  {
    if s == "" then [""]
    else if |s| >= 2 && s[0] == ':' && s[1] == ':' then [""] + SplitDouble(s[2..])
    else
      var rest := SplitDouble(s[1..]);
      [[s[0]] + rest[0]] + rest[1..]
  }

  predicate DoubleAt(s: string, i: int)
    requires 0 <= i < |s| - 1
  {
    s[i] == ':' && s[i + 1] == ':'
  }

  ghost predicate NoDouble(s: string) {
    forall i :: 0 <= i < |s| - 1 ==> !DoubleAt(s, i)
  }

  lemma {:induction false} SplitDoubleNone(s: string)
    requires NoDouble(s)
    ensures SplitDouble(s) == [s]
  {
    if s != "" {
      if |s| >= 2 { assert !DoubleAt(s, 0); }
      assert forall i :: 0 <= i < |s[1..]| - 1 ==> DoubleAt(s[1..], i) == DoubleAt(s, i + 1);
      SplitDoubleNone(s[1..]);
      assert [s[0]] + s[1..] == s;
    }
  }

  lemma {:induction false} SplitDoubleOnce(a: string, b: string)
    requires NoDouble(a) && (a != "" ==> a[|a| - 1] != ':')
    ensures SplitDouble(a + "::" + b) == [a] + SplitDouble(b)
  {
    var s := a + "::" + b;
    if a == "" {
      assert s[2..] == b;
    } else {
      if |a| >= 2 { assert !DoubleAt(a, 0); }
      assert forall i :: 0 <= i < |a[1..]| - 1 ==> DoubleAt(a[1..], i) == DoubleAt(a, i + 1);
      SplitDoubleOnce(a[1..], b);
      assert s[1..] == a[1..] + "::" + b;
      assert s[0] == a[0] && (|a| > 1 ==> s[1] == a[1]);
      assert [a[0]] + a[1..] == a;
      assert ([a[1..]] + SplitDouble(b))[1..] == SplitDouble(b);
    }
  }

  lemma {:induction false} SplitDoubleRejoins(s: string)
    ensures |SplitDouble(s)| == 1 ==> SplitDouble(s)[0] == s
    ensures |SplitDouble(s)| == 2 ==> SplitDouble(s)[0] + "::" + SplitDouble(s)[1] == s
  {
    if s == "" {
    } else if |s| >= 2 && s[0] == ':' && s[1] == ':' {
      SplitDoubleRejoins(s[2..]);
      hide SplitDouble;
      assert s[..2] == "::";
      assert "" + "::" + s[2..] == s;
    } else {
      SplitDoubleRejoins(s[1..]);
      var rest := SplitDouble(s[1..]);
      assert SplitDouble(s) == [[s[0]] + rest[0]] + rest[1..];
      hide SplitDouble;
      assert [s[0]] + s[1..] == s;
      if |rest| == 2 { Reglue(s[0], rest[0], rest[1]); }
    }
  }

  lemma Reglue(c: char, a: string, b: string)
    ensures ([c] + a) + "::" + b == [c] + (a + "::" + b)
  {
  }

  function Parts(s: string): seq<string> {
    if s == "" then [] else Split(s, ':')
  }

  /** `ipv6ToBigInt`, up to the fold of its groups. */
  function ParseGroups(host: string): Option<seq<nat>> {
    if ':' !in host then None
    else
      var halves := SplitDouble(host);
      if |halves| > 2 then None
      else ParseParts(Parts(halves[0]), if |halves| == 2 then Some(Parts(halves[1])) else None)
  }

  /** The group loops of `ipv6ToBigInt`. */
  method PushGroups(left: seq<string>, right: seq<string>, compressed: bool, quad: seq<nat>)
      returns (groups: Option<seq<nat>>)
    requires !compressed ==> right == []
    ensures groups == Assemble(left, if compressed then Some(right) else None, quad)
  {
    var first := ParseHextets(left);
    if first.None? { return None; }
    var pushed := first.value;
    assert pushed + [] == pushed && Hextets([]) == Some([]);
    if compressed {
      var missing := 8 - |pushed| - |right| - |quad|;
      if missing < 0 { return None; }
      pushed := pushed + Zeros(missing);
    }
    var second := ParseHextets(right);
    if second.None? { return None; }
    pushed := pushed + second.value + quad;
    if |pushed| != 8 { return None; }
    return Some(pushed);
  }

  /** `ipv6ToBigInt`. */
  method Ipv6ToBigInt(host: string) returns (value: Option<nat>)
    ensures value == match ParseGroups(host) case Some(groups) => Some(GroupsValue(groups)) case None => None
  {
    hide SplitDouble, Parts, Hextets, Assemble, IsQuad, GroupsValue;
    if ':' !in host { return None; }
    var halves := SplitDouble(host);
    if |halves| > 2 { return None; }
    var left := Parts(halves[0]);
    var compressed := |halves| == 2;
    var right: seq<string> := if compressed then Parts(halves[1]) else [];
    var quad: seq<nat> := [];
    if Dotted(left) {
      var parsed := ParseQuad(left[|left| - 1]);
      if parsed.None? { return None; }
      quad, left := parsed.value, left[..|left| - 1];
    } else if Dotted(right) {
      var parsed := ParseQuad(right[|right| - 1]);
      if parsed.None? { return None; }
      quad, right := parsed.value, right[..|right| - 1];
    }
    var groups := PushGroups(left, right, compressed, quad);
    if groups.None? { return None; }
    assert groups == ParseGroups(host);
    AcceptedHaveSixteenBits(host);
    var folded := FoldGroups(groups.value);
    return Some(folded);
  }

  // ------------------------------------------------------------ printing

  /** A part that survives splitting: not empty and free of colons. */
  ghost predicate Clean(parts: seq<string>) {
    forall i :: 0 <= i < |parts| ==> parts[i] != "" && ':' !in parts[i]
  }

  lemma {:induction false} JoinIsPlain(parts: seq<string>)
    requires Clean(parts)
    ensures var s := Join(parts, ':');
            NoDouble(s) && (parts == [] <==> s == "") && (s != "" ==> s[0] != ':' && s[|s| - 1] != ':')
  {
    if |parts| == 1 {
      assert parts[0][0] in parts[0] && parts[0][|parts[0]| - 1] in parts[0];
      NoColonNoDouble(parts[0]);
    } else if |parts| > 1 {
      JoinIsPlain(parts[1..]);
      assert parts[0][0] in parts[0];
      OneColon(parts[0], Join(parts[1..], ':'));
    }
  }

  lemma NoColonNoDouble(s: string)
    requires ':' !in s
    ensures NoDouble(s)
  {
    forall i | 0 <= i < |s| - 1
      ensures !DoubleAt(s, i)
    {
      assert s[i] in s;
    }
  }

  lemma OneColon(a: string, b: string)
    requires ':' !in a && a != "" && NoDouble(b) && b != "" && b[0] != ':'
    ensures NoDouble(a + [':'] + b)
  {
    var s := a + [':'] + b;
    forall i | 0 <= i < |s| - 1
      ensures !DoubleAt(s, i)
    {
      if i < |a| {
        assert s[i] == a[i] && a[i] in a;
      } else if i > |a| {
        assert DoubleAt(s, i) == DoubleAt(b, i - |a| - 1);
      }
    }
  }

  function PrintParts(left: seq<string>, right: Option<seq<string>>): string {
    Join(left, ':') + match right case Some(parts) => "::" + Join(parts, ':') case None => ""
  }

  lemma PartsOfJoin(parts: seq<string>)
    requires Clean(parts)
    ensures Parts(Join(parts, ':')) == parts
  {
    JoinIsPlain(parts);
    if parts != [] { SplitJoin(parts, ':'); }
  }

  /** Splitting a printed address gives its parts back. */
  lemma ParseOfPrint(left: seq<string>, right: Option<seq<string>>)
    requires Clean(left) && Clean(right.GetOr([])) && (right.None? ==> |left| >= 2)
    ensures ParseGroups(PrintParts(left, right)) == ParseParts(left, right)
  {
    var host := PrintParts(left, right);
    hide Clean, ParseParts;
    JoinIsPlain(left);
    PartsOfJoin(left);
    hide Parts;
    match right {
      case None =>
        assert host == Join(left, ':');
        assert host == left[0] + [':'] + Join(left[1..], ':');
        assert host[|left[0]|] == ':';
        hide Join;
        SplitDoubleNone(host);
      case Some(parts) =>
        JoinIsPlain(parts);
        PartsOfJoin(parts);
        hide Join;
        assert host == Join(left, ':') + "::" + Join(parts, ':');
        assert host[|Join(left, ':')|] == ':';
        SplitDoubleOnce(Join(left, ':'), Join(parts, ':'));
        SplitDoubleNone(Join(parts, ':'));
    }
  }

  ghost predicate AllHextets(parts: seq<string>) {
    forall i :: 0 <= i < |parts| ==> IsHextet(parts[i])
  }

  lemma HextetIsClean(s: string)
    requires IsHextet(s)
    ensures s != "" && ':' !in s && '.' !in s
  {
  }

  lemma QuadIsClean(s: string)
    requires IsQuad(s)
    ensures s != "" && ':' !in s && '.' in s
  {
    var octets := Split(s, '.');
    JoinSplit(s, '.');
    if '.' !in s { SplitNone(s, '.'); }
    forall i | 0 <= i < 4
      ensures ':' !in octets[i]
    {
      assert IsOctet(octets[i]);
    }
    JoinHasNo(octets);
  }

  lemma {:induction false} JoinHasNo(octets: seq<string>)
    requires forall i :: 0 <= i < |octets| ==> ':' !in octets[i]
    ensures ':' !in Join(octets, '.')
  {
    if |octets| > 1 { JoinHasNo(octets[1..]); }
  }

  lemma HextetsAreClean(parts: seq<string>)
    requires AllHextets(parts)
    ensures Clean(parts) && !Dotted(parts)
  {
    forall i | 0 <= i < |parts|
      ensures parts[i] != "" && ':' !in parts[i] && '.' !in parts[i]
    {
      HextetIsClean(parts[i]);
    }
  }

  /** The dotted quad, when there is one, stands at the very end. */
  function WithQuad(parts: seq<string>, quad: Option<string>): seq<string> {
    if quad.Some? then parts + [quad.value] else parts
  }

  function Print(left: seq<string>, right: Option<seq<string>>, quad: Option<string>): string {
    match right
    case None => PrintParts(WithQuad(left, quad), None)
    case Some(parts) => PrintParts(left, Some(WithQuad(parts, quad)))
  }

  function QuadGroups(quad: Option<string>): seq<nat>
    requires quad.Some? ==> IsQuad(quad.value)
  {
    if quad.Some? then ParseQuad(quad.value).value else []
  }

  /** The spellings of section 2.2: eight hextets, or fewer around a "::" that stands for
      the missing zero groups, the last two groups possibly as a dotted quad. */
  ghost predicate Spelling(left: seq<string>, right: Option<seq<string>>, quad: Option<string>) {
    && AllHextets(left) && AllHextets(right.GetOr([])) && (quad.Some? ==> IsQuad(quad.value))
    && var written := |left| + |right.GetOr([])| + |QuadGroups(quad)|;
       if right.None? then written == 8 else written <= 8
  }

  /** The eight groups a spelling stands for. */
  ghost function Groups(left: seq<string>, right: Option<seq<string>>, quad: Option<string>): seq<nat>
    requires Spelling(left, right, quad)
  {
    var l, r, q := Hextets(left).value, Hextets(right.GetOr([])).value, QuadGroups(quad);
    l + Zeros(8 - |l| - |r| - |q|) + r + q
  }

  lemma QuadPartsAreClean(parts: seq<string>, quad: Option<string>)
    requires Clean(parts) && (quad.Some? ==> IsQuad(quad.value))
    ensures Clean(WithQuad(parts, quad)) && Clean([]) && (quad.Some? ==> '.' in quad.value)
    ensures |QuadGroups(quad)| <= 2
  {
    if quad.Some? { QuadIsClean(quad.value); }
    hide IsQuad;
  }

  /** The parser inverts printing for every spelling: any digits, either case, any leading
      zeros, "::" at any place, with or without a quad. */
  lemma ParseInvertsPrinting(left: seq<string>, right: Option<seq<string>>, quad: Option<string>)
    requires Spelling(left, right, quad)
    ensures ParseGroups(Print(left, right, quad)) == Some(Groups(left, right, quad))
    ensures |Groups(left, right, quad)| == 8
  {
    hide IsHextet, IsQuad, ParseQuad, ParseGroups, ParseParts, Assemble, PrintParts, Groups, Dotted, Clean, AllHextets;
    HextetsAreClean(left);
    HextetsAreClean(right.GetOr([]));
    QuadPartsAreClean(left, quad);
    QuadPartsAreClean(right.GetOr([]), quad);
    AssembleSpelling(left, right, quad);
    assert right.None? ==> |WithQuad(left, quad)| >= 2;
    match right {
      case None =>
        ParseOfPrint(WithQuad(left, quad), None);
        if quad.Some? { QuadOnLeft(left, None, quad.value); } else { NoQuad(left, None); }
      case Some(parts) =>
        ParseOfPrint(left, Some(WithQuad(parts, quad)));
        if quad.Some? { QuadOnRight(left, parts, quad.value); } else { NoQuad(left, right); }
    }
  }

  lemma NoQuad(left: seq<string>, right: Option<seq<string>>)
    requires !Dotted(left) && !Dotted(right.GetOr([]))
    ensures ParseParts(left, right) == Assemble(left, right, [])
  {
    hide Assemble;
  }

  lemma QuadOnLeft(left: seq<string>, right: Option<seq<string>>, quad: string)
    requires IsQuad(quad) && '.' in quad
    ensures ParseParts(left + [quad], right) == Assemble(left, right, ParseQuad(quad).value)
  {
    hide Assemble, IsQuad;
    assert (left + [quad])[..|left|] == left;
  }

  lemma QuadOnRight(left: seq<string>, right: seq<string>, quad: string)
    requires IsQuad(quad) && '.' in quad && !Dotted(left)
    ensures ParseParts(left, Some(right + [quad])) == Assemble(left, Some(right), ParseQuad(quad).value)
  {
    hide Assemble, IsQuad;
    assert (right + [quad])[..|right|] == right;
  }

  lemma AssembleSpelling(left: seq<string>, right: Option<seq<string>>, quad: Option<string>)
    requires Spelling(left, right, quad)
    ensures Assemble(left, right, QuadGroups(quad)) == Some(Groups(left, right, quad))
            && |Groups(left, right, quad)| == 8
  {
    hide IsHextet, IsQuad, HexValue;
    assert Zeros(0) == [];
  }

  // ------------------------------------------------------------ what is accepted

  /** How an accepted text was written: `early` is a quad standing before the "::". */
  datatype Reading = Reading(left: seq<string>, right: Option<seq<string>>, quad: Option<string>, early: bool)

  ghost predicate Writes(host: string, r: Reading) {
    && Spelling(r.left, r.right, r.quad)
    && (r.early ==> r.right.Some? && r.quad.Some?)
    && host == if r.early then PrintParts(WithQuad(r.left, r.quad), r.right) else Print(r.left, r.right, r.quad)
  }

  lemma RejoinParts(s: string)
    ensures Join(Parts(s), ':') == s
  {
    if s != "" { JoinSplit(s, ':'); }
  }

  lemma HostIsItsParts(host: string)
    requires |SplitDouble(host)| <= 2
    ensures var halves := SplitDouble(host);
            host == PrintParts(Parts(halves[0]), if |halves| == 2 then Some(Parts(halves[1])) else None)
  {
    SplitDoubleRejoins(host);
    var halves := SplitDouble(host);
    hide SplitDouble, Parts, Join;
    var a := halves[0];
    RejoinParts(a);
    if |halves| == 2 {
      var b := halves[1];
      RejoinParts(b);
      assert a + ("::" + b) == a + "::" + b;
    } else {
      assert a + "" == a;
    }
  }

  lemma AssembledReading(left: seq<string>, right: Option<seq<string>>, quad: Option<string>)
    requires quad.Some? ==> IsQuad(quad.value)
    requires Assemble(left, right, QuadGroups(quad)).Some?
    ensures Spelling(left, right, quad) && Assemble(left, right, QuadGroups(quad)).value == Groups(left, right, quad)
  {
    hide IsQuad, IsHextet, HexValue;
    assert Zeros(0) == [];
    var l, q := Hextets(left).value, QuadGroups(quad);
    assert right.None? ==> l + [] + [] + q == l + Zeros(0) + [] + q;
  }

  ghost predicate WrittenAs(left: seq<string>, right: Option<seq<string>>, r: Reading) {
    && (r.early ==> r.right.Some? && r.quad.Some?)
    && left == (if r.right.None? || r.early then WithQuad(r.left, r.quad) else r.left)
    && right == if r.right.None? || r.early then r.right else Some(WithQuad(r.right.value, r.quad))
  }

  lemma PartsReading(left: seq<string>, right: Option<seq<string>>) returns (r: Reading)
    requires ParseParts(left, right).Some?
    ensures Spelling(r.left, r.right, r.quad) && WrittenAs(left, right, r)
    ensures ParseParts(left, right).value == Groups(r.left, r.right, r.quad)
  {
    hide IsHextet, IsQuad, Hextets, Assemble, Groups, Spelling;
    if Dotted(left) {
      var quad := left[|left| - 1];
      assert left[..|left| - 1] + [quad] == left;
      r := Reading(left[..|left| - 1], right, Some(quad), right.Some?);
    } else if right.Some? && Dotted(right.value) {
      var parts := right.value;
      var quad := parts[|parts| - 1];
      assert parts[..|parts| - 1] + [quad] == parts;
      r := Reading(left, Some(parts[..|parts| - 1]), Some(quad), false);
    } else {
      r := Reading(left, right, None, false);
    }
    AssembledReading(r.left, r.right, r.quad);
  }

  /** Everything the parser accepts is one of the spellings, or a spelling whose quad was
      written before the "::" instead of at the end. */
  lemma AcceptedIsSpelling(host: string) returns (r: Reading)
    requires ParseGroups(host).Some?
    ensures Writes(host, r) && ParseGroups(host).value == Groups(r.left, r.right, r.quad)
  {
    var halves := SplitDouble(host);
    HostIsItsParts(host);
    var left, right := Parts(halves[0]), if |halves| == 2 then Some(Parts(halves[1])) else None;
    hide SplitDouble, Parts, PrintParts, Groups, Spelling, ParseParts, WithQuad;
    r := PartsReading(left, right);
  }

  /** The parser is more lenient than section 2.2 in exactly two ways: "::" may stand for no
      group at all, and a quad may come before the "::", which puts it last all the same. */
  lemma EarlyQuadIsAccepted(left: seq<string>, right: seq<string>, quad: string)
    requires Spelling(left, Some(right), Some(quad))
    ensures ParseGroups(PrintParts(left + [quad], Some(right))) == Some(Groups(left, Some(right), Some(quad)))
  {
    hide IsHextet, IsQuad, ParseQuad, ParseGroups, ParseParts, Assemble, PrintParts, Groups, Dotted, Clean, AllHextets;
    HextetsAreClean(left);
    HextetsAreClean(right);
    QuadPartsAreClean(left, Some(quad));
    AssembleSpelling(left, Some(right), Some(quad));
    ParseOfPrint(left + [quad], Some(right));
    QuadOnLeft(left, Some(right), quad);
  }

  // ------------------------------------------------------------ the value

  lemma {:induction false} GroupsValueBound(groups: seq<nat>)
    requires SixteenBits(groups)
    ensures GroupsValue(groups) < Pow2(16 * |groups|)
  {
    if groups != [] {
      var n := |groups| - 1;
      GroupsValueBound(groups[..n]);
      Pow2Sum(16, 16 * n);
      Pow2Sixteen();
    }
  }

  lemma QuadBound(s: string)
    requires IsQuad(s)
    ensures forall g :: g in ParseQuad(s).value ==> g < 0x1_0000
  {
    var o := Split(s, '.');
    assert IsOctet(o[0]) && IsOctet(o[1]) && IsOctet(o[2]) && IsOctet(o[3]);
  }

  lemma AcceptedHaveSixteenBits(host: string)
    requires ParseGroups(host).Some?
    ensures SixteenBits(ParseGroups(host).value) && |ParseGroups(host).value| == 8
  {
    var r := AcceptedIsSpelling(host);
    hide ParseGroups, Writes;
    GroupsAreHextets(r.left, r.right, r.quad);
    AssembleSpelling(r.left, r.right, r.quad);
    hide Groups;
  }

  /** Whatever is accepted has a value below 2^128. */
  lemma ValueBelow128(host: string)
    requires ParseGroups(host).Some?
    ensures GroupsValue(ParseGroups(host).value) < Pow2(128)
  {
    hide ParseGroups, GroupsValue, Pow2;
    AcceptedHaveSixteenBits(host);
    GroupsValueBound(ParseGroups(host).value);
  }

  lemma {:induction false} HextetValuesBound(parts: seq<string>)
    requires AllHextets(parts)
    ensures forall i :: 0 <= i < |parts| ==> Hextets(parts).value[i] < 0x1_0000
  {
    forall i | 0 <= i < |parts|
      ensures Hextets(parts).value[i] < 0x1_0000
    {
      HextetBound(parts[i]);
    }
  }

  lemma GroupsAreHextets(left: seq<string>, right: Option<seq<string>>, quad: Option<string>)
    requires Spelling(left, right, quad)
    ensures SixteenBits(Groups(left, right, quad))
  {
    HextetValuesBound(left);
    HextetValuesBound(right.GetOr([]));
    if quad.Some? { QuadBound(quad.value); }
    hide IsHextet, IsQuad, ParseQuad;
  }
}
