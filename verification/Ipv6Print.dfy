/** From numbers to the address forms of section 2.2 of RFC 4291 and back: what the parser of
    src/domain/protocols.ts makes of an address printed from its eight groups. */
module Ipv6Print {
  import opened Common
  import opened Text
  import opened Bits
  import opened Ipv6
  import Decimal

  // ------------------------------------------------------------ one group, one octet

  function HexChar(d: nat, upper: bool): (c: char)
    requires d < 16
  {
    if upper then "0123456789ABCDEF"[d] else "0123456789abcdef"[d]
  }

  /** The group in as many digits as there are cases: `upper[i]` is the case of digit i. */
  function HexPrint(group: nat, upper: seq<bool>): string {
    if upper == [] then ""
    else
      var last := |upper| - 1;
      HexPrint(group / 16, upper[..last]) + [HexChar(group % 16, upper[last])]
  }

  lemma HexCharReads(d: nat, upper: bool)
    requires d < 16
    ensures IsHex(HexChar(d, upper)) && HexDigit(HexChar(d, upper)) == d
  {
  }

  lemma {:induction false} HexPrintReads(group: nat, upper: seq<bool>)
    requires group < Pow2(4 * |upper|)
    ensures var s := HexPrint(group, upper); |s| == |upper| && AllHex(s) && HexValue(s) == group
  {
    if upper != [] {
      var last := |upper| - 1;
      var k := 4 * last;
      assert Pow2(k + 4) == 2 * Pow2(k + 3) == 4 * Pow2(k + 2) == 8 * Pow2(k + 1) == 16 * Pow2(k);
      hide Pow2, HexChar, HexDigit;
      HexPrintReads(group / 16, upper[..last]);
      HexCharReads(group % 16, upper[last]);
      var s := HexPrint(group, upper);
      assert s[..last] == HexPrint(group / 16, upper[..last]);
    }
  }

  /** The octet in `width` digits. */
  function OctetPrint(octet: nat, width: nat): string {
    if width == 0 then "" else OctetPrint(octet / 10, width - 1) + [Decimal.Digit(octet % 10)]
  }

  lemma DigitReads(d: nat)
    requires d < 10
    ensures IsDigit(Decimal.Digit(d)) && HexDigit(Decimal.Digit(d)) == d
  {
    Decimal.DigitReads(d);
  }

  lemma {:induction false} OctetPrintReads(octet: nat, width: nat)
    requires octet < Decimal.Pow10(width)
    ensures var s := OctetPrint(octet, width); |s| == width && AllDigits(s) && DecValue(s) == octet
  {
    if width > 0 {
      OctetPrintReads(octet / 10, width - 1);
      DigitReads(octet % 10);
      var s := OctetPrint(octet, width);
      assert s[..width - 1] == OctetPrint(octet / 10, width - 1);
    }
  }

  // ------------------------------------------------------------ a printed address

  /** How an address is written: the digits of each group, the zero groups left to "::", and
      the digits of each octet when the last two groups are a dotted quad. */
  datatype Form = Form(digits: seq<seq<bool>>, omitted: Option<Run>, octets: Option<seq<nat>>)

  datatype Run = Run(at: nat, length: nat)

  predicate IsGroup(group: nat) { group < 0x1_0000 }

  predicate AreGroups(groups: seq<nat>) {
    |groups| == 8 && forall i :: 0 <= i < 8 ==> IsGroup(groups[i])
  }

  /** One to four digits that are enough for the group. */
  predicate Enough(group: nat, upper: seq<bool>) {
    1 <= |upper| <= 4 && group < Pow2(4 * |upper|)
  }

  predicate EnoughForOctet(octet: nat, width: nat) {
    1 <= width <= 3 && octet < Decimal.Pow10(width)
  }

  /** How many groups are written as hextets, or left to "::". */
  function Hexes(form: Form): nat { if form.octets.Some? then 6 else 8 }

  predicate CanWrite(groups: seq<nat>, form: Form) {
    && AreGroups(groups) && |form.digits| == 8
    && (forall i :: 0 <= i < 8 ==> Enough(groups[i], form.digits[i]))
    && (form.omitted.Some? ==>
          && form.omitted.value.at + form.omitted.value.length <= Hexes(form)
          && forall i :: form.omitted.value.at <= i < form.omitted.value.at + form.omitted.value.length ==>
            groups[i] == 0)
    && (form.octets.Some? ==>
          && |form.octets.value| == 4
          && forall i :: 0 <= i < 4 ==> EnoughForOctet(Octets(groups)[i], form.octets.value[i]))
  }

  /** The four octets of the last two groups. */
  function Octets(groups: seq<nat>): (octets: seq<nat>)
    requires |groups| == 8
    ensures |octets| == 4
  {
    [groups[6] / 256, groups[6] % 256, groups[7] / 256, groups[7] % 256]
  }

  function Hextet(groups: seq<nat>, form: Form, i: nat): string
    requires i < |groups| && i < |form.digits|
  {
    HexPrint(groups[i], form.digits[i])
  }

  function HextetTexts(groups: seq<nat>, form: Form, from: nat, to: nat): (texts: seq<string>)
    requires from <= to <= |groups| && to <= |form.digits|
    ensures |texts| == to - from
    ensures forall i :: 0 <= i < to - from ==> texts[i] == Hextet(groups, form, from + i)
  {
    seq(to - from, i requires 0 <= i < to - from => Hextet(groups, form, from + i))
  }

  function OctetTexts(groups: seq<nat>, widths: seq<nat>): (texts: seq<string>)
    requires |groups| == 8 && |widths| == 4
    ensures |texts| == 4
  {
    var o := Octets(groups);
    [OctetPrint(o[0], widths[0]), OctetPrint(o[1], widths[1]), OctetPrint(o[2], widths[2]), OctetPrint(o[3], widths[3])]
  }

  function QuadText(groups: seq<nat>, form: Form): Option<string>
    requires CanWrite(groups, form)
  {
    if form.octets.None? then None else Some(Join(OctetTexts(groups, form.octets.value), '.'))
  }

  function Left(groups: seq<nat>, form: Form): seq<string>
    requires CanWrite(groups, form)
  {
    HextetTexts(groups, form, 0, if form.omitted.None? then Hexes(form) else form.omitted.value.at)
  }

  function Right(groups: seq<nat>, form: Form): Option<seq<string>>
    requires CanWrite(groups, form)
  {
    if form.omitted.None? then None
    else Some(HextetTexts(groups, form, form.omitted.value.at + form.omitted.value.length, Hexes(form)))
  }

  function PrintAddress(groups: seq<nat>, form: Form): string
    requires CanWrite(groups, form)
  {
    Print(Left(groups, form), Right(groups, form), QuadText(groups, form))
  }

  ghost predicate Reads(texts: seq<string>, groups: seq<nat>) {
    AllHextets(texts) && Hextets(texts) == Some(groups)
  }

  lemma HextetReads(groups: seq<nat>, form: Form, i: nat)
    requires CanWrite(groups, form) && i < 8
    ensures IsHextet(Hextet(groups, form, i)) && HexValue(Hextet(groups, form, i)) == groups[i]
  {
    assert Enough(groups[i], form.digits[i]);
    HexPrintReads(groups[i], form.digits[i]);
  }

  lemma HextetTextsRead(groups: seq<nat>, form: Form, from: nat, to: nat)
    requires CanWrite(groups, form) && from <= to <= 8
    ensures Reads(HextetTexts(groups, form, from, to), groups[from..to])
  {
    var texts := HextetTexts(groups, form, from, to);
    forall i | 0 <= i < |texts|
      ensures IsHextet(texts[i]) && HexValue(texts[i]) == groups[from..to][i]
    {
      HextetReads(groups, form, from + i);
    }
    hide IsHextet, HexValue, HextetTexts, CanWrite;
    assert Hextets(texts).Some?;
    assert Hextets(texts).value == groups[from..to];
  }

  lemma OctetReads(octet: nat, width: nat)
    requires octet < 256 && EnoughForOctet(octet, width)
    ensures var s := OctetPrint(octet, width); IsOctet(s) && DecValue(s) == octet && '.' !in s
  {
    OctetPrintReads(octet, width);
  }

  ghost predicate QuadReads(quad: string, high: nat, low: nat) {
    IsQuad(quad) && ParseQuad(quad) == Some([high, low])
  }

  ghost predicate ReadsAs(text: string, octet: nat) {
    IsOctet(text) && DecValue(text) == octet && '.' !in text
  }

  lemma JoinedOctetsRead(texts: seq<string>, o: seq<nat>)
    requires |texts| == 4 && |o| == 4 && forall i :: 0 <= i < 4 ==> ReadsAs(texts[i], o[i])
    ensures QuadReads(Join(texts, '.'), o[0] * 256 + o[1], o[2] * 256 + o[3])
  {
    assert ReadsAs(texts[0], o[0]) && ReadsAs(texts[1], o[1]) && ReadsAs(texts[2], o[2]) && ReadsAs(texts[3], o[3]);
    hide IsOctet, DecValue, Join, Split;
    SplitJoin(texts, '.');
    QuadOfOctets(Join(texts, '.'), texts, o);
    hide *;
  }

  lemma QuadOfOctets(quad: string, texts: seq<string>, o: seq<nat>)
    requires |texts| == 4 && |o| == 4 && Split(quad, '.') == texts
    requires forall i :: 0 <= i < 4 ==> ReadsAs(texts[i], o[i])
    ensures QuadReads(quad, o[0] * 256 + o[1], o[2] * 256 + o[3])
  {
    hide Split, IsOctet, DecValue;
    assert ReadsAs(texts[0], o[0]) && ReadsAs(texts[1], o[1]) && ReadsAs(texts[2], o[2]) && ReadsAs(texts[3], o[3]);
    hide ReadsAs;
    assert IsQuad(quad);
  }

  lemma OctetTextsRead(groups: seq<nat>, form: Form, i: nat)
    requires CanWrite(groups, form) && form.octets.Some? && i < 4
    ensures ReadsAs(OctetTexts(groups, form.octets.value)[i], Octets(groups)[i])
  {
    assert IsGroup(groups[6]) && IsGroup(groups[7]);
    assert EnoughForOctet(Octets(groups)[i], form.octets.value[i]);
    hide CanWrite, EnoughForOctet, IsOctet, DecValue, OctetPrint;
    OctetReads(Octets(groups)[i], form.octets.value[i]);
  }

  lemma QuadTextReads(groups: seq<nat>, form: Form)
    requires CanWrite(groups, form) && form.octets.Some?
    ensures QuadReads(QuadText(groups, form).value, groups[6], groups[7])
  {
    assert |groups| == 8 && |form.octets.value| == 4 && IsGroup(groups[6]) && IsGroup(groups[7]);
    hide ReadsAs, OctetTexts, QuadReads, Enough, EnoughForOctet;
    forall i | 0 <= i < 4
      ensures ReadsAs(OctetTexts(groups, form.octets.value)[i], Octets(groups)[i])
    {
      OctetTextsRead(groups, form, i);
    }
    JoinedOctetsRead(OctetTexts(groups, form.octets.value), Octets(groups));
  }

  lemma ZerosAreOmitted(groups: seq<nat>, from: nat, to: nat)
    requires from <= to <= |groups| && forall i :: from <= i < to ==> groups[i] == 0
    ensures groups[from..to] == Zeros(to - from)
  {
  }

  ghost predicate QuadIsRead(quad: Option<string>) {
    quad.Some? ==> IsQuad(quad.value)
  }

  /** `groups` written as `left`, a run of zeros, `right` and `quad`. */
  ghost predicate Laid(groups: seq<nat>, at: nat, on: nat, hexes: nat, quad: seq<nat>) {
    && |groups| == 8 && at <= on <= hexes <= 8
    && groups[at..on] == Zeros(on - at) && quad == groups[hexes..]
  }

  lemma LaidGroups(groups: seq<nat>, at: nat, on: nat, hexes: nat, quad: seq<nat>)
    requires Laid(groups, at, on, hexes, quad)
    ensures groups[..at] + Zeros(on - at) + groups[on..hexes] + quad == groups
  {
  }

  lemma LaidSpelling(left: seq<string>, right: Option<seq<string>>, quad: Option<string>, groups: seq<nat>,
                     at: nat, on: nat, hexes: nat)
    requires QuadIsRead(quad)
    requires Laid(groups, at, on, hexes, QuadGroups(quad)) && (right.None? ==> at == on == hexes)
    requires Reads(left, groups[..at]) && Reads(right.GetOr([]), groups[on..hexes])
    ensures Spelling(left, right, quad) && Groups(left, right, quad) == groups
  {
    hide IsQuad, QuadGroups, AllHextets, Zeros, HexValue, IsHextet, Hextets;
    LaidGroups(groups, at, on, hexes, QuadGroups(quad));
    assert |groups| == 8 && at <= on <= hexes <= 8 && |QuadGroups(quad)| == 8 - hexes;
    hide Laid;
    assert |Hextets(left).value| == at && |Hextets(right.GetOr([])).value| == hexes - on;
    HextetCount(left);
    HextetCount(right.GetOr([]));
  }

  lemma HextetCount(parts: seq<string>)
    ensures Hextets(parts).Some? ==> |Hextets(parts).value| == |parts|
  {
  }

  function Omitted(form: Form): Run {
    form.omitted.GetOr(Run(Hexes(form), 0))
  }

  lemma QuadTextIsTail(groups: seq<nat>, form: Form)
    requires CanWrite(groups, form)
    ensures var quad := QuadText(groups, form);
            QuadIsRead(quad) && QuadGroups(quad) == groups[Hexes(form)..]
  {
    if form.octets.Some? {
      QuadTextReads(groups, form);
      hide IsQuad, ParseQuad, QuadText;
      assert groups[6..] == [groups[6], groups[7]];
    }
  }

  lemma PrintIsLaid(groups: seq<nat>, form: Form)
    requires CanWrite(groups, form)
    ensures var run, quad := Omitted(form), QuadText(groups, form);
            && QuadIsRead(quad)
            && Laid(groups, run.at, run.at + run.length, Hexes(form), QuadGroups(quad))
  {
    var run := Omitted(form);
    ZerosAreOmitted(groups, run.at, run.at + run.length);
    QuadTextIsTail(groups, form);
    hide IsQuad, QuadGroups, QuadText, Zeros;
  }

  lemma PrintIsSpelling(groups: seq<nat>, form: Form)
    requires CanWrite(groups, form)
    ensures var left, right, quad := Left(groups, form), Right(groups, form), QuadText(groups, form);
            Spelling(left, right, quad) && Groups(left, right, quad) == groups
  {
    var run := Omitted(form);
    var on := run.at + run.length;
    assert on <= Hexes(form) <= 8 && |groups| == 8 && |form.digits| == 8;
    hide HextetTexts, QuadText, Laid, Reads, Spelling, Groups, CanWrite, IsQuad;
    PrintIsLaid(groups, form);
    HextetTextsRead(groups, form, 0, run.at);
    HextetTextsRead(groups, form, on, Hexes(form));
    assert Right(groups, form).GetOr([]) == HextetTexts(groups, form, on, Hexes(form));
    assert groups[0..run.at] == groups[..run.at];
    LaidSpelling(Left(groups, form), Right(groups, form), QuadText(groups, form), groups, run.at, on, Hexes(form));
  }

  /** Whatever its eight groups, and however it is written - any sufficient number of digits
      and either case in every group, any run of zero groups left to "::", the last two
      groups in hexadecimal or as a dotted quad - a printed address is read back group by
      group. */
  lemma PrintedAddressReadsBack(groups: seq<nat>, form: Form)
    requires CanWrite(groups, form)
    ensures ParseGroups(PrintAddress(groups, form)) == Some(groups)
  {
    PrintIsSpelling(groups, form);
    hide Left, Right, QuadText, Groups, Spelling, ParseGroups, Print;
    ParseInvertsPrinting(Left(groups, form), Right(groups, form), QuadText(groups, form));
  }

  // ------------------------------------------------------------ from the value

  /** The last `count` groups of a value, most significant first. */
  function GroupsOf(value: nat, count: nat): (groups: seq<nat>)
    ensures |groups| == count && forall i :: 0 <= i < count ==> IsGroup(groups[i])
  {
    if count == 0 then [] else GroupsOf(value / 0x1_0000, count - 1) + [value % 0x1_0000]
  }

  lemma {:induction false} GroupsHoldTheValue(value: nat, count: nat)
    requires value < Pow2(16 * count)
    ensures GroupsValue(GroupsOf(value, count)) == value
  {
    if count > 0 {
      Pow2Sum(16, 16 * (count - 1));
      Pow2Sixteen();
      GroupsHoldTheValue(value / 0x1_0000, count - 1);
      var groups := GroupsOf(value, count);
      assert groups[..count - 1] == GroupsOf(value / 0x1_0000, count - 1);
    }
  }

  /** Every value below 2^128, printed in any form, is what the parser returns for it. */
  lemma PrintedValueReadsBack(value: nat, form: Form)
    requires value < Pow2(128) && CanWrite(GroupsOf(value, 8), form)
    ensures var groups := ParseGroups(PrintAddress(GroupsOf(value, 8), form));
            groups.Some? && GroupsValue(groups.value) == value
  {
    GroupsHoldTheValue(value, 8);
    hide ParseGroups, PrintAddress, GroupsOf, CanWrite;
    PrintedAddressReadsBack(GroupsOf(value, 8), form);
  }

  /** Four digits of either case are always enough, so every value has a form. */
  lemma FullFormIsEnough(value: nat, upper: bool)
    ensures CanWrite(GroupsOf(value, 8), Form(seq(8, _ => seq(4, _ => upper)), None, None))
  {
    Pow2Sixteen();
    forall i | 0 <= i < 8
      ensures Enough(GroupsOf(value, 8)[i], seq(4, _ => upper))
    {
      assert IsGroup(GroupsOf(value, 8)[i]);
    }
  }

  // ------------------------------------------------------------ what parts there are

  /** An octet is one to three decimal digits that make at most 255, leading zeros allowed. */
  lemma OctetsAre(s: string)
    ensures IsOctet(s) <==>
              && (forall i :: 0 <= i < |s| ==> '0' <= s[i] <= '9')
              && (|s| == 1 || |s| == 2
                  || (|s| == 3 && 100 * (s[0] as int - '0' as int) + 10 * (s[1] as int - '0' as int)
                                  + (s[2] as int - '0' as int) <= 255))
  {
    if 1 <= |s| <= 3 && AllDigits(s) {
      assert forall i :: 0 <= i < |s| ==> IsDigit(s[i]);
      var a := s[..1];
      assert a[..0] == [] && DecValue(a) == HexDigit(s[0]);
      if |s| == 1 {
        assert s == a;
      } else {
        var b := s[..2];
        assert b[..1] == a && DecValue(b) == HexDigit(s[0]) * 10 + HexDigit(s[1]);
        if |s| == 2 { assert s == b; } else { assert s[..|s| - 1] == b; }
      }
    }
  }

  /** A group is one to four hexadecimal digits of either case. */
  lemma HextetsAre(s: string)
    ensures IsHextet(s) <==>
              && 1 <= |s| <= 4
              && forall i :: 0 <= i < |s| ==> '0' <= s[i] <= '9' || 'a' <= s[i] <= 'f' || 'A' <= s[i] <= 'F'
  {
  }
}
