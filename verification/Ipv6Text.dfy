/** expandIpv6 of avatarUrl.guard.ts, and the text forms of section 2.2 of RFC 4291. */
module Ipv6Text {
  import opened Wrappers
  import opened Text

  // ---------------------------------------------------------------------
  // Hexadecimal groups
  // ---------------------------------------------------------------------

  predicate IsHexDigit(c: char) {
    IsDigit(c) || 'a' <= c <= 'f'
  }

  /** /^[0-9a-f]{1,4}$/ */
  predicate IsHexGroup(s: string) {
    1 <= |s| <= 4 && forall i | 0 <= i < |s| :: IsHexDigit(s[i])
  }

  function HexDigitValue(c: char): nat
    requires IsHexDigit(c)
  {
    if IsDigit(c) then c as int - '0' as int else c as int - 'a' as int + 10
  }

  /** parseInt(s, 16) */
  function HexValue(s: string): nat
    requires forall i | 0 <= i < |s| :: IsHexDigit(s[i])
  {
    if s == [] then 0 else 16 * HexValue(s[..|s| - 1]) + HexDigitValue(s[|s| - 1])
  }

  function HexDigit(v: nat): (c: char)
    requires v < 16
    ensures IsHexDigit(c) && HexDigitValue(c) == v
  {
    if v < 10 then ('0' as int + v) as char else ('a' as int + v - 10) as char
  }

  /** n.toString(16) */
  function HexText(n: nat): (s: string)
    ensures s != [] && forall i | 0 <= i < |s| :: IsHexDigit(s[i])
  {
    if n < 16 then [HexDigit(n)] else HexText(n / 16) + [HexDigit(n % 16)]
  }

  lemma {:induction false} HexTextValue(n: nat)
    ensures HexValue(HexText(n)) == n
    ensures n < 16 ==> |HexText(n)| == 1
    ensures n < 256 ==> |HexText(n)| <= 2
    ensures n < 4096 ==> |HexText(n)| <= 3
    ensures n < 65536 ==> IsHexGroup(HexText(n))
  {
    if n >= 16 {
      HexTextValue(n / 16);
      assert HexText(n)[..|HexText(n)| - 1] == HexText(n / 16);
    }
  }

  // ---------------------------------------------------------------------
  // The code
  // ---------------------------------------------------------------------

  /** lastIndexOf(":"), -1 when there is none. */
  function LastColon(s: string): (i: int)
    ensures -1 <= i < |s|
  {
    if s == [] then -1
    else if s[|s| - 1] == ':' then |s| - 1
    else LastColon(s[..|s| - 1])
  }

  /** split("::") */
  function SplitPairs(s: string): (sides: seq<string>)
    ensures sides != []
  {
    if s == [] then [""]
    else if |s| >= 2 && s[0] == ':' && s[1] == ':' then [""] + SplitPairs(s[2..])
    else
      var rest := SplitPairs(s[1..]);
      [[s[0]] + rest[0]] + rest[1..]
  }

  /** Number(octet), when it is an integer from 0 to 255. */
  function OctetValue(octet: string): Option<nat> {
    if AllDigits(octet) && Decimal(octet) <= 255 then Some(Decimal(octet)) else None
  }

  /** Four octets as two hexadecimal groups. */
  function OctetGroups(octets: seq<string>): Option<string> {
    if |octets| != 4 || (exists i | 0 <= i < 4 :: OctetValue(octets[i]).None?) then None
    else
      var byte := i requires 0 <= i < 4 => OctetValue(octets[i]).value;
      Some(HexText(256 * byte(0) + byte(1)) + ":" + HexText(256 * byte(2) + byte(3)))
  }

  /** A dotted tail becomes two groups. */
  function WithoutQuad(addr: string): Option<string> {
    var lastColon := LastColon(addr);
    var tail := addr[lastColon + 1..];
    if '.' !in tail then Some(addr)
    else
      match OctetGroups(Split(tail, '.'))
      case None => None
      case Some(groups) => Some(addr[..lastColon + 1] + groups)
  }

  function Parts(side: string): seq<string> {
    if side == "" then [] else Split(side, ':')
  }

  function Zeros(n: nat): seq<string> {
    seq(n, _ => "0")
  }

  /** The eight group texts, the "::" filled in. */
  function FillGap(sides: seq<string>): Option<seq<string>>
    requires sides != []
  {
    if |sides| > 2 then None
    else
      var head := Parts(sides[0]);
      if |sides| == 1 then
        if |head| == 8 then Some(head) else None
      else
        var tail := Parts(sides[1]);
        var missing := 8 - |head| - |tail|;
        if missing < 0 then None else Some(head + Zeros(missing) + tail)
  }

  function GroupTexts(addr: string): Option<seq<string>> {
    FillGap(SplitPairs(addr))
  }

  function Values(texts: seq<string>): Option<seq<nat>> {
    if exists i | 0 <= i < |texts| :: !IsHexGroup(texts[i]) then None
    else Some(seq(|texts|, i requires 0 <= i < |texts| => HexValue(texts[i])))
  }

  function ExpandIpv6(address: string): Option<seq<nat>> {
    match WithoutQuad(Lower(address))
    case None => None
    case Some(addr) =>
      match GroupTexts(addr)
      case None => None
      case Some(texts) => Values(texts)
  }

  // ---------------------------------------------------------------------
  // Legal spellings
  // ---------------------------------------------------------------------

  datatype Quad = Quad(a: nat, b: nat, c: nat, d: nat) {
    predicate Valid() {
      a < 256 && b < 256 && c < 256 && d < 256
    }

    function Dotted(): string {
      Join([Digits(a), Digits(b), Digits(c), Digits(d)], '.')
    }
  }

  /** Groups before a possible "::", groups after it, and a possible dotted tail. */
  datatype Spelling = Spelling(before: seq<string>, gap: bool, after: seq<string>, quad: Option<Quad>)

  function DottedTail(sp: Spelling): seq<string> {
    if sp.quad.Some? then [sp.quad.value.Dotted()] else []
  }

  function Print(sp: Spelling): string {
    if sp.gap then Join(sp.before, ':') + "::" + Join(sp.after + DottedTail(sp), ':')
    else Join(sp.before + DottedTail(sp), ':')
  }

  /** One to four hexadecimal digits, in either case, padded or not. */
  predicate SpellsGroup(text: string, value: nat) {
    IsHexGroup(Lower(text)) && HexValue(Lower(text)) == value
  }

  predicate SpellsGroups(texts: seq<string>, values: seq<nat>) {
    |texts| == |values| && forall i | 0 <= i < |texts| :: SpellsGroup(texts[i], values[i])
  }

  function TailLength(sp: Spelling): nat {
    |sp.after| + if sp.quad.Some? then 2 else 0
  }

  /** The spelling is legal and stands for the eight groups. */
  predicate Spells(sp: Spelling, groups: seq<nat>) {
    var nb, nt := |sp.before|, TailLength(sp);
    && |groups| == 8
    && (if sp.gap then nb + nt <= 7 && forall i | nb <= i < 8 - nt :: groups[i] == 0
        else nb + nt == 8 && sp.after == [])
    && SpellsGroups(sp.before, groups[..nb])
    && SpellsGroups(sp.after, groups[8 - nt..8 - nt + |sp.after|])
    && (sp.quad.Some? ==>
          && sp.quad.value.Valid()
          && groups[6] == 256 * sp.quad.value.a + sp.quad.value.b
          && groups[7] == 256 * sp.quad.value.c + sp.quad.value.d)
  }

  // ---------------------------------------------------------------------
  // Splitting at "::"
  // ---------------------------------------------------------------------

  predicate IsJoinable(parts: seq<string>) {
    forall i | 0 <= i < |parts| :: parts[i] != "" && ':' !in parts[i]
  }

  predicate NoPair(s: string) {
    forall i | 0 <= i < |s| - 1 :: s[i] != ':' || s[i + 1] != ':'
  }

  predicate ColonFreeEnds(s: string) {
    s != "" ==> s[0] != ':' && s[|s| - 1] != ':'
  }

  lemma {:induction false} JoinedHasNoPair(parts: seq<string>)
    requires IsJoinable(parts)
    ensures NoPair(Join(parts, ':')) && ColonFreeEnds(Join(parts, ':'))
    ensures Join(parts, ':') == "" <==> parts == []
  {
    if |parts| == 1 {
      assert forall i | 0 <= i < |parts[0]| :: parts[0][i] in parts[0];
    } else if |parts| > 1 {
      var first, rest := parts[0], Join(parts[1..], ':');
      JoinedHasNoPair(parts[1..]);
      assert forall i | 0 <= i < |first| :: first[i] in first;
      var s := Join(parts, ':');
      assert s == first + ":" + rest;
      forall i | 0 <= i < |s| - 1 ensures s[i] != ':' || s[i + 1] != ':' {
        if i < |first| { assert s[i] == first[i]; }
        else if i == |first| { assert s[i + 1] == rest[0]; }
        else { assert s[i] == rest[i - |first| - 1] && s[i + 1] == rest[i - |first|]; }
      }
    }
  }

  lemma {:induction false} NoPairStaysWhole(s: string)
    requires NoPair(s)
    ensures SplitPairs(s) == [s]
  {
    if s != "" {
      assert NoPair(s[1..]) by {
        forall i | 0 <= i < |s[1..]| - 1 ensures s[1..][i] != ':' || s[1..][i + 1] != ':' {
          assert s[1..][i] == s[i + 1] && s[1..][i + 1] == s[i + 2];
        }
      }
      NoPairStaysWhole(s[1..]);
      assert |s| >= 2 ==> s[0] != ':' || s[1] != ':';
      assert [s[0]] + s[1..] == s;
    }
  }

  lemma {:induction false} SplitsAtPair(a: string, b: string)
    requires NoPair(a) && (a != "" ==> a[|a| - 1] != ':')
    ensures SplitPairs(a + "::" + b) == [a] + SplitPairs(b)
  {
    var s := a + "::" + b;
    if a == "" {
      assert s[2..] == b;
    } else {
      assert s[1..] == a[1..] + "::" + b;
      assert NoPair(a[1..]) by {
        forall i | 0 <= i < |a[1..]| - 1 ensures a[1..][i] != ':' || a[1..][i + 1] != ':' {
          assert a[1..][i] == a[i + 1] && a[1..][i + 1] == a[i + 2];
        }
      }
      assert a[1..] != "" ==> a[1..][|a[1..]| - 1] == a[|a| - 1];
      SplitsAtPair(a[1..], b);
      assert !(s[0] == ':' && s[1] == ':') by { if |a| > 1 { assert s[0] == a[0] && s[1] == a[1]; } }
      assert ([a[1..]] + SplitPairs(b))[1..] == SplitPairs(b);
      assert [s[0]] + a[1..] == a;
    }
  }

  lemma PartsOfJoin(parts: seq<string>)
    requires IsJoinable(parts)
    ensures Parts(Join(parts, ':')) == parts
  {
    JoinedHasNoPair(parts);
    if parts != [] { SplitJoin(parts, ':'); }
  }

  lemma GroupsOfWhole(parts: seq<string>)
    requires IsJoinable(parts) && |parts| == 8
    ensures GroupTexts(Join(parts, ':')) == Some(parts)
  {
    JoinedHasNoPair(parts);
    NoPairStaysWhole(Join(parts, ':'));
    PartsOfJoin(parts);
  }

  lemma SidesOfGap(before: seq<string>, after: seq<string>)
    requires IsJoinable(before) && IsJoinable(after)
    ensures SplitPairs(Join(before, ':') + "::" + Join(after, ':')) == [Join(before, ':'), Join(after, ':')]
  {
    JoinedHasNoPair(before);
    JoinedHasNoPair(after);
    SplitsAtPair(Join(before, ':'), Join(after, ':'));
    NoPairStaysWhole(Join(after, ':'));
  }

  lemma GapFilled(a: string, b: string, before: seq<string>, after: seq<string>)
    requires Parts(a) == before && Parts(b) == after && |before| + |after| <= 8
    ensures FillGap([a, b]) == Some(before + Zeros(8 - |before| - |after|) + after)
  {
  }

  lemma GroupsOfGap(before: seq<string>, after: seq<string>)
    requires IsJoinable(before) && IsJoinable(after) && |before| + |after| <= 8
    ensures GroupTexts(Join(before, ':') + "::" + Join(after, ':'))
         == Some(before + Zeros(8 - |before| - |after|) + after)
  {
    SidesOfGap(before, after);
    PartsOfJoin(before);
    PartsOfJoin(after);
    GapFilled(Join(before, ':'), Join(after, ':'), before, after);
  }

  // ---------------------------------------------------------------------
  // Lower case, and the dotted tail
  // ---------------------------------------------------------------------

  function LowerAll(parts: seq<string>): (r: seq<string>)
    ensures |r| == |parts|
  {
    seq(|parts|, i requires 0 <= i < |parts| => Lower(parts[i]))
  }

  lemma LowerConcat(a: string, b: string)
    ensures Lower(a + b) == Lower(a) + Lower(b)
  {
  }

  lemma {:induction false} LowerJoin(parts: seq<string>, sep: char)
    requires LowerChar(sep) == sep
    ensures Lower(Join(parts, sep)) == Join(LowerAll(parts), sep)
  {
    if |parts| > 1 {
      LowerJoin(parts[1..], sep);
      LowerConcat(parts[0] + [sep], Join(parts[1..], sep));
      LowerConcat(parts[0], [sep]);
      assert LowerAll(parts)[1..] == LowerAll(parts[1..]);
    }
  }

  lemma {:induction false} JoinSnoc(parts: seq<string>, last: string, sep: char)
    ensures Join(parts + [last], sep) == if parts == [] then last else Join(parts, sep) + [sep] + last
  {
    if |parts| > 1 {
      JoinSnoc(parts[1..], last, sep);
      assert (parts + [last])[1..] == parts[1..] + [last];
    }
  }

  /** A character of a joined text is the separator or comes from a part. */
  lemma {:induction false} JoinWithout(parts: seq<string>, sep: char, c: char)
    requires c != sep && forall i | 0 <= i < |parts| :: c !in parts[i]
    ensures c !in Join(parts, sep)
  {
    if |parts| > 1 { JoinWithout(parts[1..], sep, c); }
  }

  lemma LastColonAt(pre: string, tail: string)
    requires pre != "" && pre[|pre| - 1] == ':' && ':' !in tail
    ensures LastColon(pre + tail) == |pre| - 1
    decreases |tail|
  {
    if tail == "" {
      assert pre + tail == pre;
    } else {
      var n := |tail| - 1;
      assert (pre + tail)[..|pre + tail| - 1] == pre + tail[..n];
      LastColonAt(pre, tail[..n]);
    }
  }

  lemma DigitsHold(n: nat, c: char)
    requires !IsDigit(c)
    ensures c !in Digits(n)
  {
    var s := Digits(n);
    assert forall i | 0 <= i < |s| :: IsDigit(s[i]);
  }

  lemma LowerNumeral(s: string)
    requires AllDigits(s)
    ensures Lower(s) == s
  {
    assert forall i | 0 <= i < |s| :: IsDigit(s[i]);
  }

  lemma DottedChars(q: Quad)
    ensures ':' !in q.Dotted() && '.' in q.Dotted() && Lower(q.Dotted()) == q.Dotted()
  {
    var parts := [Digits(q.a), Digits(q.b), Digits(q.c), Digits(q.d)];
    var rest := Join(parts[1..], '.');
    assert q.Dotted() == parts[0] + "." + rest;
    assert q.Dotted()[|parts[0]|] == '.';
    DigitsHold(q.a, ':');
    DigitsHold(q.b, ':');
    DigitsHold(q.c, ':');
    DigitsHold(q.d, ':');
    JoinWithout(parts, '.', ':');
    LowerJoin(parts, '.');
    forall i | 0 <= i < 4 ensures Lower(parts[i]) == parts[i] { LowerNumeral(parts[i]); }
    assert LowerAll(parts) == parts;
  }

  lemma DottedSplits(q: Quad)
    requires q.Valid()
    ensures Split(q.Dotted(), '.') == [Digits(q.a), Digits(q.b), Digits(q.c), Digits(q.d)]
    ensures OctetValue(Digits(q.a)) == Some(q.a) && OctetValue(Digits(q.b)) == Some(q.b)
    ensures OctetValue(Digits(q.c)) == Some(q.c) && OctetValue(Digits(q.d)) == Some(q.d)
  {
    var parts := [Digits(q.a), Digits(q.b), Digits(q.c), Digits(q.d)];
    DigitsHold(q.a, '.');
    DigitsHold(q.b, '.');
    DigitsHold(q.c, '.');
    DigitsHold(q.d, '.');
    SplitJoin(parts, '.');
    DecimalDigits(q.a);
    DecimalDigits(q.b);
    DecimalDigits(q.c);
    DecimalDigits(q.d);
  }

  function High(q: Quad): string {
    HexText(256 * q.a + q.b)
  }

  function Low(q: Quad): string {
    HexText(256 * q.c + q.d)
  }

  lemma OctetsBecomeGroups(q: Quad)
    requires q.Valid()
    ensures OctetGroups(Split(q.Dotted(), '.')) == Some(High(q) + ":" + Low(q))
  {
    DottedSplits(q);
  }

  lemma QuadBecomesGroups(pre: string, q: Quad)
    requires q.Valid() && pre != "" && pre[|pre| - 1] == ':'
    ensures WithoutQuad(pre + q.Dotted()) == Some(pre + (High(q) + ":" + Low(q)))
  {
    DottedChars(q);
    OctetsBecomeGroups(q);
    LastColonAt(pre, q.Dotted());
    var addr := pre + q.Dotted();
    assert addr[LastColon(addr) + 1..] == q.Dotted() && addr[..LastColon(addr) + 1] == pre;
  }

  lemma NoDotsNoQuad(addr: string)
    requires '.' !in addr
    ensures WithoutQuad(addr) == Some(addr)
  {
  }

  // ---------------------------------------------------------------------
  // expandIpv6 inverts printing
  // ---------------------------------------------------------------------

  function QuadGroups(sp: Spelling): seq<string> {
    if sp.quad.Some? then [High(sp.quad.value), Low(sp.quad.value)] else []
  }

  /** The text in lower case, the dotted tail written as two groups. */
  function PlainBefore(sp: Spelling): seq<string> {
    if sp.gap then LowerAll(sp.before) else LowerAll(sp.before) + QuadGroups(sp)
  }

  function PlainAfter(sp: Spelling): seq<string> {
    if sp.gap then LowerAll(sp.after) + QuadGroups(sp) else []
  }

  function PlainPrint(sp: Spelling): string {
    if sp.gap then Join(PlainBefore(sp), ':') + "::" + Join(PlainAfter(sp), ':') else Join(PlainBefore(sp), ':')
  }

  function PlainTexts(sp: Spelling): seq<string>
    requires |PlainBefore(sp)| + |PlainAfter(sp)| <= 8
  {
    PlainBefore(sp) + Zeros(8 - |PlainBefore(sp)| - |PlainAfter(sp)|) + PlainAfter(sp)
  }

  lemma PlainLengths(sp: Spelling, groups: seq<nat>)
    requires Spells(sp, groups)
    ensures |PlainBefore(sp)| + |PlainAfter(sp)| <= 8
    ensures !sp.gap ==> |PlainBefore(sp)| == 8
    ensures |PlainTexts(sp)| == 8
  {
  }

  lemma QuadGroupsHaveValues(q: Quad)
    requires q.Valid()
    ensures IsHexGroup(High(q)) && HexValue(High(q)) == 256 * q.a + q.b
    ensures IsHexGroup(Low(q)) && HexValue(Low(q)) == 256 * q.c + q.d
  {
    HexTextValue(256 * q.a + q.b);
    HexTextValue(256 * q.c + q.d);
  }

  predicate HasValue(text: string, value: nat) {
    IsHexGroup(text) && HexValue(text) == value
  }

  lemma PlainHead(sp: Spelling, groups: seq<nat>, i: nat)
    requires Spells(sp, groups) && i < |sp.before|
    ensures HasValue(Lower(sp.before[i]), groups[i])
  {
    assert SpellsGroup(sp.before[i], groups[..|sp.before|][i]);
  }

  lemma PlainTail(sp: Spelling, groups: seq<nat>, k: nat)
    requires Spells(sp, groups) && k < |sp.after|
    ensures HasValue(Lower(sp.after[k]), groups[8 - TailLength(sp) + k])
  {
    var nt := TailLength(sp);
    assert SpellsGroup(sp.after[k], groups[8 - nt..8 - nt + |sp.after|][k]);
  }

  lemma PlainQuad(sp: Spelling, groups: seq<nat>, m: nat)
    requires Spells(sp, groups) && m < |QuadGroups(sp)|
    ensures HasValue(QuadGroups(sp)[m], groups[6 + m])
  {
    QuadGroupsHaveValues(sp.quad.value);
    if m == 0 {
      assert QuadGroups(sp)[m] == High(sp.quad.value);
    } else {
      assert QuadGroups(sp)[m] == Low(sp.quad.value);
    }
  }

  lemma GapText(sp: Spelling, i: nat)
    requires sp.gap && |sp.before| + TailLength(sp) <= 8 && i < 8
    ensures |PlainTexts(sp)| == 8
    ensures var nt := TailLength(sp);
            PlainTexts(sp)[i] == if i < |sp.before| then Lower(sp.before[i])
                                 else if i < 8 - nt then "0"
                                 else (LowerAll(sp.after) + QuadGroups(sp))[i - (8 - nt)]
  {
  }

  lemma WholeText(sp: Spelling, i: nat)
    requires !sp.gap && sp.after == [] && |sp.before| + TailLength(sp) == 8 && i < 8
    ensures |PlainTexts(sp)| == 8
    ensures PlainTexts(sp)[i] == (LowerAll(sp.before) + QuadGroups(sp))[i]
  {
    assert PlainTexts(sp) == PlainBefore(sp);
  }

  /** Given the value of each part, that of each text. */
  lemma GapValue(sp: Spelling, groups: seq<nat>, i: nat)
    requires sp.gap && |groups| == 8 && |sp.before| + TailLength(sp) <= 8 && i < |PlainTexts(sp)| == 8
    requires forall k | 0 <= k < |sp.before| :: HasValue(Lower(sp.before[k]), groups[k])
    requires forall k | |sp.before| <= k < 8 - TailLength(sp) :: groups[k] == 0
    requires forall k | 0 <= k < |sp.after| :: HasValue(Lower(sp.after[k]), groups[8 - TailLength(sp) + k])
    requires forall m | 0 <= m < |QuadGroups(sp)| :: HasValue(QuadGroups(sp)[m], groups[6 + m])
    ensures HasValue(PlainTexts(sp)[i], groups[i])
  {
    var nt := TailLength(sp);
    GapText(sp, i);
    assert HasValue("0", 0);
    if i >= 8 - nt + |sp.after| {
      assert HasValue(QuadGroups(sp)[i - 6], groups[6 + (i - 6)]);
    } else if i >= 8 - nt {
      assert HasValue(Lower(sp.after[i - (8 - nt)]), groups[8 - nt + (i - (8 - nt))]);
    }
  }

  lemma PlainParts(sp: Spelling, groups: seq<nat>)
    requires Spells(sp, groups)
    ensures forall k | 0 <= k < |sp.before| :: HasValue(Lower(sp.before[k]), groups[k])
    ensures forall k | 0 <= k < |sp.after| :: HasValue(Lower(sp.after[k]), groups[8 - TailLength(sp) + k])
    ensures forall m | 0 <= m < |QuadGroups(sp)| :: HasValue(QuadGroups(sp)[m], groups[6 + m])
  {
    forall k | 0 <= k < |sp.before| ensures HasValue(Lower(sp.before[k]), groups[k]) { PlainHead(sp, groups, k); }
    forall k | 0 <= k < |sp.after| ensures HasValue(Lower(sp.after[k]), groups[8 - TailLength(sp) + k]) {
      PlainTail(sp, groups, k);
    }
    forall m | 0 <= m < |QuadGroups(sp)| ensures HasValue(QuadGroups(sp)[m], groups[6 + m]) {
      PlainQuad(sp, groups, m);
    }
  }

  lemma WholeValue(sp: Spelling, groups: seq<nat>, i: nat)
    requires Spells(sp, groups) && !sp.gap && i < |PlainTexts(sp)| == 8
    ensures HasValue(PlainTexts(sp)[i], groups[i])
  {
    WholeText(sp, i);
    if i < |sp.before| { PlainHead(sp, groups, i); } else { PlainQuad(sp, groups, i - 6); }
  }

  /** Each of the eight texts is a group of hexadecimal digits with its value. */
  lemma PlainValue(sp: Spelling, groups: seq<nat>, i: nat)
    requires Spells(sp, groups) && i < 8
    requires |PlainBefore(sp)| + |PlainAfter(sp)| <= 8 && |PlainTexts(sp)| == 8
    ensures HasValue(PlainTexts(sp)[i], groups[i])
  {
    PlainParts(sp, groups);
    if sp.gap { GapValue(sp, groups, i); } else { WholeValue(sp, groups, i); }
  }

  lemma GroupsAreJoinable(parts: seq<string>)
    requires forall i | 0 <= i < |parts| :: IsHexGroup(parts[i])
    ensures IsJoinable(parts) && '.' !in Join(parts, ':')
  {
    forall i, c | 0 <= i < |parts| && c in parts[i] ensures IsHexDigit(c) {
      assert exists k :: 0 <= k < |parts[i]| && parts[i][k] == c;
    }
    JoinWithout(parts, ':', '.');
  }

  lemma PlainIsJoinable(sp: Spelling, groups: seq<nat>)
    requires Spells(sp, groups)
    ensures IsJoinable(PlainBefore(sp)) && IsJoinable(PlainAfter(sp)) && '.' !in PlainPrint(sp)
  {
    PlainLengths(sp, groups);
    var before, after, texts := PlainBefore(sp), PlainAfter(sp), PlainTexts(sp);
    forall i | 0 <= i < |before| ensures IsHexGroup(before[i]) {
      PlainValue(sp, groups, i);
      assert texts[i] == before[i];
    }
    forall i | 0 <= i < |after| ensures IsHexGroup(after[i]) {
      PlainValue(sp, groups, 8 - |after| + i);
      assert texts[8 - |after| + i] == after[i];
    }
    GroupsAreJoinable(before);
    GroupsAreJoinable(after);
  }

  lemma LowerSnoc(parts: seq<string>, sp: Spelling)
    ensures Lower(Join(parts + DottedTail(sp), ':')) == Join(LowerAll(parts) + DottedTail(sp), ':')
  {
    LowerJoin(parts + DottedTail(sp), ':');
    if sp.quad.Some? { DottedChars(sp.quad.value); }
    assert LowerAll(parts + DottedTail(sp)) == LowerAll(parts) + DottedTail(sp);
  }

  /** What goes before the part that may end in a dotted quad, and that part. */
  function PrintHead(sp: Spelling): string {
    if sp.gap then Join(LowerAll(sp.before), ':') + "::" else ""
  }

  function PrintParts(sp: Spelling): seq<string> {
    LowerAll(if sp.gap then sp.after else sp.before)
  }

  lemma LowerPrint(sp: Spelling)
    ensures Lower(Print(sp)) == PrintHead(sp) + Join(PrintParts(sp) + DottedTail(sp), ':')
  {
    LowerSnoc(if sp.gap then sp.after else sp.before, sp);
    if sp.gap {
      LowerJoin(sp.before, ':');
      LowerConcat(Join(sp.before, ':'), "::");
      LowerConcat(Join(sp.before, ':') + "::", Join(sp.after + DottedTail(sp), ':'));
      assert Lower("::") == "::";
    } else {
      assert PrintHead(sp) + Join(PrintParts(sp) + DottedTail(sp), ':') == Join(PrintParts(sp) + DottedTail(sp), ':');
    }
  }

  lemma PlainPrintIs(sp: Spelling)
    ensures PlainPrint(sp) == PrintHead(sp) + Join(PrintParts(sp) + QuadGroups(sp), ':')
  {
    if !sp.gap {
      assert PrintHead(sp) + Join(PrintParts(sp) + QuadGroups(sp), ':') == Join(PrintParts(sp) + QuadGroups(sp), ':');
    }
  }

  function UpTo(head: string, parts: seq<string>): string {
    if parts == [] then head else head + Join(parts, ':') + ":"
  }

  lemma EndsWithOne(head: string, parts: seq<string>, x: string)
    ensures head + Join(parts + [x], ':') == UpTo(head, parts) + x
  {
    JoinSnoc(parts, x, ':');
  }

  lemma EndsWithTwo(head: string, parts: seq<string>, x: string, y: string)
    ensures head + Join(parts + [x, y], ':') == UpTo(head, parts) + (x + ":" + y)
  {
    assert parts + [x, y] == (parts + [x]) + [y];
    EndsWithOne(head, parts + [x], y);
    EndsWithOne(head, parts, x);
    assert UpTo(head, parts + [x]) == head + Join(parts + [x], ':') + ":";
    assert UpTo(head, parts) + x + ":" + y == UpTo(head, parts) + (x + ":" + y);
  }

  lemma QuadAtTheEnd(head: string, parts: seq<string>, q: Quad)
    requires q.Valid()
    requires parts == [] ==> head != "" && head[|head| - 1] == ':'
    ensures WithoutQuad(head + Join(parts + [q.Dotted()], ':')) == Some(head + Join(parts + [High(q), Low(q)], ':'))
  {
    EndsWithOne(head, parts, q.Dotted());
    EndsWithTwo(head, parts, High(q), Low(q));
    QuadBecomesGroups(UpTo(head, parts), q);
  }

  /** Lower case and the dotted tail out of the way, plain groups are left. */
  lemma PrintedPlain(sp: Spelling, groups: seq<nat>)
    requires Spells(sp, groups)
    ensures WithoutQuad(Lower(Print(sp))) == Some(PlainPrint(sp))
  {
    LowerPrint(sp);
    PlainPrintIs(sp);
    if sp.quad.Some? {
      QuadAtTheEnd(PrintHead(sp), PrintParts(sp), sp.quad.value);
    } else {
      assert PrintParts(sp) + DottedTail(sp) == PrintParts(sp) + QuadGroups(sp);
      PlainIsJoinable(sp, groups);
      NoDotsNoQuad(PlainPrint(sp));
    }
  }

  lemma PlainGroups(sp: Spelling, groups: seq<nat>)
    requires Spells(sp, groups)
    requires |PlainBefore(sp)| + |PlainAfter(sp)| <= 8
    ensures GroupTexts(PlainPrint(sp)) == Some(PlainTexts(sp))
  {
    PlainLengths(sp, groups);
    PlainIsJoinable(sp, groups);
    if sp.gap { PlainGap(sp); } else { PlainWhole(sp); }
  }

  lemma PlainGap(sp: Spelling)
    requires sp.gap && |PlainBefore(sp)| + |PlainAfter(sp)| <= 8
    requires IsJoinable(PlainBefore(sp)) && IsJoinable(PlainAfter(sp))
    ensures GroupTexts(PlainPrint(sp)) == Some(PlainTexts(sp))
  {
    var before, after := PlainBefore(sp), PlainAfter(sp);
    assert PlainPrint(sp) == Join(before, ':') + "::" + Join(after, ':');
    assert PlainTexts(sp) == before + Zeros(8 - |before| - |after|) + after;
    GroupsOfGap(before, after);
  }

  lemma PlainWhole(sp: Spelling)
    requires !sp.gap && |PlainBefore(sp)| == 8 && IsJoinable(PlainBefore(sp))
    ensures GroupTexts(PlainPrint(sp)) == Some(PlainTexts(sp))
  {
    GroupsOfWhole(PlainBefore(sp));
    assert PlainTexts(sp) == PlainBefore(sp);
  }

  lemma PlainValues(sp: Spelling, groups: seq<nat>, texts: seq<string>)
    requires Spells(sp, groups) && |PlainBefore(sp)| + |PlainAfter(sp)| <= 8
    requires texts == PlainTexts(sp) && |texts| == 8
    ensures Values(texts) == Some(groups)
  {
    forall i | 0 <= i < 8 ensures HasValue(texts[i], groups[i]) {
      PlainValue(sp, groups, i);
    }
    ValuesOf(texts, groups);
  }

  lemma ValuesOf(texts: seq<string>, groups: seq<nat>)
    requires |texts| == |groups| && forall i | 0 <= i < |texts| :: HasValue(texts[i], groups[i])
    ensures Values(texts) == Some(groups)
  {
    assert Values(texts).value == groups;
  }

  lemma ExpandsTo(address: string, addr: string, texts: seq<string>, groups: seq<nat>)
    requires WithoutQuad(Lower(address)) == Some(addr) && GroupTexts(addr) == Some(texts)
    requires Values(texts) == Some(groups)
    ensures ExpandIpv6(address) == Some(groups)
  {
  }

  /** Whatever legal spelling an address comes in, its eight groups come back. */
  lemma ExpandInverts(sp: Spelling, groups: seq<nat>)
    requires Spells(sp, groups)
    ensures ExpandIpv6(Print(sp)) == Some(groups)
  {
    PrintedPlain(sp, groups);
    PlainLengths(sp, groups);
    PlainGroups(sp, groups);
    PlainValues(sp, groups, PlainTexts(sp));
    ExpandsTo(Print(sp), PlainPrint(sp), PlainTexts(sp), groups);
  }

  /** Every spelling holds a colon, which no dotted quad does. */
  lemma PrintHoldsColon(sp: Spelling, groups: seq<nat>)
    requires Spells(sp, groups)
    ensures ':' in Print(sp)
  {
    var parts := sp.before + DottedTail(sp);
    if sp.gap {
      assert Print(sp)[|Join(sp.before, ':')|] == ':';
    } else {
      assert |parts| >= 2;
      assert Print(sp)[|parts[0]|] == ':';
    }
  }
}
