/**
 isPublicAddress of avatarUrl.guard.ts: the code's masks and its walk through the
 tables, against "outside the union of the listed blocks" on 32-bit and 128-bit
 numbers.
 */
module PublicAddress {
  import opened Wrappers
  import opened Text
  import opened Bits
  import opened Ipv6Text
  import opened Ipv6Prefix

  // ---------------------------------------------------------------------
  // IPv4
  // ---------------------------------------------------------------------

  /** No block is everything: shifting by 32 does not shift in the code. */
  datatype AnyBlock4 = Block4(base: Quad, bits: nat)

  type Block4 = b: AnyBlock4 | b.base.Valid() && 0 < b.bits <= 32
    witness Block4(Quad(0, 0, 0, 0), 8)

  const BLOCKED_V4: seq<Block4> := [
    Block4(Quad(0, 0, 0, 0), 8),
    Block4(Quad(10, 0, 0, 0), 8),
    Block4(Quad(100, 64, 0, 0), 10),
    Block4(Quad(127, 0, 0, 0), 8),
    Block4(Quad(169, 254, 0, 0), 16),
    Block4(Quad(172, 16, 0, 0), 12),
    Block4(Quad(192, 0, 0, 0), 24),
    Block4(Quad(192, 0, 2, 0), 24),
    Block4(Quad(192, 88, 99, 0), 24),
    Block4(Quad(192, 168, 0, 0), 16),
    Block4(Quad(198, 18, 0, 0), 15),
    Block4(Quad(198, 51, 100, 0), 24),
    Block4(Quad(203, 0, 113, 0), 24),
    Block4(Quad(224, 0, 0, 0), 4),
    Block4(Quad(240, 0, 0, 0), 4)]

  function QuadValue(q: Quad): nat {
    0x1000000 * q.a + 0x10000 * q.b + 0x100 * q.c + q.d
  }

  predicate IsOctet(s: string) {
    AllDigits(s) && Decimal(s) <= 255 && s == Digits(Decimal(s))
  }

  /** net.isIP(s) === 4: four decimal octets without leading zeros. */
  predicate IsIPv4(s: string) {
    var parts := Split(s, '.');
    |parts| == 4 && forall i | 0 <= i < 4 :: IsOctet(parts[i])
  }

  function QuadOf(s: string): (q: Quad)
    requires IsIPv4(s)
    ensures q.Valid()
  {
    var parts := Split(s, '.');
    Quad(Decimal(parts[0]), Decimal(parts[1]), Decimal(parts[2]), Decimal(parts[3]))
  }

  function Ipv4ToInt(ip: string): nat
    requires IsIPv4(ip)
  {
    QuadValue(QuadOf(ip))
  }

  lemma DottedIsIPv4(q: Quad)
    requires q.Valid()
    ensures IsIPv4(q.Dotted()) && QuadOf(q.Dotted()) == q
  {
    DottedSplits(q);
  }

  /** What is taken for an IPv4 address is one, written as it is printed. */
  lemma IPv4Exactly(s: string)
    ensures IsIPv4(s) <==> exists q: Quad :: q.Valid() && s == q.Dotted()
  {
    if IsIPv4(s) {
      var parts, q := Split(s, '.'), QuadOf(s);
      JoinSplit(s, '.');
      assert IsOctet(parts[0]) && IsOctet(parts[1]) && IsOctet(parts[2]) && IsOctet(parts[3]);
      assert parts == [Digits(q.a), Digits(q.b), Digits(q.c), Digits(q.d)];
    }
    if q: Quad :| q.Valid() && s == q.Dotted() { DottedIsIPv4(q); }
  }

  /** The code's test: both masked with `(0xffffffff << (32 - bits)) >>> 0`. */
  predicate Masked4(block: Block4, value: nat) {
    BitAnd(value, Mask(32, 32 - block.bits)) == BitAnd(QuadValue(block.base), Mask(32, 32 - block.bits))
  }

  /** The block as a range of numbers: the same first `bits` bits. */
  predicate Contains4(block: Block4, value: nat) {
    Quotient(value, Pow2(32 - block.bits)) == Quotient(QuadValue(block.base), Pow2(32 - block.bits))
  }

  /** Outside the union of the listed IPv4 blocks. */
  predicate PublicV4(blocks: seq<Block4>, value: nat) {
    forall i | 0 <= i < |blocks| :: !Contains4(blocks[i], value)
  }

  lemma MaskedIsContained(block: Block4, value: nat)
    requires value < 0x1_0000_0000
    ensures Masked4(block, value) == Contains4(block, value)
  {
    assert Pow2(32) == 0x1_0000_0000 by {
      Pow2Values();
    }
    MaskedEqual(value, QuadValue(block.base), 32, 32 - block.bits);
  }

  /** The scan of the IPv4 table is the union test. */
  lemma ScanIsUnion4(blocks: seq<Block4>, value: nat)
    requires value < 0x1_0000_0000
    ensures PublicV4(blocks, value) <==> forall i | 0 <= i < |blocks| :: !Masked4(blocks[i], value)
  {
    forall i | 0 <= i < |blocks| ensures Masked4(blocks[i], value) == Contains4(blocks[i], value) {
      MaskedIsContained(blocks[i], value);
    }
  }

  // ---------------------------------------------------------------------
  // The IPv6 table
  // ---------------------------------------------------------------------

  datatype AnyRule = Rule(prefix: seq<nat>, bits: nat, delegateToIpv4: bool)

  type Rule = r: AnyRule | AreGroups(r.prefix) && |r.prefix| == 8 && r.bits <= 128
    witness Rule([0, 0, 0, 0, 0, 0, 0, 0], 0, false)

  type Group = n: nat | n < 65536

  function Block6(a: Group, b: Group, c: Group, d: Group, e: Group, f: Group, g: Group, h: Group,
                  bits: nat, delegateToIpv4: bool): (r: Rule)
    requires bits <= 128
    ensures r.prefix == [a, b, c, d, e, f, g, h] && r.bits == bits && r.delegateToIpv4 == delegateToIpv4
  {
    Rule([a, b, c, d, e, f, g, h], bits, delegateToIpv4)
  }

  const BLOCKED_V6: seq<Rule> := [
    Block6(0, 0, 0, 0, 0, 0, 0, 0, 96, false),
    Block6(0xfc00, 0, 0, 0, 0, 0, 0, 0, 7, false),
    Block6(0xfe80, 0, 0, 0, 0, 0, 0, 0, 10, false),
    Block6(0xfec0, 0, 0, 0, 0, 0, 0, 0, 10, false),
    Block6(0xff00, 0, 0, 0, 0, 0, 0, 0, 8, false),
    Block6(0x2001, 0x0db8, 0, 0, 0, 0, 0, 0, 32, false),
    Block6(0x0100, 0, 0, 0, 0, 0, 0, 0, 64, false),
    Block6(0, 0, 0, 0, 0, 0xffff, 0, 0, 96, true),
    Block6(0x0064, 0xff9b, 0, 0, 0, 0, 0, 0, 96, true),
    Block6(0x2002, 0, 0, 0, 0, 0, 0, 0, 16, false),
    Block6(0x2001, 0, 0, 0, 0, 0, 0, 0, 32, false)]

  datatype Tables = Tables(v4: seq<Block4>, v6: seq<Rule>)

  /** The code's own tables. */
  const BLOCKED := Tables(BLOCKED_V4, BLOCKED_V6)

  /** The block as a range of 128-bit numbers. */
  predicate Contains(rule: Rule, n: nat) {
    Quotient(n, Pow2(128 - rule.bits)) == Quotient(Value(rule.prefix), Pow2(128 - rule.bits))
  }

  /** What a block that contains the address says of it. */
  predicate Allows(v4: seq<Block4>, rule: Rule, n: nat) {
    rule.delegateToIpv4 && PublicV4(v4, Remainder(n, Pow2(32)))
  }

  /** Outside the union of the blocks; a delegating block only counts when the
      embedded IPv4 address is blocked. */
  predicate Unblocked(v4: seq<Block4>, rules: seq<Rule>, n: nat) {
    forall i | 0 <= i < |rules| && Contains(rules[i], n) :: Allows(v4, rules[i], n)
  }

  /** What the loop computes: the first block that contains the address decides. */
  predicate FirstMatch(v4: seq<Block4>, rules: seq<Rule>, n: nat) {
    if rules == [] then true
    else if Contains(rules[0], n) then Allows(v4, rules[0], n)
    else FirstMatch(v4, rules[1..], n)
  }

  predicate Apart(rule: Rule, other: Rule) {
    !Agree(rule.prefix, other.prefix, if rule.bits < other.bits then rule.bits else other.bits)
  }

  predicate PairwiseApart(rules: seq<Rule>) {
    forall i, j | 0 <= i < j < |rules| :: Apart(rules[i], rules[j])
  }

  lemma ContainedInShorter(n: nat, base: nat, bits: nat, fewer: nat)
    requires fewer <= bits <= 128
    requires Quotient(n, Pow2(128 - bits)) == Quotient(base, Pow2(128 - bits))
    ensures Quotient(n, Pow2(128 - fewer)) == Quotient(base, Pow2(128 - fewer))
  {
    Pow2Sum(128 - bits, bits - fewer);
    DivDiv(n, Pow2(128 - bits), Pow2(bits - fewer));
    DivDiv(base, Pow2(128 - bits), Pow2(bits - fewer));
  }

  /** Prefixes that differ where both look share no address. */
  lemma ApartShareNothing(rule: Rule, other: Rule, n: nat)
    requires Apart(rule, other)
    ensures !(Contains(rule, n) && Contains(other, n))
  {
    var fewer := if rule.bits < other.bits then rule.bits else other.bits;
    AgreeIsSameTop(rule.prefix, other.prefix, fewer);
    if Contains(rule, n) && Contains(other, n) {
      ContainedInShorter(n, Value(rule.prefix), rule.bits, fewer);
      ContainedInShorter(n, Value(other.prefix), other.bits, fewer);
      assert false;
    }
  }

  /** For pairwise disjoint blocks the walk is the union test, in any order. */
  lemma {:induction false} FirstMatchIsUnion(v4: seq<Block4>, rules: seq<Rule>, n: nat)
    requires PairwiseApart(rules)
    ensures FirstMatch(v4, rules, n) <==> Unblocked(v4, rules, n)
  {
    if rules != [] {
      var rest := rules[1..];
      assert forall i, j | 0 <= i < j < |rest| :: rest[i] == rules[i + 1] && rest[j] == rules[j + 1];
      FirstMatchIsUnion(v4, rest, n);
      if Contains(rules[0], n) {
        forall j | 1 <= j < |rules| ensures !Contains(rules[j], n) { ApartShareNothing(rules[0], rules[j], n); }
      } else {
        assert forall i | 0 <= i < |rest| :: rest[i] == rules[i + 1];
        assert forall j | 1 <= j < |rules| :: rules[j] == rest[j - 1];
      }
    }
  }

  lemma ApartIsSymmetric(rule: Rule, other: Rule)
    ensures Apart(rule, other) == Apart(other, rule)
  {
    var bits := if rule.bits < other.bits then rule.bits else other.bits;
    AgreeIsSameTop(rule.prefix, other.prefix, bits);
    AgreeIsSameTop(other.prefix, rule.prefix, bits);
  }

  lemma {:induction false} TwoPlaces(rules: seq<Rule>, rule: Rule) returns (i: nat, j: nat)
    requires multiset(rules)[rule] >= 2
    ensures i < j < |rules| && rules[i] == rules[j] == rule
  {
    var n := |rules| - 1;
    assert rules == rules[..n] + [rules[n]];
    if rules[n] == rule {
      assert rule in multiset(rules[..n]);
      i :| 0 <= i < n && rules[..n][i] == rule;
      j := n;
    } else {
      i, j := TwoPlaces(rules[..n], rule);
    }
  }

  lemma CountedTwice(rules: seq<Rule>, i: nat, j: nat)
    requires i < j < |rules| && rules[i] == rules[j]
    ensures multiset(rules)[rules[i]] >= 2
  {
    assert rules == rules[..j] + rules[j..];
    assert rules[..j][i] in multiset(rules[..j]) && rules[j..][0] in multiset(rules[j..]);
  }

  /** A permutation of disjoint blocks is disjoint. */
  lemma PermutedStaysApart(rules: seq<Rule>, other: seq<Rule>)
    requires PairwiseApart(rules) && multiset(rules) == multiset(other)
    ensures PairwiseApart(other)
  {
    forall i, j | 0 <= i < j < |other| ensures Apart(other[i], other[j]) {
      if other[i] == other[j] {
        CountedTwice(other, i, j);
        var p, q := TwoPlaces(rules, other[i]);
        assert Apart(rules[p], rules[q]);
      } else {
        assert other[i] in multiset(rules) && other[j] in multiset(rules);
        var p :| 0 <= p < |rules| && rules[p] == other[i];
        var q :| 0 <= q < |rules| && rules[q] == other[j];
        ApartIsSymmetric(rules[p], rules[q]);
      }
    }
  }

  /** Reordering a disjoint table changes no verdict. */
  lemma OrderDoesNotMatter(v4: seq<Block4>, rules: seq<Rule>, other: seq<Rule>, n: nat)
    requires PairwiseApart(rules) && multiset(rules) == multiset(other)
    ensures FirstMatch(v4, rules, n) == FirstMatch(v4, other, n)
  {
    PermutedStaysApart(rules, other);
    FirstMatchIsUnion(v4, rules, n);
    FirstMatchIsUnion(v4, other, n);
    if Unblocked(v4, other, n) { SameUnion(v4, rules, other, n); }
    if Unblocked(v4, rules, n) { SameUnion(v4, other, rules, n); }
  }

  lemma SameUnion(v4: seq<Block4>, rules: seq<Rule>, other: seq<Rule>, n: nat)
    requires multiset(rules) == multiset(other) && Unblocked(v4, other, n)
    ensures Unblocked(v4, rules, n)
  {
    forall i | 0 <= i < |rules| && Contains(rules[i], n) ensures Allows(v4, rules[i], n) {
      assert rules[i] in multiset(other);
      var j :| 0 <= j < |other| && other[j] == rules[i];
    }
  }

  /** The first groups alone tell the blocks apart. */
  predicate HeadsDiffer(rule: Rule, other: Rule) {
    var bits := if rule.bits < other.bits then rule.bits else other.bits;
    var cut := if bits < 16 then 16 - bits else 0;
    bits > 0 && Quotient(rule.prefix[0], Pow2(cut)) != Quotient(other.prefix[0], Pow2(cut))
  }

  lemma DifferentHeadsAreApart(rule: Rule, other: Rule)
    requires HeadsDiffer(rule, other)
    ensures Apart(rule, other)
  {
  }

  /** Pairs of blocks that may share their first group. */
  predicate MayShareHead(i: int, j: int) {
    (i == 0 && j == 7) || (i == 5 && j == 10)
  }

  lemma WideHeads()
    ensures forall i, j | 0 <= i < j < |BLOCKED_V6| && !MayShareHead(i, j)
                          && BLOCKED_V6[i].bits >= 16 && BLOCKED_V6[j].bits >= 16 ::
              HeadsDiffer(BLOCKED_V6[i], BLOCKED_V6[j])
  {
    assert Pow2(0) == 1;
  }

  lemma NarrowHeads()
    ensures forall i, j | 0 <= i < j < |BLOCKED_V6| && (BLOCKED_V6[i].bits < 16 || BLOCKED_V6[j].bits < 16) ::
              HeadsDiffer(BLOCKED_V6[i], BLOCKED_V6[j])
  {
    assert Pow2(9) == 512 && Pow2(6) == 64 && Pow2(8) == 256;
  }

  lemma HeadsOfTable(i: int, j: int)
    requires 0 <= i < j < |BLOCKED_V6| && !MayShareHead(i, j)
    ensures HeadsDiffer(BLOCKED_V6[i], BLOCKED_V6[j])
  {
    WideHeads();
    NarrowHeads();
  }

  lemma ZeroHeads()
    ensures Apart(BLOCKED_V6[0], BLOCKED_V6[7])
  {
  }

  lemma GlobalHeads()
    ensures Apart(BLOCKED_V6[5], BLOCKED_V6[10])
  {
  }

  /** No two blocks of the table overlap. */
  lemma TableIsApart()
    ensures PairwiseApart(BLOCKED_V6)
  {
    ZeroHeads();
    GlobalHeads();
    forall i, j | 0 <= i < j < |BLOCKED_V6| ensures Apart(BLOCKED_V6[i], BLOCKED_V6[j]) {
      if !MayShareHead(i, j) {
        HeadsOfTable(i, j);
        DifferentHeadsAreApart(BLOCKED_V6[i], BLOCKED_V6[j]);
      }
    }
  }

  // ---------------------------------------------------------------------
  // The classifier
  // ---------------------------------------------------------------------

  /** What the address means, whatever its spelling. `isIPv6` is net.isIPv6. */
  predicate Public(address: string, isIPv6: string -> bool, tables: Tables) {
    if IsIPv4(address) then PublicV4(tables.v4, Ipv4ToInt(address))
    else
      isIPv6(address) && ExpandIpv6(address).Some?
      && Unblocked(tables.v4, tables.v6, Value(ExpandIpv6(address).value))
  }

  lemma {:induction false} HexBound(s: string)
    requires forall i | 0 <= i < |s| :: IsHexDigit(s[i])
    ensures |s| <= 1 ==> HexValue(s) < 16
    ensures |s| <= 2 ==> HexValue(s) < 256
    ensures |s| <= 3 ==> HexValue(s) < 4096
    ensures |s| <= 4 ==> HexValue(s) < 65536
  {
    if s != "" { HexBound(s[..|s| - 1]); }
  }

  lemma ExpandedAreGroups(address: string)
    requires ExpandIpv6(address).Some?
    ensures |ExpandIpv6(address).value| == 8 && AreGroups(ExpandIpv6(address).value)
  {
    var addr := WithoutQuad(Lower(address)).value;
    var texts := GroupTexts(addr).value;
    var groups := ExpandIpv6(address).value;
    forall i | 0 <= i < |groups| ensures groups[i] < 65536 {
      assert IsHexGroup(texts[i]);
      HexBound(texts[i]);
    }
  }

  function Embedded(groups: seq<nat>): Quad
    requires |groups| == 8
  {
    Quad(groups[6] / 256, groups[6] % 256, groups[7] / 256, groups[7] % 256)
  }

  lemma EmbeddedValue(groups: seq<nat>)
    requires AreGroups(groups) && |groups| == 8
    ensures Embedded(groups).Valid() && QuadValue(Embedded(groups)) == 65536 * groups[6] + groups[7]
  {
  }

  /** The last two groups are the last 32 bits. */
  lemma LastTwoGroups(groups: seq<nat>)
    requires AreGroups(groups) && |groups| == 8
    ensures Remainder(Value(groups), Pow2(32)) == 65536 * groups[6] + groups[7]
  {
    Pow2Values();
    LastBits(groups, 6);
    ValueOfTwo(groups[6..]);
    DivUnique(Value(groups[6..]), 0x1_0000_0000, 0, Value(groups[6..]));
  }

  /** Asking about the embedded address asks about the last 32 bits. */
  lemma EmbeddedVerdict(groups: seq<nat>)
    requires AreGroups(groups) && |groups| == 8
    ensures var text := Embedded(groups).Dotted();
            IsIPv4(text) && Ipv4ToInt(text) == Remainder(Value(groups), Pow2(32))
  {
    EmbeddedValue(groups);
    LastTwoGroups(groups);
    DottedIsIPv4(Embedded(groups));
  }

  lemma ValueOfTwo(gs: seq<nat>)
    requires |gs| == 2 && AreGroups(gs)
    ensures Value(gs) == 65536 * gs[0] + gs[1] < 0x1_0000_0000
  {
    Pow2Values();
    assert gs[1..] == [gs[1]] && gs[1..][1..] == [];
    ShiftLeftValue(gs[0], 16);
    ShiftLeftValue(gs[1], 0);
    assert Value(gs[1..]) == gs[1];
  }

  lemma {:induction false} LastBits(gs: seq<nat>, k: nat)
    requires AreGroups(gs) && k <= |gs|
    ensures Remainder(Value(gs), Pow2(16 * (|gs| - k))) == Remainder(Value(gs[k..]), Pow2(16 * (|gs| - k)))
  {
    if k > 0 {
      var w, low := 16 * (|gs| - 1), 16 * (|gs| - k);
      LastBits(gs[1..], k - 1);
      assert gs[1..][k - 1..] == gs[k..];
      ShiftLeftValue(gs[0], w);
      Pow2Sum(w - low, low);
      MultipleOut(gs[0], Pow2(w - low), Pow2(low), Value(gs[1..]));
    }
  }

  lemma MultipleOut(g: nat, m: nat, p: nat, v: nat)
    requires p > 0
    ensures Remainder(g * (m * p) + v, p) == Remainder(v, p)
  {
    assert g * (m * p) == (g * m) * p;
    DivShift(g * m, p, v);
  }

  /** Among disjoint blocks, the one that contains the address decides alone. */
  lemma OneBlockDecides(v4: seq<Block4>, rules: seq<Rule>, i: nat, n: nat)
    requires PairwiseApart(rules) && i < |rules| && Contains(rules[i], n)
    ensures Unblocked(v4, rules, n) == Allows(v4, rules[i], n)
  {
    forall j | 0 <= j < |rules| && j != i ensures !Contains(rules[j], n) {
      if j < i { ApartShareNothing(rules[j], rules[i], n); } else { ApartShareNothing(rules[i], rules[j], n); }
    }
  }

  /** The walk through the table: the first block that contains the address. */
  method FindRule(groups: seq<nat>, rules: seq<Rule>) returns (i: nat)
    requires AreGroups(groups) && |groups| == 8
    ensures i <= |rules|
    ensures forall j | 0 <= j < i :: !Contains(rules[j], Value(groups))
    ensures i < |rules| ==> Contains(rules[i], Value(groups))
  {
    i := 0;
    while i < |rules|
      invariant i <= |rules|
      invariant forall j | 0 <= j < i :: !Contains(rules[j], Value(groups))
    {
      var matches := MatchesIpv6Prefix(groups, rules[i].prefix, rules[i].bits);
      if matches {
        return;
      }
      i := i + 1;
    }
  }

  lemma ScanOfText(address: string, blocks: seq<Block4>)
    requires IsIPv4(address)
    ensures PublicV4(blocks, Ipv4ToInt(address))
            <==> forall i | 0 <= i < |blocks| :: !Masked4(blocks[i], Ipv4ToInt(address))
  {
    ScanIsUnion4(blocks, Ipv4ToInt(address));
  }

  /** isPublicAddress, for any tables of pairwise disjoint blocks: the table scan
      for IPv4, the walk with delegation for IPv6. */
  method IsPublicAddress(address: string, isIPv6: string -> bool, tables: Tables) returns (isPublic: bool)
    requires PairwiseApart(tables.v6)
    ensures isPublic == Public(address, isIPv6, tables)
    decreases if IsIPv4(address) then 0 else 1
  {
    if IsIPv4(address) {
      ScanOfText(address, tables.v4);
      return !exists i | 0 <= i < |tables.v4| :: Masked4(tables.v4[i], Ipv4ToInt(address));
    }
    if !isIPv6(address) {
      return false;
    }
    var expanded := ExpandIpv6(address);
    if expanded.None? {
      return false;
    }
    ExpandedAreGroups(address);
    var i := FindRule(expanded.value, tables.v6);
    if i == |tables.v6| {
      return true;
    }
    OneBlockDecides(tables.v4, tables.v6, i, Value(expanded.value));
    if !tables.v6[i].delegateToIpv4 {
      return false;
    }
    EmbeddedVerdict(expanded.value);
    isPublic := IsPublicAddress(Embedded(expanded.value).Dotted(), isIPv6, tables);
  }

  // ---------------------------------------------------------------------
  // Embedded IPv4 addresses, and spellings
  // ---------------------------------------------------------------------

  lemma FirstSixDecide(groups: seq<nat>, rule: Rule)
    requires AreGroups(groups) && |groups| == 8 && rule.bits == 96
    requires groups[..6] == rule.prefix[..6]
    ensures Contains(rule, Value(groups))
  {
    AgreeOnEqual(groups, rule.prefix, 6);
    AgreeIsSameTop(groups, rule.prefix, 96);
  }

  lemma {:induction false} AgreeOnEqual(gs: seq<nat>, ps: seq<nat>, k: nat)
    requires |gs| == |ps| && k <= |gs| && gs[..k] == ps[..k]
    ensures Agree(gs, ps, 16 * k)
  {
    if k > 0 {
      assert gs[0] == gs[..k][0] == ps[..k][0] == ps[0];
      assert gs[1..][..k - 1] == gs[..k][1..] && ps[1..][..k - 1] == ps[..k][1..];
      AgreeOnEqual(gs[1..], ps[1..], k - 1);
    }
  }

  lemma DelegateDecides(v4: seq<Block4>, rules: seq<Rule>, groups: seq<nat>, i: nat)
    requires PairwiseApart(rules) && AreGroups(groups) && |groups| == 8 && i < |rules|
    requires rules[i].bits == 96 && rules[i].delegateToIpv4 && groups[..6] == rules[i].prefix[..6]
    ensures Unblocked(v4, rules, Value(groups)) == PublicV4(v4, 65536 * groups[6] + groups[7])
  {
    FirstSixDecide(groups, rules[i]);
    LastTwoGroups(groups);
    OneBlockDecides(v4, rules, i, Value(groups));
  }

  lemma DelegateOf(groups: seq<nat>) returns (i: nat)
    requires |groups| == 8
    requires groups[..6] == [0, 0, 0, 0, 0, 0xffff] || groups[..6] == [0x0064, 0xff9b, 0, 0, 0, 0]
    ensures i < |BLOCKED_V6| && BLOCKED_V6[i].bits == 96 && BLOCKED_V6[i].delegateToIpv4
    ensures groups[..6] == BLOCKED_V6[i].prefix[..6]
  {
    i := if groups[..6] == [0, 0, 0, 0, 0, 0xffff] then 7 else 8;
    assert BLOCKED_V6[7].prefix[..6] == [0, 0, 0, 0, 0, 0xffff];
    assert BLOCKED_V6[8].prefix[..6] == [0x0064, 0xff9b, 0, 0, 0, 0];
  }

  /** A v4-mapped address (section 2.5.5.2 of RFC 4291) or a NAT64 address
      (section 2.1 of RFC 6052) is public exactly when its IPv4 address is. */
  lemma EmbeddedDecides(groups: seq<nat>)
    requires AreGroups(groups) && |groups| == 8
    requires groups[..6] == [0, 0, 0, 0, 0, 0xffff] || groups[..6] == [0x0064, 0xff9b, 0, 0, 0, 0]
    ensures Unblocked(BLOCKED_V4, BLOCKED_V6, Value(groups)) == PublicV4(BLOCKED_V4, 65536 * groups[6] + groups[7])
  {
    var i := DelegateOf(groups);
    TableIsApart();
    DelegateDecides(BLOCKED_V4, BLOCKED_V6, groups, i);
  }

  /** The verdict is about the address, not about how it is written. */
  lemma SpellingDoesNotMatter(sp: Spelling, groups: seq<nat>, isIPv6: string -> bool, tables: Tables)
    requires Spells(sp, groups) && isIPv6(Print(sp))
    ensures Public(Print(sp), isIPv6, tables) == Unblocked(tables.v4, tables.v6, Value(groups))
  {
    ExpandInverts(sp, groups);
    PrintHoldsColon(sp, groups);
    ColonIsNotIPv4(Print(sp));
  }

  lemma ColonIsNotIPv4(s: string)
    requires ':' in s
    ensures !IsIPv4(s)
  {
    var k := SplitKeeps(s, '.', ':');
    var part := Split(s, '.')[k];
    var i :| 0 <= i < |part| && part[i] == ':';
    assert !IsDigit(part[i]) && !AllDigits(part);
  }
}
