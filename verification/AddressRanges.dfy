/**
 The addresses that avatarUrl.guard.ts turns away, in octets and in groups: what
 its two tables say, prefix lengths worked out.
 */
module AddressRanges {
  import opened Wrappers
  import opened Bits
  import opened Ipv6Text
  import opened Ipv6Prefix
  import opened PublicAddress

  // ---------------------------------------------------------------------
  // IPv4, in octets
  // ---------------------------------------------------------------------

  /** This network, private use, shared space, loopback, link-local with the
      instance metadata, protocol assignments, documentation, the 6to4 relay,
      benchmarking, multicast and everything above. */
  predicate BlockedQuad(q: Quad) {
    || q.a == 0 || q.a == 10 || q.a == 127 || q.a >= 224
    || (q.a == 100 && 64 <= q.b < 128)
    || (q.a == 169 && q.b == 254)
    || (q.a == 172 && 16 <= q.b < 32)
    || (q.a == 192 && (q.b == 168 || (q.b == 0 && (q.c == 0 || q.c == 2)) || (q.b == 88 && q.c == 99)))
    || (q.a == 198 && (18 <= q.b < 20 || (q.b == 51 && q.c == 100)))
    || (q.a == 203 && q.b == 0 && q.c == 113)
  }

  /** Above a multiple of the size, the same quotient is a range. */
  lemma SameQuotient(value: nat, base: nat, size: nat)
    requires size > 0 && base % size == 0
    ensures Quotient(value, size) == Quotient(base, size) <==> base <= value < base + size
  {
    DivMod(base, size);
    DivMod(value, size);
    if base <= value < base + size {
      DivUnique(value, size, base / size, value - base);
    }
  }

  /** The size of a block, for the prefix lengths of the table. */
  function Size(bits: nat): nat {
    match bits
    case 4 => 0x1000_0000
    case 8 => 0x100_0000
    case 10 => 0x40_0000
    case 12 => 0x10_0000
    case 15 => 0x2_0000
    case 16 => 0x1_0000
    case _ => 0x100
  }

  lemma SizeIs(bits: nat)
    requires bits in {4, 8, 10, 12, 15, 16, 24}
    ensures Pow2(32 - bits) == Size(bits)
  {
    Pow2Values();
    match bits
    case 4 => Pow2Sum(16, 12);
    case 8 => Pow2Sum(16, 8);
    case 10 => Pow2Sum(16, 6);
    case 12 => Pow2Sum(16, 4);
    case 15 => Pow2Sum(16, 1);
    case _ =>
  }

  /** How many values of the octet where the block is cut it takes. */
  function Span(bits: nat): nat {
    if bits <= 8 then Size(bits) / 0x100_0000 else if bits <= 16 then Size(bits) / 0x1_0000 else Size(bits) / 0x100
  }

  /** The octets before the cut, as a number, and the size of what comes after. */
  function Head(q: Quad, bits: nat): nat {
    if bits <= 8 then q.a else if bits <= 16 then 256 * q.a + q.b else 0x1_0000 * q.a + 0x100 * q.b + q.c
  }

  function Unit(bits: nat): nat {
    if bits <= 8 then 0x100_0000 else if bits <= 16 then 0x1_0000 else 0x100
  }

  /** The block begins at a multiple of its size. */
  predicate Aligned(block: Block4) {
    var base, span := block.base, Span(block.bits);
    && block.bits in {4, 8, 10, 12, 15, 16, 24} && base.d == 0
    && (block.bits <= 16 ==> base.c == 0 && (block.bits > 8 ==> base.b % span == 0 && base.b + span <= 256))
    && (block.bits <= 8 ==> base.b == 0 && base.a % span == 0)
  }

  lemma HeadOf(q: Quad, bits: nat)
    requires q.Valid()
    ensures 0 <= QuadValue(q) - Head(q, bits) * Unit(bits) < Unit(bits)
  {
  }

  lemma AlignedHead(block: Block4)
    requires Aligned(block)
    ensures QuadValue(block.base) == Head(block.base, block.bits) * Unit(block.bits)
    ensures Size(block.bits) == Span(block.bits) * Unit(block.bits)
    ensures Span(block.bits) > 0 && Head(block.base, block.bits) % Span(block.bits) == 0
  {
    SpanDivides(block);
    if block.bits > 8 && block.bits <= 16 {
      MultipleOf(block.base.a * (256 / Span(block.bits)), block.base.b, Span(block.bits));
    }
  }

  lemma SpanDivides(block: Block4)
    requires Aligned(block)
    ensures Span(block.bits) in {1, 2, 16, 64} && Size(block.bits) == Span(block.bits) * Unit(block.bits)
    ensures 256 * block.base.a == block.base.a * (256 / Span(block.bits)) * Span(block.bits)
  {
  }

  lemma MultipleOf(k: nat, b: nat, span: nat)
    requires span > 0 && b % span == 0
    ensures (k * span + b) % span == 0
  {
    DivShift(k, span, b);
  }

  lemma HeadRange(x: int, y: int, n: nat, lo: nat, p: nat)
    requires lo < p
    ensures y * p <= x * p + lo < (y + n) * p <==> y <= x < y + n
  {
    assert (y - x) * p == y * p - x * p && (x - y - n) * p == x * p - (y + n) * p;
    assert (y + n - x) * p == (y + n) * p - x * p && (x - y) * p == x * p - y * p;
    if y > x { AtLeastOne(y - x, p); } else if y < x { AtLeastOne(x - y, p); }
    if x < y + n { AtLeastOne(y + n - x, p); } else if x > y + n { AtLeastOne(x - y - n, p); }
  }

  /** The block, by the octets up to its cut. */
  lemma BlockByHead(block: Block4, q: Quad)
    requires Aligned(block) && q.Valid()
    ensures Contains4(block, QuadValue(q)) <==>
              Head(block.base, block.bits) <= Head(q, block.bits) < Head(block.base, block.bits) + Span(block.bits)
  {
    var y, n, p := Head(block.base, block.bits), Span(block.bits), Unit(block.bits);
    var x, lo := Head(q, block.bits), QuadValue(q) - Head(q, block.bits) * Unit(block.bits);
    AlignedHead(block);
    HeadOf(q, block.bits);
    SizeIs(block.bits);
    assert (y / n * n) == y;
    assert y * p == (y / n) * (n * p);
    DivUnique(y * p, n * p, y / n, 0);
    SameQuotient(QuadValue(q), y * p, n * p);
    assert (y + n) * p == y * p + n * p;
    HeadRange(x, y, n, lo, p);
  }

  /** And in octets. */
  predicate InOctets(block: Block4, q: Quad) {
    var base, span := block.base, Span(block.bits);
    if block.bits == 24 then q.a == base.a && q.b == base.b && q.c == base.c
    else if block.bits > 8 then q.a == base.a && base.b <= q.b < base.b + span
    else base.a <= q.a < base.a + span
  }

  lemma HeadInOctets(block: Block4, q: Quad)
    requires Aligned(block) && q.Valid()
    ensures InOctets(block, q) <==>
              Head(block.base, block.bits) <= Head(q, block.bits) < Head(block.base, block.bits) + Span(block.bits)
  {
  }

  lemma TableIsAligned()
    ensures forall i | 0 <= i < |BLOCKED_V4| :: Aligned(BLOCKED_V4[i])
  {
  }

  lemma OctetsOfTable(q: Quad)
    requires q.Valid()
    ensures (forall i | 0 <= i < |BLOCKED_V4| :: !InOctets(BLOCKED_V4[i], q)) <==> !BlockedQuad(q)
  {
    assert InOctets(BLOCKED_V4[0], q) <==> q.a == 0;
    assert InOctets(BLOCKED_V4[1], q) <==> q.a == 10;
    assert InOctets(BLOCKED_V4[2], q) <==> q.a == 100 && 64 <= q.b < 128;
    assert InOctets(BLOCKED_V4[3], q) <==> q.a == 127;
    assert InOctets(BLOCKED_V4[4], q) <==> q.a == 169 && q.b == 254;
    assert InOctets(BLOCKED_V4[5], q) <==> q.a == 172 && 16 <= q.b < 32;
    assert InOctets(BLOCKED_V4[6], q) <==> q.a == 192 && q.b == 0 && q.c == 0;
    assert InOctets(BLOCKED_V4[7], q) <==> q.a == 192 && q.b == 0 && q.c == 2;
    assert InOctets(BLOCKED_V4[8], q) <==> q.a == 192 && q.b == 88 && q.c == 99;
    assert InOctets(BLOCKED_V4[9], q) <==> q.a == 192 && q.b == 168;
    assert InOctets(BLOCKED_V4[10], q) <==> q.a == 198 && 18 <= q.b < 20;
    assert InOctets(BLOCKED_V4[11], q) <==> q.a == 198 && q.b == 51 && q.c == 100;
    assert InOctets(BLOCKED_V4[12], q) <==> q.a == 203 && q.b == 0 && q.c == 113;
    assert InOctets(BLOCKED_V4[13], q) <==> 224 <= q.a < 240;
    assert InOctets(BLOCKED_V4[14], q) <==> 240 <= q.a < 256;
  }

  /** The IPv4 table, said in octets. */
  lemma QuadVerdict(q: Quad)
    requires q.Valid()
    ensures PublicV4(BLOCKED_V4, QuadValue(q)) <==> !BlockedQuad(q)
  {
    TableIsAligned();
    forall i | 0 <= i < |BLOCKED_V4|
      ensures Contains4(BLOCKED_V4[i], QuadValue(q)) == InOctets(BLOCKED_V4[i], q)
    {
      BlockByHead(BLOCKED_V4[i], q);
      HeadInOctets(BLOCKED_V4[i], q);
    }
    OctetsOfTable(q);
  }

  // ---------------------------------------------------------------------
  // IPv6, in groups
  // ---------------------------------------------------------------------

  predicate IsMapped(g: seq<nat>)
    requires |g| == 8
  {
    g[0] == 0 && g[1] == 0 && g[2] == 0 && g[3] == 0 && g[4] == 0 && g[5] == 0xffff
  }

  predicate IsNat64(g: seq<nat>)
    requires |g| == 8
  {
    g[0] == 0x64 && g[1] == 0xff9b && g[2] == 0 && g[3] == 0 && g[4] == 0 && g[5] == 0
  }

  /** Unspecified, loopback and IPv4-compatible; unique local; link-local and
      site-local; multicast; Teredo and documentation; 6to4; the discard prefix; and
      what embeds an IPv4 address that is blocked. */
  predicate BlockedGroups(g: seq<nat>)
    requires |g| == 8
  {
    || (g[0] == 0 && g[1] == 0 && g[2] == 0 && g[3] == 0 && g[4] == 0 && g[5] == 0)
    || 0xfc00 <= g[0] < 0xfe00
    || 0xfe80 <= g[0] < 0xff00
    || 0xff00 <= g[0]
    || (g[0] == 0x2001 && (g[1] == 0 || g[1] == 0x0db8))
    || g[0] == 0x2002
    || (g[0] == 0x100 && g[1] == 0 && g[2] == 0 && g[3] == 0)
    || ((IsMapped(g) || IsNat64(g)) && BlockedQuad(Embedded(g)))
  }

  lemma {:induction false} WholeAgree(gs: seq<nat>, ps: seq<nat>, k: nat)
    requires |gs| == |ps| && k <= |gs|
    ensures Agree(gs, ps, 16 * k) <==> forall i | 0 <= i < k :: gs[i] == ps[i]
  {
    if k > 0 {
      WholeAgree(gs[1..], ps[1..], k - 1);
      assert (forall i | 0 <= i < k - 1 :: gs[1..][i] == ps[1..][i])
        <==> (forall i | 1 <= i < k :: gs[i] == ps[i]) by {
        assert forall i | 1 <= i < k :: gs[i] == gs[1..][i - 1] && ps[i] == ps[1..][i - 1];
      }
    }
  }

  /** The addresses of a block, by whole groups or by a range of the first. */
  predicate InGroups(rule: Rule, g: seq<nat>)
    requires |g| == 8
  {
    match rule.bits
    case 7 => rule.prefix[0] <= g[0] < rule.prefix[0] + 0x200
    case 8 => rule.prefix[0] <= g[0] < rule.prefix[0] + 0x100
    case 10 => rule.prefix[0] <= g[0] < rule.prefix[0] + 0x40
    case _ => forall i | 0 <= i < rule.bits / 16 :: g[i] == rule.prefix[i]
  }

  /** The block ends with a whole group, or its first group begins at a multiple. */
  predicate Cut(rule: Rule) {
    match rule.bits
    case 7 => rule.prefix[0] % 0x200 == 0
    case 8 => rule.prefix[0] % 0x100 == 0
    case 10 => rule.prefix[0] % 0x40 == 0
    case _ => rule.bits % 16 == 0
  }

  lemma BlockInGroups(rule: Rule, g: seq<nat>)
    requires AreGroups(g) && |g| == 8 && Cut(rule)
    ensures Contains(rule, Value(g)) <==> InGroups(rule, g)
  {
    AgreeIsSameTop(g, rule.prefix, rule.bits);
    if rule.bits in {7, 8, 10} {
      CutSizes();
      SameQuotient(g[0], rule.prefix[0], Pow2(16 - rule.bits));
    } else {
      WholeAgree(g, rule.prefix, rule.bits / 16);
    }
  }

  lemma CutSizes()
    ensures Pow2(9) == 0x200 && Pow2(8) == 0x100 && Pow2(6) == 0x40
  {
  }

  lemma RulesAreCut()
    ensures forall i | 0 <= i < |BLOCKED_V6| :: Cut(BLOCKED_V6[i])
  {
  }

  lemma EmbeddedNumber(v4: seq<Block4>, g: seq<nat>)
    requires AreGroups(g) && |g| == 8
    ensures Embedded(g).Valid()
    ensures PublicV4(v4, Remainder(Value(g), Pow2(32))) == PublicV4(v4, QuadValue(Embedded(g)))
  {
    LastTwoGroups(g);
    EmbeddedValue(g);
  }

  /** What the embedded address says. */
  lemma DelegateSays(g: seq<nat>)
    requires AreGroups(g) && |g| == 8
    ensures PublicV4(BLOCKED_V4, Remainder(Value(g), Pow2(32))) <==> !BlockedQuad(Embedded(g))
  {
    EmbeddedNumber(BLOCKED_V4, g);
    QuadVerdict(Embedded(g));
  }

  /** A block that contains the address turns it away, unless the embedded one is let in. */
  predicate Turns(rule: Rule, g: seq<nat>)
    requires |g| == 8
  {
    InGroups(rule, g) && (rule.delegateToIpv4 ==> BlockedQuad(Embedded(g)))
  }

  lemma RangesOfTable(g: seq<nat>)
    requires AreGroups(g) && |g| == 8
    ensures InGroups(BLOCKED_V6[1], g) <==> 0xfc00 <= g[0] < 0xfe00
    ensures InGroups(BLOCKED_V6[2], g) <==> 0xfe80 <= g[0] < 0xfec0
    ensures InGroups(BLOCKED_V6[3], g) <==> 0xfec0 <= g[0] < 0xff00
    ensures InGroups(BLOCKED_V6[4], g) <==> 0xff00 <= g[0]
    ensures InGroups(BLOCKED_V6[5], g) <==> g[0] == 0x2001 && g[1] == 0x0db8
    ensures InGroups(BLOCKED_V6[9], g) <==> g[0] == 0x2002
    ensures InGroups(BLOCKED_V6[10], g) <==> g[0] == 0x2001 && g[1] == 0
  {
  }

  lemma PrefixesOfTable(g: seq<nat>)
    requires AreGroups(g) && |g| == 8
    ensures InGroups(BLOCKED_V6[0], g)
       <==> g[0] == 0 && g[1] == 0 && g[2] == 0 && g[3] == 0 && g[4] == 0 && g[5] == 0
    ensures InGroups(BLOCKED_V6[6], g) <==> g[0] == 0x100 && g[1] == 0 && g[2] == 0 && g[3] == 0
    ensures InGroups(BLOCKED_V6[7], g) <==> IsMapped(g)
    ensures InGroups(BLOCKED_V6[8], g) <==> IsNat64(g)
  {
  }

  lemma GroupsOfTable(g: seq<nat>)
    requires AreGroups(g) && |g| == 8
    ensures (forall i | 0 <= i < |BLOCKED_V6| :: !Turns(BLOCKED_V6[i], g)) <==> !BlockedGroups(g)
  {
    RangesOfTable(g);
    PrefixesOfTable(g);
  }

  lemma RulesVerdict(v4: seq<Block4>, rules: seq<Rule>, g: seq<nat>)
    requires AreGroups(g) && |g| == 8 && forall i | 0 <= i < |rules| :: Cut(rules[i])
    requires PublicV4(v4, Remainder(Value(g), Pow2(32))) <==> !BlockedQuad(Embedded(g))
    ensures Unblocked(v4, rules, Value(g)) <==> forall i | 0 <= i < |rules| :: !Turns(rules[i], g)
  {
    forall i | 0 <= i < |rules|
      ensures Contains(rules[i], Value(g)) && !Allows(v4, rules[i], Value(g)) <==> Turns(rules[i], g)
    {
      BlockInGroups(rules[i], g);
    }
  }

  /** The IPv6 table, said in groups. */
  lemma GroupsVerdict(g: seq<nat>)
    requires AreGroups(g) && |g| == 8
    ensures Unblocked(BLOCKED_V4, BLOCKED_V6, Value(g)) <==> !BlockedGroups(g)
  {
    RulesAreCut();
    DelegateSays(g);
    RulesVerdict(BLOCKED_V4, BLOCKED_V6, g);
    GroupsOfTable(g);
  }

  // ---------------------------------------------------------------------
  // The classifier, on any text
  // ---------------------------------------------------------------------

  /** isPublicAddress on the code's own tables. */
  method IsPublic(address: string, isIPv6: string -> bool) returns (isPublic: bool)
    ensures isPublic <==>
              if IsIPv4(address) then !BlockedQuad(QuadOf(address))
              else isIPv6(address) && ExpandIpv6(address).Some? && |ExpandIpv6(address).value| == 8
                   && !BlockedGroups(ExpandIpv6(address).value)
  {
    TableIsApart();
    if IsIPv4(address) {
      QuadVerdict(QuadOf(address));
    } else if ExpandIpv6(address).Some? {
      ExpandedAreGroups(address);
      GroupsVerdict(ExpandIpv6(address).value);
    }
    isPublic := IsPublicAddress(address, isIPv6, BLOCKED);
  }

  /** Every IPv4 address, and every IPv6 address in every legal spelling. */
  lemma DottedVerdict(q: Quad, isIPv6: string -> bool)
    requires q.Valid()
    ensures Public(q.Dotted(), isIPv6, BLOCKED) <==> !BlockedQuad(q)
  {
    DottedIsIPv4(q);
    QuadVerdict(q);
  }

  lemma SpelledVerdict(sp: Spelling, groups: seq<nat>, isIPv6: string -> bool)
    requires Spells(sp, groups) && AreGroups(groups) && isIPv6(Print(sp))
    ensures Public(Print(sp), isIPv6, BLOCKED) <==> !BlockedGroups(groups)
  {
    SpellingDoesNotMatter(sp, groups, isIPv6, BLOCKED);
    GroupsVerdict(groups);
  }
}
