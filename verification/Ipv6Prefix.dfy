/**
 matchesIpv6Prefix of avatarUrl.guard.ts: a masked comparison, group by group,
 against integer division of the 128-bit number the groups stand for.
 */
module Ipv6Prefix {
  import opened Bits

  lemma Pow2Values()
    ensures Pow2(8) == 256 && Pow2(16) == 65536 && Pow2(32) == 0x1_0000_0000
  {
    Pow2Sum(8, 8);
    Pow2Sum(16, 16);
  }

  predicate AreGroups(gs: seq<nat>) {
    forall i | 0 <= i < |gs| :: gs[i] < 65536
  }

  function Value(gs: seq<nat>): nat {
    if gs == [] then 0 else ShiftLeft(gs[0], 16 * (|gs| - 1)) + Value(gs[1..])
  }

  /** The first `bits` bits of the address. */
  function Top(gs: seq<nat>, bits: nat): nat
    requires bits <= 16 * |gs|
  {
    Quotient(Value(gs), Pow2(16 * |gs| - bits))
  }

  lemma {:induction false} ValueBound(gs: seq<nat>)
    requires AreGroups(gs)
    ensures Value(gs) < Pow2(16 * |gs|)
  {
    if gs != [] {
      var w := 16 * (|gs| - 1);
      ValueBound(gs[1..]);
      Pow2Values();
      Pow2Sum(16, w);
      ShiftLeftValue(gs[0], w);
      HeadBound(gs[0], Value(gs[1..]), Pow2(w));
    }
  }

  lemma HeadBound(g: nat, v: nat, p: nat)
    requires g < 65536 && v < p
    ensures g * p + v < 65536 * p
  {
    AtLeastOne(65536 - g, p);
    assert (65536 - g) * p == 65536 * p - g * p;
  }

  /** Group by group: whole groups equal, the cut group equal above the cut. */
  predicate Agree(gs: seq<nat>, ps: seq<nat>, bits: nat)
    requires |gs| == |ps|
  {
    if gs == [] || bits == 0 then true
    else if bits >= 16 then gs[0] == ps[0] && Agree(gs[1..], ps[1..], bits - 16)
    else Quotient(gs[0], Pow2(16 - bits)) == Quotient(ps[0], Pow2(16 - bits))
  }

  lemma DivDiv(n: nat, a: nat, b: nat)
    requires a > 0 && b > 0
    ensures a * b > 0 && n / (a * b) == n / a / b
  {
    AtLeastOne(a, b);
    DivMod(n, a);
    DivMod(n / a, b);
    var q, r, s := n / a / b, (n / a) % b, n % a;
    assert n == q * (a * b) + (r * a + s) by {
      assert n == (q * b + r) * a + s;
      assert (q * b + r) * a == q * b * a + r * a;
      assert q * b * a == q * (a * b);
    }
    AtLeastOne(b - r, a);
    assert (b - r) * a == b * a - r * a;
    DivUnique(n, a * b, q, r * a + s);
  }

  /** A number in two parts, divided inside the low part. */
  lemma QuotientOfParts(g: nat, m: nat, p: nat, v: nat)
    requires p > 0 && v < m * p
    ensures Quotient(g * (m * p) + v, p) == g * m + Quotient(v, p)
    ensures Quotient(v, p) < m
  {
    assert g * (m * p) == (g * m) * p;
    DivShift(g * m, p, v);
    DivMod(v, p);
    assert (v / p - m + 1) * p == (v / p) * p - m * p + p;
    if v / p >= m { AtLeastOne(v / p - m + 1, p); }
  }

  /** The top of an address: its head and the top of the rest. */
  lemma TopSplits(gs: seq<nat>, bits: nat)
    requires AreGroups(gs) && gs != [] && 16 <= bits <= 16 * |gs|
    ensures Top(gs, bits) == gs[0] * Pow2(bits - 16) + Top(gs[1..], bits - 16)
    ensures Top(gs[1..], bits - 16) < Pow2(bits - 16)
  {
    var d := 16 * |gs| - bits;
    ValueBound(gs[1..]);
    Pow2Sum(bits - 16, d);
    ShiftLeftValue(gs[0], 16 * (|gs| - 1));
    QuotientOfParts(gs[0], Pow2(bits - 16), Pow2(d), Value(gs[1..]));
  }

  /** A cut inside the first group only looks at that group. */
  lemma TopOfHead(gs: seq<nat>, bits: nat)
    requires AreGroups(gs) && gs != [] && bits < 16
    ensures Top(gs, bits) == Quotient(gs[0], Pow2(16 - bits))
  {
    var w := 16 * (|gs| - 1);
    ValueBound(gs[1..]);
    Pow2Sum(w, 16 - bits);
    assert 16 * |gs| - bits == w + (16 - bits);
    ShiftLeftValue(gs[0], w);
    DivDiv(Value(gs), Pow2(w), Pow2(16 - bits));
    DivUnique(Value(gs), Pow2(w), gs[0], Value(gs[1..]));
  }

  lemma {:induction false} AgreeIsSameTop(gs: seq<nat>, ps: seq<nat>, bits: nat)
    requires AreGroups(gs) && AreGroups(ps) && |gs| == |ps| && bits <= 16 * |gs|
    ensures Agree(gs, ps, bits) <==> Top(gs, bits) == Top(ps, bits)
  {
    if gs != [] {
      if bits >= 16 {
        AgreeIsSameTop(gs[1..], ps[1..], bits - 16);
        TopSplits(gs, bits);
        TopSplits(ps, bits);
        if Top(gs, bits) == Top(ps, bits) {
          QuotientUnique(gs[0], Top(gs[1..], bits - 16), ps[0], Top(ps[1..], bits - 16), Pow2(bits - 16));
        }
      } else {
        TopOfHead(gs, bits);
        TopOfHead(ps, bits);
        if bits == 0 {
          Pow2Values();
          DivUnique(gs[0], 65536, 0, gs[0]);
          DivUnique(ps[0], 65536, 0, ps[0]);
        }
      }
    }
  }

  /** One group of the loop. */
  lemma AgreeStep(gs: seq<nat>, ps: seq<nat>, i: nat, remaining: nat, width: nat)
    requires AreGroups(gs) && AreGroups(ps) && i < |gs| == |ps| && remaining > 0
    requires width == if remaining < 16 then remaining else 16
    ensures Agree(gs[i..], ps[i..], remaining)
       <==> BitAnd(gs[i], GroupMask(width)) == BitAnd(ps[i], GroupMask(width))
            && Agree(gs[i + 1..], ps[i + 1..], remaining - width)
  {
    MaskedGroup(gs[i], ps[i], width);
    assert gs[i..][1..] == gs[i + 1..] && ps[i..][1..] == ps[i + 1..];
  }

  /** matchesIpv6Prefix: true exactly when the two 128-bit numbers agree once
      their last 128 - bits bits are dropped. */
  method MatchesIpv6Prefix(groups: seq<nat>, prefix: seq<nat>, bits: nat) returns (matches: bool)
    requires AreGroups(groups) && AreGroups(prefix) && |groups| == |prefix| == 8 && bits <= 128
    ensures matches <==> Quotient(Value(groups), Pow2(128 - bits)) == Quotient(Value(prefix), Pow2(128 - bits))
  {
    AgreeIsSameTop(groups, prefix, bits);
    var remaining: nat := bits;
    var i := 0;
    while i < |prefix| && remaining > 0
      invariant 0 <= i <= 8
      invariant Agree(groups, prefix, bits) <==> Agree(groups[i..], prefix[i..], remaining)
    {
      var width := if remaining < 16 then remaining else 16;
      var mask := GroupMask(width);
      AgreeStep(groups, prefix, i, remaining, width);
      if BitAnd(groups[i], mask) != BitAnd(prefix[i], mask) {
        return false;
      }
      remaining := remaining - width;
      i := i + 1;
    }
    return true;
  }

  function GroupMask(width: nat): nat
    requires 0 < width <= 16
  {
    if width == 16 then 0xffff else Mask(16, 16 - width)
  }

  lemma MaskedGroup(g: nat, p: nat, width: nat)
    requires g < 65536 && p < 65536 && 0 < width <= 16
    ensures BitAnd(g, GroupMask(width)) == BitAnd(p, GroupMask(width))
            <==> Quotient(g, Pow2(16 - width)) == Quotient(p, Pow2(16 - width))
  {
    Pow2Values();
    if width == 16 {
      AndLowMask(g, 16);
      AndLowMask(p, 16);
      DivUnique(g, 65536, 0, g);
      DivUnique(p, 65536, 0, p);
    } else {
      MaskedEqual(g, p, 16, 16 - width);
    }
  }
}
