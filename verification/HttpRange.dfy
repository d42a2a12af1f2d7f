/**
 Resolving a Range header (range.util.ts), against section 2.1 of RFC 7233.
 */
module HttpRange {
  import opened Wrappers
  import opened Text

  /** Both ends inclusive. */
  datatype Range = Range(start: nat, end: nat)

  const PREFIX := "bytes="

  function DashAt(s: string): (p: nat)
    ensures p <= |s| && (p < |s| ==> s[p] == '-') && '-' !in s[..p]
  {
    if s == [] || s[0] == '-' then 0
    else
      var p := 1 + DashAt(s[1..]);
      assert s[..p] == [s[0]] + s[1..][..p - 1];
      p
  }

  /** parseRangeHeader. */
  function ParseRangeHeader(header: Option<string>, fileSize: nat): Option<Range> {
    if header.None? || !(PREFIX <= header.value) then None
    else
      var value := header.value[|PREFIX|..];
      if ',' in value then None
      else
        var text := Trim(value);
        var p := DashAt(text);
        if p == |text| || !AllDigits(text[..p]) || !AllDigits(text[p + 1..]) then None
        else Resolved(text[..p], text[p + 1..], fileSize)
  }

  function Resolved(startStr: string, endStr: string, fileSize: nat): Option<Range>
    requires AllDigits(startStr) && AllDigits(endStr)
  {
    if startStr == "" && endStr == "" then None
    else
      var (start, end) :=
        if startStr == "" then (Max(fileSize - Decimal(endStr), 0), fileSize - 1)
        else (Decimal(startStr), if endStr == "" then fileSize - 1 else Min(Decimal(endStr), fileSize - 1));
      if start >= fileSize || end < start then None else Some(Range(start, end))
  }

  function Max(a: int, b: int): int {
    if a < b then b else a
  }

  function Min(a: int, b: int): int {
    if a < b then a else b
  }

  // ---------------------------------------------------------------------
  // What RFC 7233 says
  // ---------------------------------------------------------------------

  /** byte-range-spec and suffix-byte-range-spec. */
  datatype Spec = FromTo(first: nat, last: nat) | FromOn(first: nat) | Suffix(length: nat)

  predicate IsValid(spec: Spec) {
    spec.FromTo? ==> spec.first <= spec.last
  }

  /** Whether byte i of a representation of this size is asked for. */
  predicate Selects(spec: Spec, size: nat, i: int) {
    && 0 <= i < size
    && match spec
       case FromTo(first, last) => first <= i <= last
       case FromOn(first) => first <= i
       case Suffix(length) => size - length <= i
  }

  predicate AllSpace(s: string) {
    forall i | 0 <= i < |s| :: IsSpace(s[i])
  }

  predicate Means(a: string, b: string, spec: Spec) {
    && AllDigits(a) && AllDigits(b)
    && match spec
       case FromTo(first, last) => a != "" && b != "" && Decimal(a) == first && Decimal(b) == last
       case FromOn(first) => a != "" && b == "" && Decimal(a) == first
       case Suffix(length) => a == "" && b != "" && Decimal(b) == length
  }

  predicate SpelledBy(header: string, spec: Spec, pre: string, a: string, b: string, post: string) {
    header == PREFIX + (pre + (a + "-" + b) + post) && AllSpace(pre) && AllSpace(post) && Means(a, b, spec)
  }

  /** Any number of leading zeros, and white space around the specifier. */
  ghost predicate Spells(header: string, spec: Spec) {
    exists pre, a, b, post :: SpelledBy(header, spec, pre, a, b, post)
  }

  // ---------------------------------------------------------------------
  // Reading what is spelled
  // ---------------------------------------------------------------------

  lemma {:induction false} TrimLeftPadded(pre: string, t: string)
    requires AllSpace(pre) && t != [] && !IsSpace(t[0])
    ensures TrimLeft(pre + t) == t
  {
    if pre == [] {
      assert pre + t == t;
    } else {
      assert (pre + t)[1..] == pre[1..] + t;
      TrimLeftPadded(pre[1..], t);
    }
  }

  lemma {:induction false} TrimRightPadded(t: string, post: string)
    requires AllSpace(post) && t != [] && !IsSpace(t[|t| - 1])
    ensures TrimRight(t + post) == t
  {
    if post == [] {
      assert t + post == t;
    } else {
      var n := |post| - 1;
      assert (t + post)[..|t| + n] == t + post[..n];
      TrimRightPadded(t, post[..n]);
    }
  }

  lemma TrimPadded(pre: string, t: string, post: string)
    requires AllSpace(pre) && AllSpace(post) && t != [] && Trimmed(t)
    ensures Trim(pre + t + post) == t
  {
    assert pre + t + post == pre + (t + post);
    TrimLeftPadded(pre, t + post);
    TrimRightPadded(t, post);
  }

  lemma {:induction false} TrimLeftDrops(s: string) returns (pre: string)
    ensures AllSpace(pre) && s == pre + TrimLeft(s)
  {
    if s != [] && IsSpace(s[0]) {
      var rest := TrimLeftDrops(s[1..]);
      pre := [s[0]] + rest;
      assert s == [s[0]] + s[1..];
    } else {
      pre := "";
    }
  }

  lemma {:induction false} TrimRightDrops(s: string) returns (post: string)
    ensures AllSpace(post) && s == TrimRight(s) + post
  {
    if s != [] && IsSpace(s[|s| - 1]) {
      var rest := TrimRightDrops(s[..|s| - 1]);
      post := rest + [s[|s| - 1]];
      assert s == s[..|s| - 1] + [s[|s| - 1]];
    } else {
      post := "";
    }
  }

  lemma DashOfPair(a: string, b: string)
    requires AllDigits(a)
    ensures DashAt(a + "-" + b) == |a|
    ensures (a + "-" + b)[..|a|] == a && (a + "-" + b)[|a| + 1..] == b
  {
    var s := a + "-" + b;
    var p := DashAt(s);
    assert s[|a|] == '-';
    assert forall i | 0 <= i < |a| :: s[i] == a[i] && IsDigit(a[i]);
    assert forall i | 0 <= i < p :: s[i] == s[..p][i] != '-';
  }

  lemma ReadsSpelling(header: string, spec: Spec, pre: string, a: string, b: string, post: string, fileSize: nat)
    requires SpelledBy(header, spec, pre, a, b, post)
    ensures ParseRangeHeader(Some(header), fileSize) == Resolved(a, b, fileSize)
  {
    var t := a + "-" + b;
    var value := pre + t + post;
    assert header[|PREFIX|..] == value;
    assert Trimmed(t) by {
      assert t[0] == if a == [] then '-' else a[0];
      assert t[|t| - 1] == if b == [] then '-' else b[|b| - 1];
    }
    TrimPadded(pre, t, post);
    assert ',' !in value by {
      assert ',' !in pre && ',' !in post && ',' !in t;
    }
    DashOfPair(a, b);
  }

  /** The range resolved is the one section 2.1 selects: none exactly when the
      specifier is invalid or selects no byte of the file. */
  lemma AgreesWithSpec(header: string, spec: Spec, fileSize: nat)
    requires Spells(header, spec)
    ensures match ParseRangeHeader(Some(header), fileSize)
            case None => !IsValid(spec) || forall i :: !Selects(spec, fileSize, i)
            case Some(r) =>
              && IsValid(spec) && r.start <= r.end < fileSize
              && forall i :: r.start <= i <= r.end <==> Selects(spec, fileSize, i)
  {
    var pre, a, b, post :| SpelledBy(header, spec, pre, a, b, post);
    ReadsSpelling(header, spec, pre, a, b, post, fileSize);
  }

  /** And nothing else resolves: no other header yields a range. */
  lemma OnlySpecsResolve(header: string, fileSize: nat)
    requires ParseRangeHeader(Some(header), fileSize).Some?
    ensures exists spec :: Spells(header, spec)
  {
    var value := header[|PREFIX|..];
    var pre := TrimLeftDrops(value);
    var post := TrimRightDrops(TrimLeft(value));
    var text := Trim(value);
    var p := DashAt(text);
    var a, b := text[..p], text[p + 1..];
    assert text == a + "-" + b;
    assert header == PREFIX + (pre + (a + "-" + b) + post);
    var spec :=
      if a == "" then Suffix(Decimal(b))
      else if b == "" then FromOn(Decimal(a))
      else FromTo(Decimal(a), Decimal(b));
    assert SpelledBy(header, spec, pre, a, b, post);
    assert Spells(header, spec);
  }

  // ---------------------------------------------------------------------
  // Cutting a file in two
  // ---------------------------------------------------------------------

  function Print(spec: Spec): string {
    PREFIX + match spec
             case FromTo(first, last) => Digits(first) + "-" + Digits(last)
             case FromOn(first) => Digits(first) + "-"
             case Suffix(length) => "-" + Digits(length)
  }

  lemma PrintSpells(spec: Spec)
    ensures Spells(Print(spec), spec)
  {
    var (a, b) := match spec
      case FromTo(first, last) => (Digits(first), Digits(last))
      case FromOn(first) => (Digits(first), "")
      case Suffix(length) => ("", Digits(length));
    match spec {
      case FromTo(first, last) => DecimalDigits(first); DecimalDigits(last);
      case FromOn(first) => DecimalDigits(first);
      case Suffix(length) => DecimalDigits(length);
    }
    assert Print(spec) == PREFIX + ("" + (a + "-" + b) + "");
    assert SpelledBy(Print(spec), spec, "", a, b, "");
  }

  function Slice<T>(data: seq<T>, r: Range): seq<T>
    requires r.start <= r.end < |data|
  {
    data[r.start..r.end + 1]
  }

  /** The header printed for these bytes is answered with this range. */
  predicate Resolves(spec: Spec, fileSize: nat, r: Range) {
    ParseRangeHeader(Some(Print(spec)), fileSize) == Some(r)
  }

  /** The first k bytes and the rest, asked for separately, make the file. */
  lemma TwoHalves<T>(data: seq<T>, k: nat)
    requires 0 < k < |data|
    ensures Resolves(FromTo(0, k - 1), |data|, Range(0, k - 1))
    ensures Resolves(FromOn(k), |data|, Range(k, |data| - 1))
    ensures Slice(data, Range(0, k - 1)) + Slice(data, Range(k, |data| - 1)) == data
  {
    FirstHalf(k, |data|);
    SecondHalf(k, |data|);
    SlicesJoin(data, k);
  }

  lemma SlicesJoin<T>(data: seq<T>, k: nat)
    requires 0 < k < |data|
    ensures Slice(data, Range(0, k - 1)) + Slice(data, Range(k, |data| - 1)) == data
  {
  }

  lemma FirstHalf(k: nat, fileSize: nat)
    requires 0 < k < fileSize
    ensures Resolves(FromTo(0, k - 1), fileSize, Range(0, k - 1))
  {
    Pinned(FromTo(0, k - 1), fileSize, Range(0, k - 1));
  }

  lemma SecondHalf(k: nat, fileSize: nat)
    requires 0 < k < fileSize
    ensures Resolves(FromOn(k), fileSize, Range(k, fileSize - 1))
  {
    Pinned(FromOn(k), fileSize, Range(k, fileSize - 1));
  }

  lemma SameRange(spec: Spec, fileSize: nat, r: Range, q: Range)
    requires r.start <= r.end < fileSize && q.start <= q.end < fileSize
    requires forall i :: r.start <= i <= r.end <==> Selects(spec, fileSize, i)
    requires forall i :: q.start <= i <= q.end <==> Selects(spec, fileSize, i)
    ensures r == q
  {
    assert Selects(spec, fileSize, r.start) && Selects(spec, fileSize, q.start);
    assert Selects(spec, fileSize, r.end) && Selects(spec, fileSize, q.end);
  }

  lemma Pinned(spec: Spec, fileSize: nat, r: Range)
    requires IsValid(spec) && r.start <= r.end < fileSize
    requires forall i :: r.start <= i <= r.end <==> Selects(spec, fileSize, i)
    ensures ParseRangeHeader(Some(Print(spec)), fileSize) == Some(r)
  {
    PrintSpells(spec);
    AgreesWithSpec(Print(spec), spec, fileSize);
    assert Selects(spec, fileSize, r.start);
    match ParseRangeHeader(Some(Print(spec)), fileSize)
    case None =>
    case Some(q) => SameRange(spec, fileSize, r, q);
  }
}
