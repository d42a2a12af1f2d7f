/** The JavaScript string operations the other modules need. */
module Text {

  /** What String.prototype.trim removes. */
  predicate IsSpace(c: char) {
    var n := c as int;
    || 0x09 <= n <= 0x0D || n == 0x20 || n == 0xA0 || n == 0x1680 || 0x2000 <= n <= 0x200A
    || n == 0x2028 || n == 0x2029 || n == 0x202F || n == 0x205F || n == 0x3000 || n == 0xFEFF
  }

  function TrimLeft(s: string): string {
    if s != [] && IsSpace(s[0]) then TrimLeft(s[1..]) else s
  }

  function TrimRight(s: string): string {
    if s != [] && IsSpace(s[|s| - 1]) then TrimRight(s[..|s| - 1]) else s
  }

  function Trim(s: string): string {
    TrimRight(TrimLeft(s))
  }

  predicate Trimmed(s: string) {
    s != [] ==> !IsSpace(s[0]) && !IsSpace(s[|s| - 1])
  }

  lemma {:induction false} TrimRightKeepsStart(s: string)
    requires s != [] ==> !IsSpace(s[0])
    ensures Trimmed(TrimRight(s))
  {
    if s != [] && IsSpace(s[|s| - 1]) { TrimRightKeepsStart(s[..|s| - 1]); }
  }

  lemma {:induction false} TrimLeftStarts(s: string)
    ensures TrimLeft(s) != [] ==> !IsSpace(TrimLeft(s)[0])
  {
    if s != [] && IsSpace(s[0]) { TrimLeftStarts(s[1..]); }
  }

  lemma TrimTrims(s: string)
    ensures Trimmed(Trim(s))
  {
    TrimLeftStarts(s);
    TrimRightKeepsStart(TrimLeft(s));
  }

  lemma TrimmedStays(s: string)
    requires Trimmed(s)
    ensures Trim(s) == s
  {
  }

  /** toLowerCase, on ASCII letters. */
  function LowerChar(c: char): char {
    if 'A' <= c <= 'Z' then (c as int + 32) as char else c
  }

  function Lower(s: string): (r: string)
    ensures |r| == |s|
  {
    seq(|s|, i requires 0 <= i < |s| => LowerChar(s[i]))
  }

  /** How addresses are compared: trimmed, lower case. */
  function Normalized(s: string): string {
    Lower(Trim(s))
  }

  lemma NormalizedOnce(s: string)
    ensures Normalized(Normalized(s)) == Normalized(s)
  {
    TrimTrims(s);
    var n := Normalized(s);
    assert Trimmed(n);
    TrimmedStays(n);
    assert forall i | 0 <= i < |n| :: LowerChar(n[i]) == n[i];
  }

  predicate AllSpaces(s: string) {
    forall i | 0 <= i < |s| :: IsSpace(s[i])
  }

  lemma {:induction false} TrimLeftCuts(s: string) returns (before: string)
    ensures s == before + TrimLeft(s) && AllSpaces(before)
  {
    if s != [] && IsSpace(s[0]) {
      before := TrimLeftCuts(s[1..]);
      before := [s[0]] + before;
      assert s == [s[0]] + s[1..];
    } else {
      before := "";
    }
  }

  lemma {:induction false} TrimRightCuts(s: string) returns (after: string)
    ensures s == TrimRight(s) + after && AllSpaces(after)
  {
    if s != [] && IsSpace(s[|s| - 1]) {
      after := TrimRightCuts(s[..|s| - 1]);
      after := after + [s[|s| - 1]];
      assert s == s[..|s| - 1] + [s[|s| - 1]];
    } else {
      after := "";
    }
  }

  /** Trimming takes spaces from both ends and leaves none there. */
  lemma TrimCuts(s: string) returns (before: string, after: string)
    ensures s == before + Trim(s) + after && AllSpaces(before) && AllSpaces(after) && Trimmed(Trim(s))
  {
    before := TrimLeftCuts(s);
    after := TrimRightCuts(TrimLeft(s));
    TrimTrims(s);
    assert before + (Trim(s) + after) == before + Trim(s) + after;
  }

  /** The same letter, or the same character. */
  predicate SameButCase(x: char, y: char) {
    || x == y
    || ('A' <= x <= 'Z' && y as int == x as int + ('a' as int - 'A' as int))
    || ('A' <= y <= 'Z' && x as int == y as int + ('a' as int - 'A' as int))
  }

  /** Two addresses compare equal exactly when they differ by the spaces around them
      and by case only. */
  lemma NormalizedExactly(s: string, t: string)
    ensures Normalized(s) == Normalized(t) <==>
              |Trim(s)| == |Trim(t)| && forall i | 0 <= i < |Trim(s)| :: SameButCase(Trim(s)[i], Trim(t)[i])
  {
    var x, y := Trim(s), Trim(t);
    if Normalized(s) == Normalized(t) {
      forall i | 0 <= i < |x| ensures SameButCase(x[i], y[i]) {
        assert Lower(x)[i] == Lower(y)[i];
      }
    } else {
      assert |x| == |y| ==> exists i :: 0 <= i < |x| && Lower(x)[i] != Lower(y)[i];
    }
  }

  // ---------------------------------------------------------------------
  // Splitting and joining
  // ---------------------------------------------------------------------

  /** s.split(sep), one-character separator: always at least one part. */
  function Split(s: string, sep: char): (parts: seq<string>)
    ensures parts != []
  {
    if s == [] then [""]
    else
      WithFront(s[0], Split(s[1..], sep), sep)
  }

  function Join(parts: seq<string>, sep: char): string {
    if parts == [] then ""
    else if |parts| == 1 then parts[0]
    else parts[0] + [sep] + Join(parts[1..], sep)
  }

  lemma {:induction false} SplitPlain(s: string, sep: char)
    requires sep !in s
    ensures Split(s, sep) == [s]
  {
    if s != [] {
      SplitPlain(s[1..], sep);
      assert [s[0]] + s[1..] == s;
    }
  }

  /** One character more in front of a text split in parts. */
  function WithFront(c: char, parts: seq<string>, sep: char): seq<string>
    requires parts != []
  {
    if c == sep then [""] + parts else [[c] + parts[0]] + parts[1..]
  }

  lemma WithFrontConcat(c: char, parts: seq<string>, more: seq<string>, sep: char)
    requires parts != []
    ensures WithFront(c, parts + more, sep) == WithFront(c, parts, sep) + more
  {
    assert (parts + more)[1..] == parts[1..] + more;
  }

  lemma {:induction false} SplitConcat(a: string, b: string, sep: char)
    ensures Split(a + [sep] + b, sep) == Split(a, sep) + Split(b, sep)
  {
    var s := a + [sep] + b;
    if a == [] {
      assert s[1..] == b;
    } else {
      assert s[1..] == a[1..] + [sep] + b;
      SplitConcat(a[1..], b, sep);
      WithFrontConcat(a[0], Split(a[1..], sep), Split(b, sep), sep);
    }
  }

  lemma SplitAtFirst(a: string, b: string, sep: char)
    requires sep !in a
    ensures Split(a + [sep] + b, sep) == [a] + Split(b, sep)
  {
    SplitPlain(a, sep);
    SplitConcat(a, b, sep);
  }

  /** Splitting undoes joining, when no part holds the separator. */
  lemma {:induction false} SplitJoin(parts: seq<string>, sep: char)
    requires parts != [] && forall p | p in parts :: sep !in p
    ensures Split(Join(parts, sep), sep) == parts
  {
    if |parts| == 1 {
      SplitPlain(parts[0], sep);
    } else {
      SplitAtFirst(parts[0], Join(parts[1..], sep), sep);
      SplitJoin(parts[1..], sep);
    }
  }

  /** Joining undoes splitting, always. */
  lemma {:induction false} JoinSplit(s: string, sep: char)
    ensures Join(Split(s, sep), sep) == s
  {
    if s != [] {
      var rest := Split(s[1..], sep);
      JoinSplit(s[1..], sep);
      JoinWithFront(s[0], rest, sep);
      assert [s[0]] + s[1..] == s;
    }
  }

  lemma JoinWithFront(c: char, parts: seq<string>, sep: char)
    requires parts != []
    ensures Join(WithFront(c, parts, sep), sep) == [c] + Join(parts, sep)
  {
    if c == sep {
      assert ([""] + parts)[1..] == parts && "" + [sep] + Join(parts, sep) == [sep] + Join(parts, sep);
    } else {
      var front := [[c] + parts[0]] + parts[1..];
      assert front[1..] == parts[1..];
      if |parts| > 1 {
        assert [c] + parts[0] + [sep] + Join(parts[1..], sep) == [c] + (parts[0] + [sep] + Join(parts[1..], sep));
      }
    }
  }

  /** Splitting loses nothing but the separator. */
  lemma {:induction false} SplitKeeps(s: string, sep: char, c: char) returns (k: nat)
    requires c in s && c != sep
    ensures k < |Split(s, sep)| && c in Split(s, sep)[k]
  {
    var rest := Split(s[1..], sep);
    if s[0] == c {
      k := 0;
    } else {
      k := SplitKeeps(s[1..], sep, c);
      if s[0] == sep {
        k := k + 1;
      } else if k > 0 {
        assert Split(s, sep)[k] == rest[k];
      }
    }
  }

  // ---------------------------------------------------------------------
  // Numerals
  // ---------------------------------------------------------------------

  predicate IsDigit(c: char) {
    '0' <= c <= '9'
  }

  predicate AllDigits(s: string) {
    forall i | 0 <= i < |s| :: IsDigit(s[i])
  }

  /** parseInt(s, 10) on a string of digits. */
  function Decimal(s: string): nat
    requires AllDigits(s)
  {
    if s == [] then 0 else 10 * Decimal(s[..|s| - 1]) + (s[|s| - 1] as int - '0' as int)
  }

  /** String(n): shortest decimal numeral. */
  function Digits(n: nat): (s: string)
    ensures s != [] && AllDigits(s)
  {
    if n < 10 then [('0' as int + n) as char]
    else Digits(n / 10) + [('0' as int + n % 10) as char]
  }

  lemma {:induction false} DecimalDigits(n: nat)
    ensures Decimal(Digits(n)) == n
  {
    if n >= 10 {
      DecimalDigits(n / 10);
      assert Digits(n)[..|Digits(n)| - 1] == Digits(n / 10);
    }
  }
}
