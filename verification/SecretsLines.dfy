/**
 What the written secrets.env is read as, whatever the values hold: a value with a
 line feed comes back as its first line, and its other lines as lines of their own.
 */
module SecretsLines {
  import opened Wrappers
  import opened Text
  import opened SecretsFile

  /** The value read back from the first line that a value was written on. */
  function Head(value: string): string {
    Unquoted(Trim(Split(Quoted(value), '\n')[0]))
  }

  /** The lines after it. */
  function Rest(value: string): seq<string> {
    Split(Quoted(value), '\n')[1..]
  }

  function Read(v: Variable): map<string, string> {
    map[EnvVarName(v) := Head(Effective(v))] + ParseLines(Rest(Effective(v)))
  }

  /** Later lines win over earlier ones. */
  function Replayed(vars: seq<Variable>): map<string, string> {
    if vars == [] then map[]
    else
      var n := |vars| - 1;
      Replayed(vars[..n]) + if vars[n].obscured then Read(vars[n]) else map[]
  }

  // ---------------------------------------------------------------------
  // The lines of the file
  // ---------------------------------------------------------------------

  function Flat(lines: seq<string>): seq<string> {
    if lines == [] then [] else Split(lines[0], '\n') + Flat(lines[1..])
  }

  lemma {:induction false} FlatSnoc(lines: seq<string>, line: string)
    ensures Flat(lines + [line]) == Flat(lines) + Split(line, '\n')
  {
    if lines == [] {
      assert ([line])[1..] == [];
    } else {
      assert (lines + [line])[1..] == lines[1..] + [line];
      FlatSnoc(lines[1..], line);
    }
  }

  lemma {:induction false} SplitJoined(lines: seq<string>)
    requires lines != []
    ensures Split(Join(lines, '\n'), '\n') == Flat(lines)
  {
    if |lines| == 1 {
      assert Flat(lines[1..]) == [];
    } else {
      SplitConcat(lines[0], Join(lines[1..], '\n'), '\n');
      SplitJoined(lines[1..]);
    }
  }

  lemma {:induction false} ParseConcat(a: seq<string>, b: seq<string>)
    ensures ParseLines(a + b) == ParseLines(a) + ParseLines(b)
  {
    if b == [] {
      assert a + b == a;
    } else {
      var n := |b| - 1;
      assert (a + b)[..|a + b| - 1] == a + b[..n];
      ParseConcat(a, b[..n]);
    }
  }

  lemma ParseOne(line: string)
    ensures ParseLines([line]) == match ParseLine(line)
              case None => map[]
              case Some((key, value)) => map[key := value]
  {
    assert [line][..0] == [];
  }

  lemma {:induction false} SplitPrefix(pre: string, s: string, sep: char)
    requires sep !in pre
    ensures Split(pre + s, sep) == [pre + Split(s, sep)[0]] + Split(s, sep)[1..]
  {
    var parts := Split(s, sep);
    if pre == "" {
      assert pre + s == s && pre + parts[0] == parts[0];
      assert [parts[0]] + parts[1..] == parts;
    } else {
      assert (pre + s)[1..] == pre[1..] + s;
      SplitPrefix(pre[1..], s, sep);
      assert [pre[0]] + (pre[1..] + parts[0]) == pre + parts[0];
    }
  }

  // ---------------------------------------------------------------------
  // The first line of a value
  // ---------------------------------------------------------------------

  lemma {:induction false} TrimRightPrefix(pre: string, s: string)
    requires s != "" && !IsSpace(s[0])
    ensures TrimRight(pre + s) == pre + TrimRight(s)
  {
    if IsSpace(s[|s| - 1]) {
      assert (pre + s)[..|pre + s| - 1] == pre + s[..|s| - 1];
      TrimRightPrefix(pre, s[..|s| - 1]);
    }
  }

  lemma TrimOfStart(s: string)
    requires s != "" && !IsSpace(s[0])
    ensures Trim(s) == TrimRight(s) && Trim(TrimRight(s)) == TrimRight(s)
  {
    TrimRightKeepsStart(s);
    TrimmedStays(TrimRight(s));
  }

  lemma KeyLineParses(key: string, s: string)
    requires IsKey(key) && s != "" && !IsSpace(s[0])
    ensures ParseLine(key + "=" + s) == Some((key, Unquoted(Trim(s))))
  {
    var line := key + "=" + s;
    KeyChars(key);
    assert line[0] == key[0] && line == (key + "=") + s;
    TrimRightPrefix(key + "=", s);
    TrimOfStart(line);
    TrimOfStart(s);
    var trimmed := key + "=" + TrimRight(s);
    assert Trim(line) == trimmed;
    EqualsAt(key, TrimRight(s));
    assert trimmed[..|key|] == key && trimmed[|key| + 1..] == TrimRight(s);
    TrimmedStays(key);
  }

  lemma FirstPart(value: string)
    ensures Split(Quoted(value), '\n')[0] == "\"" + Split(Escaped(value) + "\"", '\n')[0]
  {
    assert Quoted(value) == "\"" + (Escaped(value) + "\"");
    SplitPrefix("\"", Escaped(value) + "\"", '\n');
  }

  lemma LineReads(v: Variable)
    requires PlainlyNamed(v)
    ensures ParseLines(Split(Line(v), '\n')) == Read(v)
  {
    var key, parts := EnvVarName(v), Split(Quoted(Effective(v)), '\n');
    EnvVarNameIsKey(v);
    KeyChars(key);
    assert Line(v) == (key + "=") + Quoted(Effective(v));
    SplitPrefix(key + "=", Quoted(Effective(v)), '\n');
    FirstPart(Effective(v));
    KeyLineParses(key, parts[0]);
    ParseOne(key + "=" + parts[0]);
    ParseConcat([key + "=" + parts[0]], parts[1..]);
  }

  lemma {:induction false} LinesRead(vars: seq<Variable>)
    requires AllPlainlyNamed(vars)
    ensures ParseLines(Flat(Lines(vars))) == Replayed(vars)
  {
    if vars != [] {
      var n := |vars| - 1;
      LinesRead(vars[..n]);
      LinesSnoc(vars);
      if vars[n].obscured {
        FlatSnoc(Lines(vars[..n]), Line(vars[n]));
        ParseConcat(Flat(Lines(vars[..n])), Split(Line(vars[n]), '\n'));
        LineReads(vars[n]);
      } else {
        assert Lines(vars) == Lines(vars[..n]);
      }
    }
  }

  /** Whatever the values hold, the written file is read as each variable's first
      line, then its other lines. */
  lemma FileReads(vars: seq<Variable>)
    requires AllPlainlyNamed(vars)
    ensures Parse(Content(vars)) == Replayed(vars)
  {
    var lines := Lines(vars);
    LinesRead(vars);
    if lines == [] {
      assert Content(vars) == "";
      assert ParseLine("") == None;
      ParseOne("");
    } else {
      assert Content(vars) == Join(lines, '\n') + ['\n'] + "";
      SplitConcat(Join(lines, '\n'), "", '\n');
      SplitJoined(lines);
      ParseConcat(Flat(lines), [""]);
      ParseOne("");
    }
  }

  // ---------------------------------------------------------------------
  // What the first line is
  // ---------------------------------------------------------------------

  lemma QuotedHolds(value: string, c: char)
    requires c != '\\' && c != '"'
    ensures c in Quoted(value) <==> c in value
  {
    BackslashedChars(value, '\\', c);
    BackslashedChars(Backslashed(value, '\\'), '"', c);
  }

  /** A value on one line comes back whole. */
  lemma HeadOfLine(value: string)
    requires '\n' !in value
    ensures Head(value) == value && Rest(value) == []
  {
    QuotedHolds(value, '\n');
    SplitPlain(Quoted(value), '\n');
    TrimmedStays(Quoted(value));
    assert Quoted(value)[1..|Quoted(value)| - 1] == Escaped(value);
    UnescapedEscaped(value);
  }

  lemma {:induction false} TrimRightIsPrefix(s: string)
    ensures |TrimRight(s)| <= |s| && TrimRight(s) == s[..|TrimRight(s)|]
  {
    if s != "" && IsSpace(s[|s| - 1]) {
      TrimRightIsPrefix(s[..|s| - 1]);
    }
  }

  lemma UnescapedKeepsSome(s: string)
    requires s != ""
    ensures Unescaped(s) != ""
  {
  }

  /** No line of a value written is just two quotes. */
  lemma NotJustQuotes(value: string, first: string)
    requires value != "" && first == Split(Quoted(value), '\n')[0]
    ensures first[..1] == "\"" && (|first| >= 2 ==> first[1] != '"')
  {
    var rest := Escaped(value) + "\"";
    FirstPart(value);
    EscapedHead(value);
    assert rest[0] != '"';
    assert Split(rest, '\n')[0] != "" ==> Split(rest, '\n')[0][0] == rest[0];
  }

  /** A value with a line feed comes back as something else, never as nothing. */
  lemma HeadIsCut(value: string)
    requires '\n' in value
    ensures Head(value) != "" && '\n' !in Head(value)
  {
    var first := Split(Quoted(value), '\n')[0];
    SplitKeepsOut(Quoted(value), '\n');
    assert first in Split(Quoted(value), '\n');
    NotJustQuotes(value, first);
    assert first[0] == first[..1][0];
    TrimOfStart(first);
    var t := TrimRight(first);
    TrimRightIsPrefix(first);
    TrimRightKeepsOut(first, '\n');
    TrimRightPrefix("", first);
    TrimRightStays(first);
    if Wrapped(t, '"') {
      assert t[1] == first[1] && |t| > 2;
      UnescapedKeepsSome(t[1..|t| - 1]);
      UnescapedKeepsOut(t[1..|t| - 1], '\n');
    }
  }

  lemma {:induction false} TrimRightStays(s: string)
    requires s != "" && !IsSpace(s[0])
    ensures TrimRight(s) != "" && TrimRight(s)[0] == s[0]
  {
    if IsSpace(s[|s| - 1]) { TrimRightStays(s[..|s| - 1]); }
  }

  predicate IsPlain(s: string) {
    s != "" && Trimmed(s) && forall c | c in s :: c != '\n' && c != '"' && c != '\\' && c != '\''
  }

  lemma {:induction false} BackslashedConcat(a: string, b: string, c: char)
    ensures Backslashed(a + b, c) == Backslashed(a, c) + Backslashed(b, c)
  {
    if a == "" {
      assert a + b == b;
    } else {
      assert (a + b)[1..] == a[1..] + b;
      BackslashedConcat(a[1..], b, c);
    }
  }

  lemma {:induction false} BackslashedNone(s: string, c: char)
    requires c !in s
    ensures Backslashed(s, c) == s
  {
    if s != "" {
      BackslashedNone(s[1..], c);
      assert [s[0]] + s[1..] == s;
    }
  }

  lemma EscapedConcat(a: string, b: string)
    ensures Escaped(a + b) == Escaped(a) + Escaped(b)
    ensures '"' !in b && '\\' !in b ==> Escaped(b) == b
  {
    BackslashedConcat(a, b, '\\');
    BackslashedConcat(Backslashed(a, '\\'), Backslashed(b, '\\'), '"');
    if '"' !in b && '\\' !in b {
      BackslashedNone(b, '\\');
      BackslashedNone(b, '"');
    }
  }

  lemma QuotedTwo(line: string, more: string)
    requires '"' !in line && '\\' !in line
    ensures Quoted(line + "\n" + more) == ("\"" + line) + ['\n'] + (Escaped(more) + "\"")
  {
    EscapedConcat("", line);
    EscapedConcat(line, "\n");
    EscapedConcat(line + "\n", more);
  }

  /** Of two plain lines or more, the first comes back, with the quote that opened
      the value. */
  lemma HeadOfTwo(line: string, more: string)
    requires IsPlain(line)
    ensures Head(line + "\n" + more) == "\"" + line
  {
    QuotedTwo(line, more);
    SplitAtFirst("\"" + line, Escaped(more) + "\"", '\n');
    TrimmedStays("\"" + line);
    assert ("\"" + line)[|line|] == line[|line| - 1];
    assert line[|line| - 1] in line;
  }

  /** A line inside a value that is not its first nor its last is a line of the file. */
  lemma QuotedInner(x: string, line: string)
    requires '"' !in line && '\\' !in line
    ensures Quoted(x + "\n" + line + "\n") == ("\"" + Escaped(x) + ['\n'] + line) + ['\n'] + "\""
  {
    EscapedConcat(x, "\n");
    EscapedConcat(x + "\n", line);
    EscapedConcat(x + "\n" + line, "\n");
  }

  lemma InnerLine(x: string, line: string)
    requires '\n' !in line && '"' !in line && '\\' !in line
    ensures var parts := Rest(x + "\n" + line + "\n");
            |parts| >= 2 && parts[|parts| - 2] == line && parts[|parts| - 1] == "\""
  {
    var a := "\"" + Escaped(x);
    QuotedInner(x, line);
    SplitConcat(a + ['\n'] + line, "\"", '\n');
    SplitConcat(a, line, '\n');
    SplitPlain(line, '\n');
    SplitPlain("\"", '\n');
  }

  /** So it can set a variable. */
  lemma InnerLineReads(x: string, key: string, y: string)
    requires IsKey(key) && IsPlain(y)
    ensures var read := ParseLines(Rest(x + "\n" + (key + "=" + y) + "\n")); key in read && read[key] == y
  {
    var line := key + "=" + y;
    KeyChars(key);
    KeyHasNoQuote(key);
    InnerLine(x, line);
    var parts := Rest(x + "\n" + line + "\n");
    var n := |parts| - 2;
    assert y[0] in y;
    KeyLineParses(key, y);
    TrimmedStays(y);
    TrimmedStays("\"");
    assert ParseLine("\"") == None;
    ParseLinesStep(parts, n);
    ParseLinesStep(parts, n + 1);
    assert parts[..n + 2] == parts;
  }

  lemma KeyHasNoQuote(key: string)
    requires IsKey(key)
    ensures '"' !in key && '\\' !in key
  {
    assert forall i | 0 <= i < |key| :: IsNameChar(key[i]);
  }

  // ---------------------------------------------------------------------
  // A table whose other lines set none of its variables
  // ---------------------------------------------------------------------

  predicate SetsNone(value: string, vars: seq<Variable>) {
    forall i | 0 <= i < |vars| && vars[i].obscured :: EnvVarName(vars[i]) !in ParseLines(Rest(value))
  }

  predicate Contained(vars: seq<Variable>) {
    forall i | 0 <= i < |vars| && vars[i].obscured :: SetsNone(Effective(vars[i]), vars)
  }

  lemma ReplayedNext(vars: seq<Variable>, n: nat)
    requires n < |vars|
    ensures Replayed(vars[..n + 1]) == Replayed(vars[..n]) + if vars[n].obscured then Read(vars[n]) else map[]
  {
    assert vars[..n + 1][..n] == vars[..n];
  }

  lemma ReadSays(v: Variable)
    ensures EnvVarName(v) !in ParseLines(Rest(Effective(v))) ==>
              EnvVarName(v) in Read(v) && Read(v)[EnvVarName(v)] == Head(Effective(v))
    ensures forall key | key in Read(v) :: key == EnvVarName(v) || key in ParseLines(Rest(Effective(v)))
    ensures '\n' !in Effective(v) ==> Read(v) == map[EnvVarName(v) := Effective(v)]
  {
    if '\n' !in Effective(v) { HeadOfLine(Effective(v)); }
  }

  /** Reading the line of another variable. */
  lemma ReadElsewhere(vars: seq<Variable>, i: nat, n: nat)
    requires DistinctNames(vars) && Contained(vars) && i < n < |vars| && vars[i].obscured && vars[n].obscured
    ensures EnvVarName(vars[i]) !in Read(vars[n])
  {
    assert SetsNone(Effective(vars[n]), vars);
    ReadSays(vars[n]);
  }

  lemma {:induction false} ReplayedHead(vars: seq<Variable>, i: nat, n: nat)
    requires DistinctNames(vars) && Contained(vars) && i < n <= |vars| && vars[i].obscured
    ensures EnvVarName(vars[i]) in Replayed(vars[..n])
    ensures Replayed(vars[..n])[EnvVarName(vars[i])] == Head(Effective(vars[i]))
  {
    ReplayedNext(vars, n - 1);
    if i == n - 1 {
      assert SetsNone(Effective(vars[i]), vars);
      ReadSays(vars[i]);
    } else {
      ReplayedHead(vars, i, n - 1);
      if vars[n - 1].obscured { ReadElsewhere(vars, i, n - 1); }
    }
  }

  /** Where no value spans lines, the lines set nothing else. */
  lemma OneLineIsContained(vars: seq<Variable>)
    requires NoLineFeed(vars)
    ensures Contained(vars)
  {
    forall i | 0 <= i < |vars| && vars[i].obscured ensures SetsNone(Effective(vars[i]), vars) {
      HeadOfLine(Effective(vars[i]));
    }
  }

  lemma {:induction false} ReplayedKeys(vars: seq<Variable>, key: string) returns (i: nat)
    requires NoLineFeed(vars) && key in Replayed(vars)
    ensures i < |vars| && vars[i].obscured && EnvVarName(vars[i]) == key
  {
    var n := |vars| - 1;
    if vars[n].obscured && EnvVarName(vars[n]) == key {
      i := n;
    } else {
      ReadSays(vars[n]);
      i := ReplayedKeys(vars[..n], key);
    }
  }

  lemma OneLineMirrors(vars: seq<Variable>)
    requires DistinctNames(vars) && NoLineFeed(vars)
    ensures Mirrors(Replayed(vars), vars)
  {
    OneLineIsContained(vars);
    assert vars[..|vars|] == vars;
    forall i | 0 <= i < |vars| && vars[i].obscured
      ensures EnvVarName(vars[i]) in Replayed(vars) && Replayed(vars)[EnvVarName(vars[i])] == Effective(vars[i])
    {
      ReplayedHead(vars, i, |vars|);
      HeadOfLine(Effective(vars[i]));
    }
    forall key | key in Replayed(vars)
      ensures exists i | 0 <= i < |vars| :: vars[i].obscured && EnvVarName(vars[i]) == key
    {
      var i := ReplayedKeys(vars, key);
    }
  }

  /** Reading the written file back gives exactly the effective values of the
      obscured variables, if and only if none of those values holds a line feed. */
  lemma RoundTripExactly(vars: seq<Variable>)
    requires DistinctNames(vars) && AllPlainlyNamed(vars)
    ensures Mirrors(Parse(Content(vars)), vars) <==> NoLineFeed(vars)
  {
    if NoLineFeed(vars) {
      FileReads(vars);
      OneLineMirrors(vars);
    } else {
      SplitKeepsOut(Content(vars), '\n');
      ParsedHasNoFeed(Split(Content(vars), '\n'));
    }
  }

  /** The file up to variable n gives the key this value. */
  predicate SaysBy(vars: seq<Variable>, n: nat, key: string, value: string) {
    n <= |vars| && key in Replayed(vars[..n]) && Replayed(vars[..n])[key] == value
  }

  /** The variable sets itself at most, and under another name. */
  predicate Silent(v: Variable, key: string) {
    v.obscured ==> '\n' !in Effective(v) && EnvVarName(v) != key
  }

  lemma SaysOn(vars: seq<Variable>, n: nat, key: string, value: string)
    requires n < |vars| && SaysBy(vars, n, key, value) && Silent(vars[n], key)
    ensures SaysBy(vars, n + 1, key, value)
  {
    ReplayedNext(vars, n);
    ReadSays(vars[n]);
  }

  /** Variables on one line do not set others. */
  lemma {:induction false} ReplayedLater(vars: seq<Variable>, j: nat, n: nat, key: string, value: string)
    requires j < n <= |vars| && SaysBy(vars, j + 1, key, value)
    requires forall k | j < k < |vars| :: Silent(vars[k], key)
    ensures SaysBy(vars, n, key, value)
  {
    if n > j + 1 {
      ReplayedLater(vars, j, n - 1, key, value);
      SaysOn(vars, n - 1, key, value);
    }
  }

  lemma InnerLineWins(vars: seq<Variable>, j: nat, x: string, key: string, y: string)
    requires j < |vars| && vars[j].obscured && IsKey(key) && IsPlain(y)
    requires Effective(vars[j]) == x + "\n" + (key + "=" + y) + "\n"
    requires forall k | j < k < |vars| :: Silent(vars[k], key)
    ensures key in Replayed(vars) && Replayed(vars)[key] == y
  {
    InnerLineReads(x, key, y);
    InnerLineIsRead(vars, j, key, y);
    ReplayedLater(vars, j, |vars|, key, y);
    assert vars[..|vars|] == vars;
  }

  lemma InnerLineIsRead(vars: seq<Variable>, j: nat, key: string, y: string)
    requires j < |vars| && vars[j].obscured && key in ParseLines(Rest(Effective(vars[j])))
    requires ParseLines(Rest(Effective(vars[j])))[key] == y
    ensures SaysBy(vars, j + 1, key, y)
  {
    ReplayedNext(vars, j);
  }
}
