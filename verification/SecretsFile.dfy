/**
 secrets.env of config.service.ts: the names of its variables, its printer and
 its parser.
 */
module SecretsFile {
  import opened Wrappers
  import opened Text

  datatype Variable = Variable(
    category: string, name: string, kind: string, defaultValue: string, value: Option<string>,
    obscured: bool, locked: bool)

  /** variable.value ?? variable.defaultValue */
  function Effective(v: Variable): string {
    if v.value.Some? then v.value.value else v.defaultValue
  }

  // ---------------------------------------------------------------------
  // envVarNameFor
  // ---------------------------------------------------------------------

  function UpperChar(c: char): char {
    if 'a' <= c <= 'z' then (c as int - 32) as char else c
  }

  function Upper(s: string): (r: string)
    ensures |r| == |s|
  {
    seq(|s|, i requires 0 <= i < |s| => UpperChar(s[i]))
  }

  predicate IsLowerOrDigit(c: char) {
    'a' <= c <= 'z' || IsDigit(c)
  }

  predicate IsUpper(c: char) {
    'A' <= c <= 'Z'
  }

  /** Dashes become underscores, and camel case gets one at each hump. */
  function Snake(name: string): string {
    if name == "" then ""
    else
      var c := if name[0] == '-' then '_' else name[0];
      if |name| >= 2 && IsLowerOrDigit(name[0]) && IsUpper(name[1]) then [c] + "_" + Snake(name[1..])
      else [c] + Snake(name[1..])
  }

  function EnvVarName(v: Variable): string {
    Upper(v.category) + "_" + Upper(Snake(v.name))
  }

  predicate IsNameChar(c: char) {
    'a' <= c <= 'z' || IsUpper(c) || IsDigit(c) || c == '-' || c == '_'
  }

  /** Categories and names are letters, digits and dashes. */
  predicate PlainlyNamed(v: Variable) {
    && (forall i | 0 <= i < |v.category| :: IsNameChar(v.category[i]))
    && (forall i | 0 <= i < |v.name| :: IsNameChar(v.name[i]))
  }

  /** A key the parser reads back as it was written. */
  predicate IsKey(key: string) {
    key != "" && forall i | 0 <= i < |key| :: IsNameChar(key[i])
  }

  lemma {:induction false} SnakeIsPlain(name: string)
    requires forall i | 0 <= i < |name| :: IsNameChar(name[i])
    ensures forall i | 0 <= i < |Snake(name)| :: IsNameChar(Snake(name)[i])
  {
    if name != "" { SnakeIsPlain(name[1..]); }
  }

  lemma EnvVarNameIsKey(v: Variable)
    requires PlainlyNamed(v)
    ensures IsKey(EnvVarName(v))
  {
    SnakeIsPlain(v.name);
  }

  // ---------------------------------------------------------------------
  // Names as words
  // ---------------------------------------------------------------------

  /** How a word follows the one before: `clientSecret`, or `redis-url`. */
  datatype Joint = Hump | Dash

  datatype Part = Part(joint: Joint, word: string)

  predicate IsWord(w: string) {
    w != "" && forall i | 0 <= i < |w| :: 'a' <= w[i] <= 'z' || '0' <= w[i] <= '9'
  }

  /** A word after a hump begins with a letter and is not alone with it. */
  predicate IsPart(p: Part) {
    IsWord(p.word) && (p.joint == Hump ==> 'a' <= p.word[0] <= 'z' && |p.word| >= 2)
  }

  predicate AreParts(parts: seq<Part>) {
    forall i | 0 <= i < |parts| :: IsPart(parts[i])
  }

  function Spelled(p: Part): string
    requires IsPart(p)
  {
    match p.joint
    case Hump => [UpperChar(p.word[0])] + p.word[1..]
    case Dash => "-" + p.word
  }

  function SpelledAll(parts: seq<Part>): string
    requires AreParts(parts)
  {
    if parts == [] then "" else Spelled(parts[0]) + SpelledAll(parts[1..])
  }

  /** The words in capitals, each behind an underscore. */
  function Underscored(parts: seq<Part>): string {
    if parts == [] then "" else "_" + Upper(parts[0].word) + Underscored(parts[1..])
  }

  lemma {:induction false} SnakeOfWord(w: string, t: string)
    requires IsWord(w) && (t != "" ==> IsUpper(t[0]) || t[0] == '-')
    ensures Snake(w + t) == w + (if t != "" && IsUpper(t[0]) then "_" else "") + Snake(t)
  {
    assert (w + t)[1..] == w[1..] + t;
    if |w| == 1 {
      assert w + t == [w[0]] + t && w[1..] + t == t;
    } else {
      SnakeOfWord(w[1..], t);
      assert [w[0]] + w[1..] == w;
    }
  }

  lemma UpperConcat(a: string, b: string)
    ensures Upper(a + b) == Upper(a) + Upper(b)
  {
  }

  lemma UpperOnce(c: char)
    ensures UpperChar(UpperChar(c)) == UpperChar(c)
  {
  }

  lemma TailBegins(parts: seq<Part>)
    requires AreParts(parts) && parts != []
    ensures SpelledAll(parts) != "" && SpelledAll(parts)[0] == Spelled(parts[0])[0]
    ensures if parts[0].joint == Hump then IsUpper(SpelledAll(parts)[0]) else SpelledAll(parts)[0] == '-'
  {
  }

  lemma UnderscoreBetween(w: string, u: string)
    ensures Upper(w + "_" + u) == Upper(w) + ("_" + Upper(u))
  {
    UpperConcat(w + "_", u);
    UpperConcat(w, "_");
    assert Upper("_") == "_";
    Grouped(Upper(w), "_", Upper(u));
  }

  lemma Grouped(x: string, y: string, z: string)
    ensures x + y + z == x + (y + z)
  {
  }

  /** The word, and what stands between it and the next. */
  lemma Glued(w: string, u: string, hump: bool, rest: string)
    requires Upper(u) == (if hump then "" else "_") + rest
    ensures Upper(w + (if hump then "_" else "") + u) == Upper(w) + ("_" + rest)
  {
    if hump {
      assert "" + rest == rest;
      UnderscoreBetween(w, u);
    } else {
      assert w + "" == w;
      UpperConcat(w, u);
    }
  }

  /** The words from here on, and what the next one puts in front of itself. */
  lemma {:induction false} SnakeOfTail(w: string, parts: seq<Part>)
    requires IsWord(w) && AreParts(parts)
    ensures Upper(Snake(w + SpelledAll(parts))) == Upper(w) + Underscored(parts)
    decreases |parts|
  {
    var t := SpelledAll(parts);
    if parts == [] {
      SnakeOfWord(w, "");
      assert w + "" == w && w + "" + Snake("") == w;
    } else {
      TailBegins(parts);
      SnakeOfWord(w, t);
      SnakeOfTail(parts[0].word, parts[1..]);
      NextOpens(parts, t);
      Glued(w, Snake(t), parts[0].joint == Hump, Upper(parts[0].word) + Underscored(parts[1..]));
      Grouped("_", Upper(parts[0].word), Underscored(parts[1..]));
    }
  }

  lemma NextOpens(parts: seq<Part>, t: string)
    requires AreParts(parts) && parts != [] && t == SpelledAll(parts)
    requires Upper(Snake(parts[0].word + SpelledAll(parts[1..])))
          == Upper(parts[0].word) + Underscored(parts[1..])
    ensures Upper(Snake(t))
         == (if parts[0].joint == Hump then "" else "_") + (Upper(parts[0].word) + Underscored(parts[1..]))
  {
    var next, rest := parts[0].word, SpelledAll(parts[1..]);
    if parts[0].joint == Hump {
      HumpOpens(next, rest, t);
      assert "" + (Upper(next) + Underscored(parts[1..])) == Upper(next) + Underscored(parts[1..]);
    } else {
      DashOpens(next, rest, t);
    }
  }

  /** A word with its first letter raised, as Snake and Upper see it. */
  lemma HumpOpens(next: string, rest: string, t: string)
    requires IsWord(next) && |next| >= 2 && 'a' <= next[0] <= 'z' && t == [UpperChar(next[0])] + next[1..] + rest
    ensures Upper(Snake(t)) == Upper(Snake(next + rest))
  {
    assert t[1..] == next[1..] + rest && (next + rest)[1..] == next[1..] + rest;
    UpperOnce(next[0]);
    UpperConcat([UpperChar(next[0])], Snake(t[1..]));
    UpperConcat([next[0]], Snake(t[1..]));
    assert Upper([UpperChar(next[0])]) == Upper([next[0]]);
  }

  lemma DashOpens(next: string, rest: string, t: string)
    requires t == "-" + next + rest
    ensures Upper(Snake(t)) == "_" + Upper(Snake(next + rest))
  {
    assert t[1..] == next + rest;
    UpperConcat("_", Snake(next + rest));
    assert Upper("_") == "_";
  }

  /** The name of a variable in the file: category and words, in capitals, with an
      underscore between any two. */
  lemma EnvVarNameOfWords(v: Variable, first: string, parts: seq<Part>)
    requires IsWord(first) && AreParts(parts) && v.name == first + SpelledAll(parts)
    ensures EnvVarName(v) == Upper(v.category) + "_" + (Upper(first) + Underscored(parts))
  {
    SnakeOfTail(first, parts);
  }

  lemma {:induction false} SameWordsUnderscored(parts: seq<Part>, other: seq<Part>)
    requires |parts| == |other| && forall i | 0 <= i < |parts| :: parts[i].word == other[i].word
    ensures Underscored(parts) == Underscored(other)
  {
    if parts != [] { SameWordsUnderscored(parts[1..], other[1..]); }
  }

  /** So names of the same words collide in the file, however they are joined. */
  lemma SameWordsCollide(v: Variable, w: Variable, first: string, parts: seq<Part>, other: seq<Part>)
    requires IsWord(first) && AreParts(parts) && AreParts(other) && v.category == w.category
    requires v.name == first + SpelledAll(parts) && w.name == first + SpelledAll(other)
    requires |parts| == |other| && forall i | 0 <= i < |parts| :: parts[i].word == other[i].word
    ensures EnvVarName(v) == EnvVarName(w)
  {
    EnvVarNameOfWords(v, first, parts);
    EnvVarNameOfWords(w, first, other);
    SameWordsUnderscored(parts, other);
  }

  // ---------------------------------------------------------------------
  // escapeSecretValue and its inverse
  // ---------------------------------------------------------------------

  /** value.replace(/c/g, "\\c") */
  function Backslashed(s: string, c: char): string {
    if s == "" then ""
    else if s[0] == c then ['\\', c] + Backslashed(s[1..], c)
    else [s[0]] + Backslashed(s[1..], c)
  }

  function Escaped(value: string): string {
    Backslashed(Backslashed(value, '\\'), '"')
  }

  function Quoted(value: string): string {
    "\"" + Escaped(value) + "\""
  }

  /** What `.` matches in a regular expression. */
  predicate MatchesDot(c: char) {
    c != '\n' && c != '\r' && c as int != 0x2028 && c as int != 0x2029
  }

  /** value.replace(/\\(.)/g, "$1") */
  function Unescaped(s: string): string {
    if s == "" then ""
    else if |s| >= 2 && s[0] == '\\' && MatchesDot(s[1]) then [s[1]] + Unescaped(s[2..])
    else [s[0]] + Unescaped(s[1..])
  }

  /** A backslash goes before everything but the four line terminators. */
  lemma UnescapedPair(c: char, rest: string)
    ensures Unescaped(['\\', c] + rest)
         == if c == '\n' || c == '\r' || c as int == 0x2028 || c as int == 0x2029
            then ['\\'] + Unescaped([c] + rest) else [c] + Unescaped(rest)
  {
    assert (['\\', c] + rest)[2..] == rest && (['\\', c] + rest)[1..] == [c] + rest;
  }

  lemma UnescapedPlain(c: char, rest: string)
    requires c != '\\'
    ensures Unescaped([c] + rest) == [c] + Unescaped(rest)
  {
    assert ([c] + rest)[1..] == rest;
  }

  lemma {:induction false} UnescapedEscaped(value: string)
    ensures Unescaped(Escaped(value)) == value
  {
    if value != "" {
      UnescapedEscaped(value[1..]);
      EscapedHead(value);
      if value[0] == '\\' || value[0] == '"' {
        UnescapedPair(value[0], Escaped(value[1..]));
      } else {
        UnescapedPlain(value[0], Escaped(value[1..]));
      }
      assert [value[0]] + value[1..] == value;
    }
  }

  lemma EscapedHead(value: string)
    requires value != ""
    ensures Escaped(value) == (if value[0] == '\\' || value[0] == '"' then ['\\', value[0]] else [value[0]])
                              + Escaped(value[1..])
  {
    var rest := Backslashed(value[1..], '\\');
    if value[0] == '\\' {
      var s := ['\\', '\\'] + rest;
      assert s[1..] == ['\\'] + rest && s[1..][1..] == rest;
      assert Backslashed(s, '"') == ['\\'] + Backslashed(s[1..], '"');
      assert Backslashed(s[1..], '"') == ['\\'] + Backslashed(rest, '"');
    } else {
      assert ([value[0]] + rest)[1..] == rest;
    }
  }

  lemma {:induction false} BackslashedChars(s: string, c: char, d: char)
    requires d != '\\'
    ensures d in Backslashed(s, c) <==> d in s
  {
    if s != "" { BackslashedChars(s[1..], c, d); }
  }

  // ---------------------------------------------------------------------
  // The file
  // ---------------------------------------------------------------------

  function Line(v: Variable): string {
    EnvVarName(v) + "=" + Quoted(Effective(v))
  }

  function LinesOf(v: Variable): seq<string> {
    if v.obscured then [Line(v)] else []
  }

  function Lines(vars: seq<Variable>): seq<string> {
    if vars == [] then [] else LinesOf(vars[0]) + Lines(vars[1..])
  }

  /** What writeSecretsFile writes. */
  function Content(vars: seq<Variable>): string {
    Join(Lines(vars), '\n') + if Lines(vars) != [] then "\n" else ""
  }

  /** s.indexOf("="), or |s| when there is none. */
  function IndexOfEquals(s: string): (i: nat)
    ensures i <= |s|
  {
    if s == "" || s[0] == '=' then 0 else 1 + IndexOfEquals(s[1..])
  }

  predicate Wrapped(s: string, quote: char) {
    |s| >= 2 && s[0] == quote && s[|s| - 1] == quote
  }

  function Unquoted(value: string): string {
    if Wrapped(value, '"') then Unescaped(value[1..|value| - 1])
    else if Wrapped(value, '\'') then value[1..|value| - 1]
    else value
  }

  /** The key and value of one line, if it has any. */
  function ParseLine(line: string): Option<(string, string)> {
    var trimmed := Trim(line);
    if trimmed == "" || trimmed[0] == '#' then None
    else
      var eq := IndexOfEquals(trimmed);
      if eq == |trimmed| then None
      else
        var key := Trim(trimmed[..eq]);
        if key == "" then None else Some((key, Unquoted(Trim(trimmed[eq + 1..]))))
  }

  function ParseLines(lines: seq<string>): map<string, string> {
    if lines == [] then map[]
    else
      var before := ParseLines(lines[..|lines| - 1]);
      match ParseLine(lines[|lines| - 1])
      case None => before
      case Some((key, value)) => before[key := value]
  }

  function Parse(raw: string): map<string, string> {
    ParseLines(Split(raw, '\n'))
  }

  lemma ParseLinesStep(lines: seq<string>, i: nat)
    requires i < |lines|
    ensures ParseLines(lines[..i + 1]) == match ParseLine(lines[i])
              case None => ParseLines(lines[..i])
              case Some((key, value)) => ParseLines(lines[..i])[key := value]
  {
    assert lines[..i + 1][..i] == lines[..i];
  }

  /** parseSecretsFile: one pass, skipping what it cannot read. */
  method ParseSecretsFile(raw: string) returns (result: map<string, string>)
    ensures result == Parse(raw)
  {
    result := map[];
    var lines := Split(raw, '\n');
    for i := 0 to |lines|
      invariant result == ParseLines(lines[..i])
    {
      ParseLinesStep(lines, i);
      var trimmed := Trim(lines[i]);
      if trimmed == "" || trimmed[0] == '#' {
        continue;
      }
      var eq := IndexOfEquals(trimmed);
      if eq == |trimmed| {
        continue;
      }
      var key := Trim(trimmed[..eq]);
      var value := Trim(trimmed[eq + 1..]);
      if Wrapped(value, '"') {
        value := Unescaped(value[1..|value| - 1]);
      } else if Wrapped(value, '\'') {
        value := value[1..|value| - 1];
      }
      if key != "" {
        result := result[key := value];
      }
    }
    assert lines[..|lines|] == lines;
  }

  // ---------------------------------------------------------------------
  // Printed lines
  // ---------------------------------------------------------------------

  lemma {:induction false} EqualsAt(key: string, rest: string)
    requires '=' !in key
    ensures IndexOfEquals(key + "=" + rest) == |key|
  {
    var s := key + "=" + rest;
    if key != "" {
      assert s[1..] == key[1..] + "=" + rest;
      EqualsAt(key[1..], rest);
    }
  }

  lemma KeyChars(key: string)
    requires IsKey(key)
    ensures '=' !in key && '\n' !in key && Trimmed(key) && key[0] != '#'
  {
    assert forall i | 0 <= i < |key| :: IsNameChar(key[i]);
  }

  /** A printed line reads back as its key and value. */
  lemma LineParses(key: string, value: string)
    requires IsKey(key)
    ensures ParseLine(key + "=" + Quoted(value)) == Some((key, value))
  {
    var line := key + "=" + Quoted(value);
    KeyChars(key);
    assert line[0] == key[0] && line[|line| - 1] == '"';
    TrimmedStays(line);
    EqualsAt(key, Quoted(value));
    assert line[..|key|] == key && line[|key| + 1..] == Quoted(value);
    TrimmedStays(key);
    TrimmedStays(Quoted(value));
    assert Quoted(value)[1..|Quoted(value)| - 1] == Escaped(value);
    UnescapedEscaped(value);
  }

  /** Every obscured variable's name and effective value. */
  predicate Mirrors(parsed: map<string, string>, vars: seq<Variable>) {
    && (forall i | 0 <= i < |vars| && vars[i].obscured ::
          EnvVarName(vars[i]) in parsed && parsed[EnvVarName(vars[i])] == Effective(vars[i]))
    && (forall key | key in parsed :: exists i | 0 <= i < |vars| :: vars[i].obscured && EnvVarName(vars[i]) == key)
  }

  predicate DistinctNames(vars: seq<Variable>) {
    forall i, j | 0 <= i < j < |vars| && vars[i].obscured && vars[j].obscured ::
      EnvVarName(vars[i]) != EnvVarName(vars[j])
  }

  predicate AllPlainlyNamed(vars: seq<Variable>) {
    forall i | 0 <= i < |vars| :: PlainlyNamed(vars[i])
  }

  predicate NoLineFeed(vars: seq<Variable>) {
    forall i | 0 <= i < |vars| && vars[i].obscured :: '\n' !in Effective(vars[i])
  }

  lemma {:induction false} LinesSnoc(vars: seq<Variable>)
    requires vars != []
    ensures Lines(vars) == Lines(vars[..|vars| - 1])
                           + if vars[|vars| - 1].obscured then [Line(vars[|vars| - 1])] else []
  {
    if |vars| > 1 {
      LinesSnoc(vars[1..]);
      assert vars[1..][..|vars| - 2] == vars[..|vars| - 1][1..];
    }
  }

  // ---------------------------------------------------------------------
  // No parsed value spans lines
  // ---------------------------------------------------------------------

  lemma {:induction false} TrimLeftKeepsOut(s: string, c: char)
    requires c !in s
    ensures c !in TrimLeft(s)
  {
    if s != [] && IsSpace(s[0]) { TrimLeftKeepsOut(s[1..], c); }
  }

  lemma {:induction false} TrimRightKeepsOut(s: string, c: char)
    requires c !in s
    ensures c !in TrimRight(s)
  {
    if s != [] && IsSpace(s[|s| - 1]) { TrimRightKeepsOut(s[..|s| - 1], c); }
  }

  lemma {:induction false} UnescapedKeepsOut(s: string, c: char)
    requires c !in s
    ensures c !in Unescaped(s)
  {
    if s != "" {
      UnescapedKeepsOut(s[1..], c);
      if |s| >= 2 { UnescapedKeepsOut(s[2..], c); }
    }
  }

  lemma ParsedLineHasNoFeed(line: string)
    requires '\n' !in line
    ensures ParseLine(line).Some? ==> '\n' !in ParseLine(line).value.1
  {
    TrimLeftKeepsOut(line, '\n');
    TrimRightKeepsOut(TrimLeft(line), '\n');
    var trimmed := Trim(line);
    var eq := IndexOfEquals(trimmed);
    if eq < |trimmed| {
      var rest := trimmed[eq + 1..];
      TrimLeftKeepsOut(rest, '\n');
      TrimRightKeepsOut(TrimLeft(rest), '\n');
      var value := Trim(rest);
      if |value| >= 2 { UnescapedKeepsOut(value[1..|value| - 1], '\n'); }
    }
  }

  lemma {:induction false} SplitKeepsOut(s: string, sep: char)
    ensures forall part | part in Split(s, sep) :: sep !in part
  {
    if s != [] { SplitKeepsOut(s[1..], sep); }
  }

  lemma {:induction false} ParsedHasNoFeed(lines: seq<string>)
    requires forall line | line in lines :: '\n' !in line
    ensures forall key | key in ParseLines(lines) :: '\n' !in ParseLines(lines)[key]
  {
    if lines != [] {
      ParsedHasNoFeed(lines[..|lines| - 1]);
      ParsedLineHasNoFeed(lines[|lines| - 1]);
    }
  }
}
