/**
 The two-way mirror of config.service.ts between the configuration table and
 secrets.env: load, reload, update, and the write that each update triggers.
 File writes succeed.
 */
module SecretsMirror {
  import opened Wrappers
  import opened Text
  import opened SecretsFile
  import opened SecretsLines

  // ---------------------------------------------------------------------
  // What one update, and one pass over the file, do to the table
  // ---------------------------------------------------------------------

  /** update accepts the text: unlocked, of a textual kind, and not an empty
      share.shareIdLength (its only bound that text can reach). */
  predicate Accepts(v: Variable, value: string) {
    && !v.locked
    && (value != "" ==> v.kind == "string" || v.kind == "text" || v.kind == "timespan")
    && (v.category == "share" && v.name == "shareIdLength" ==> value != "")
  }

  function Written(v: Variable, value: string): Variable {
    v.(value := if value == "" then None else Some(value))
  }

  /** The file has a value for the variable that it should take. */
  predicate Differs(v: Variable, parsed: map<string, string>) {
    && v.obscured && EnvVarName(v) in parsed
    && parsed[EnvVarName(v)] != "" && parsed[EnvVarName(v)] != Effective(v)
  }

  predicate Takes(v: Variable, parsed: map<string, string>) {
    Differs(v, parsed) && Accepts(v, parsed[EnvVarName(v)])
  }

  function Taken(v: Variable, parsed: map<string, string>): Variable {
    if Takes(v, parsed) then v.(value := Some(parsed[EnvVarName(v)])) else v
  }

  function Applied(vars: seq<Variable>, parsed: map<string, string>): (r: seq<Variable>)
    ensures |r| == |vars|
  {
    seq(|vars|, i requires 0 <= i < |vars| => Taken(vars[i], parsed))
  }

  /** The updates one pass performs, in order. */
  function Pushed(vars: seq<Variable>, parsed: map<string, string>): seq<(string, string)> {
    if vars == [] then []
    else
      var n := |vars| - 1;
      Pushed(vars[..n], parsed)
      + if Takes(vars[n], parsed) then [(EnvVarName(vars[n]), parsed[EnvVarName(vars[n])])] else []
  }

  lemma {:induction false} NothingPushed(vars: seq<Variable>, parsed: map<string, string>)
    ensures Pushed(vars, parsed) == [] <==> forall i | 0 <= i < |vars| :: !Takes(vars[i], parsed)
    ensures Pushed(vars, parsed) == [] ==> Applied(vars, parsed) == vars
  {
    if vars != [] {
      var n := |vars| - 1;
      NothingPushed(vars[..n], parsed);
      assert forall i | 0 <= i < n :: vars[..n][i] == vars[i];
    }
  }

  /** Exactly the non-empty, acceptable values of obscured variables are taken. */
  lemma AppliedExactly(vars: seq<Variable>, parsed: map<string, string>, i: nat)
    requires i < |vars|
    ensures var v, v' := vars[i], Applied(vars, parsed)[i];
            Effective(v') == if v.obscured && EnvVarName(v) in parsed && parsed[EnvVarName(v)] != ""
                                && Accepts(v, parsed[EnvVarName(v)])
                             then parsed[EnvVarName(v)] else Effective(v)
  {
  }

  /** A second pass of the same file has nothing left to take. */
  lemma SecondPassIsQuiet(vars: seq<Variable>, parsed: map<string, string>)
    ensures Pushed(Applied(vars, parsed), parsed) == []
  {
    var vars' := Applied(vars, parsed);
    forall i | 0 <= i < |vars'| ensures !Takes(vars'[i], parsed) {
      assert EnvVarName(vars'[i]) == EnvVarName(vars[i]);
    }
    NothingPushed(vars', parsed);
  }

  // ---------------------------------------------------------------------
  // The file that the table itself would write
  // ---------------------------------------------------------------------

  /** The variable's value spans lines, and update may write it. */
  predicate Gives(v: Variable) {
    && v.obscured && '\n' in Effective(v)
    && !v.locked && (v.kind == "string" || v.kind == "text" || v.kind == "timespan")
  }

  lemma TakesExactly(v: Variable, parsed: map<string, string>)
    requires v.obscured ==> EnvVarName(v) in parsed && parsed[EnvVarName(v)] == Head(Effective(v))
    ensures Takes(v, parsed) <==> Gives(v)
    ensures Gives(v) ==> Taken(v, parsed) == v.(value := Some(Head(Effective(v))))
  {
    if '\n' in Effective(v) {
      HeadIsCut(Effective(v));
    } else {
      HeadOfLine(Effective(v));
    }
  }

  lemma OwnFileHeads(vars: seq<Variable>, i: nat)
    requires DistinctNames(vars) && AllPlainlyNamed(vars) && Contained(vars) && i < |vars| && vars[i].obscured
    ensures EnvVarName(vars[i]) in Parse(Content(vars))
    ensures Parse(Content(vars))[EnvVarName(vars[i])] == Head(Effective(vars[i]))
  {
    FileReads(vars);
    ReplayedHead(vars, i, |vars|);
    assert vars[..|vars|] == vars;
  }

  /** A pass over what the table itself would write leaves every value as it is but
      those that span lines: of these it keeps the first line, where update may write. */
  lemma OwnFileExactly(vars: seq<Variable>, i: nat)
    requires DistinctNames(vars) && AllPlainlyNamed(vars) && Contained(vars) && i < |vars|
    ensures Applied(vars, Parse(Content(vars)))[i]
         == if Gives(vars[i]) then vars[i].(value := Some(Head(Effective(vars[i])))) else vars[i]
  {
    if vars[i].obscured { OwnFileHeads(vars, i); TakesExactly(vars[i], Parse(Content(vars))); }
  }

  /** So it is quiet if and only if there is no such value. */
  lemma OwnFileIsQuietExactly(vars: seq<Variable>)
    requires DistinctNames(vars) && AllPlainlyNamed(vars) && Contained(vars)
    ensures Pushed(vars, Parse(Content(vars))) == [] <==> forall i | 0 <= i < |vars| :: !Gives(vars[i])
  {
    var parsed := Parse(Content(vars));
    forall i | 0 <= i < |vars| ensures Takes(vars[i], parsed) <==> Gives(vars[i]) {
      if vars[i].obscured { OwnFileHeads(vars, i); TakesExactly(vars[i], parsed); }
    }
    NothingPushed(vars, parsed);
  }

  /** The line feed, at an input: a secret of two plain lines is, after a restart,
      its first line behind a quote. */
  lemma TwoLinesBecomeOne(vars: seq<Variable>, i: nat, line: string, more: string)
    requires DistinctNames(vars) && AllPlainlyNamed(vars) && Contained(vars) && i < |vars| && Gives(vars[i])
    requires IsPlain(line) && Effective(vars[i]) == line + "\n" + more
    ensures Effective(Applied(vars, Parse(Content(vars)))[i]) == "\"" + line
  {
    OwnFileExactly(vars, i);
    HeadOfTwo(line, more);
  }

  /** And where a line inside a value reads as a setting of an earlier variable, the
      restart makes it one. */
  lemma InnerLineSetsAnother(vars: seq<Variable>, i: nat, j: nat, x: string, y: string)
    requires DistinctNames(vars) && AllPlainlyNamed(vars) && i < j < |vars| && vars[i].obscured && vars[j].obscured
    requires forall k | j < k < |vars| && vars[k].obscured :: '\n' !in Effective(vars[k])
    requires IsPlain(y) && Effective(vars[j]) == x + "\n" + (EnvVarName(vars[i]) + "=" + y) + "\n"
    ensures var v := Applied(vars, Parse(Content(vars)))[i];
            Effective(v) == if Accepts(vars[i], y) then y else Effective(vars[i])
  {
    EnvVarNameIsKey(vars[i]);
    FileReads(vars);
    InnerLineWins(vars, j, x, EnvVarName(vars[i]), y);
    AppliedExactly(vars, Parse(Content(vars)), i);
  }

  // ---------------------------------------------------------------------
  // An update that changes a value changes the file
  // ---------------------------------------------------------------------

  function Lead(a: seq<string>, sep: char): string {
    if a == [] then "" else Join(a, sep) + [sep]
  }

  function Tail(b: seq<string>, sep: char): string {
    if b == [] then "" else [sep] + Join(b, sep)
  }

  lemma JoinStep(part: string, rest: seq<string>, sep: char)
    ensures Join([part] + rest, sep) == part + Tail(rest, sep)
  {
    assert ([part] + rest)[1..] == rest;
  }

  lemma LeadStep(a: seq<string>, sep: char)
    requires a != []
    ensures Lead(a, sep) == a[0] + [sep] + Lead(a[1..], sep)
  {
    assert a == [a[0]] + a[1..];
    JoinStep(a[0], a[1..], sep);
  }

  lemma Regroup(w: string, x: string, y: string, z: string)
    ensures w + (x + y + z) == (w + x) + y + z
    ensures (w + x + y) + z == w + x + (y + z)
  {
  }

  lemma {:induction false} JoinAround(a: seq<string>, line: string, b: seq<string>, sep: char)
    ensures Join(a + [line] + b, sep) == Lead(a, sep) + line + Tail(b, sep)
  {
    if a == [] {
      assert a + [line] + b == [line] + b;
      JoinStep(line, b, sep);
      assert Lead(a, sep) + line == line;
    } else {
      JoinAround(a[1..], line, b, sep);
      JoinAfter(a[0], a[1..] + [line] + b, sep);
      assert a + [line] + b == [a[0]] + (a[1..] + [line] + b);
      JoinAroundStep(a, line, Tail(b, sep), Join(a[1..] + [line] + b, sep), sep);
    }
  }

  lemma JoinAroundStep(a: seq<string>, line: string, tail: string, inner: string, sep: char)
    requires a != [] && inner == Lead(a[1..], sep) + line + tail
    ensures (a[0] + [sep]) + inner == Lead(a, sep) + line + tail
  {
    LeadStep(a, sep);
    Regroup(a[0] + [sep], Lead(a[1..], sep), line, tail);
  }

  lemma JoinAfter(part: string, rest: seq<string>, sep: char)
    requires rest != []
    ensures Join([part] + rest, sep) == (part + [sep]) + Join(rest, sep)
  {
    JoinStep(part, rest, sep);
  }

  lemma {:induction false} LinesConcat(a: seq<Variable>, b: seq<Variable>)
    ensures Lines(a + b) == Lines(a) + Lines(b)
  {
    if a == [] {
      assert a + b == b;
    } else {
      LinesConcat(a[1..], b);
      assert (a + b)[0] == a[0] && (a + b)[1..] == a[1..] + b;
      Associates(LinesOf(a[0]), Lines(a[1..]), Lines(b));
    }
  }

  lemma Associates(x: seq<string>, y: seq<string>, z: seq<string>)
    ensures x + (y + z) == (x + y) + z
  {
  }

  lemma LinesAround(before: seq<Variable>, v: Variable, after: seq<Variable>)
    requires v.obscured
    ensures Lines(before + [v] + after) == Lines(before) + [Line(v)] + Lines(after)
  {
    LinesConcat(before + [v], after);
    LinesConcat(before, [v]);
    assert Lines([v]) == [Line(v)];
  }

  lemma Cancel(pre: string, x: string, y: string, post: string)
    requires pre + x + post == pre + y + post
    ensures x == y
  {
    var s := pre + x + post;
    assert |x| == |y|;
    assert x == s[|pre|..|pre| + |x|];
    assert y == (pre + y + post)[|pre|..|pre| + |y|];
  }

  lemma SameLineSameValue(v: Variable, w: Variable)
    requires EnvVarName(v) == EnvVarName(w) && Line(v) == Line(w)
    ensures Effective(v) == Effective(w)
  {
    assert Line(v) == EnvVarName(v) + "=\"" + Escaped(Effective(v)) + "\"";
    assert Line(w) == EnvVarName(w) + "=\"" + Escaped(Effective(w)) + "\"";
    Cancel(EnvVarName(v) + "=\"", Escaped(Effective(v)), Escaped(Effective(w)), "\"");
    UnescapedEscaped(Effective(v));
    UnescapedEscaped(Effective(w));
  }

  lemma ContentChanges(vars: seq<Variable>, i: nat, v: Variable)
    requires i < |vars| && vars[i].obscured && v.obscured
    requires EnvVarName(v) == EnvVarName(vars[i]) && Effective(v) != Effective(vars[i])
    ensures Content(vars[i := v]) != Content(vars)
  {
    assert vars == vars[..i] + [vars[i]] + vars[i + 1..];
    assert vars[i := v] == vars[..i] + [v] + vars[i + 1..];
    LinesAround(vars[..i], vars[i], vars[i + 1..]);
    LinesAround(vars[..i], v, vars[i + 1..]);
    var a, b := Lines(vars[..i]), Lines(vars[i + 1..]);
    JoinAround(a, Line(vars[i]), b, '\n');
    JoinAround(a, Line(v), b, '\n');
    var pre, post := Lead(a, '\n'), Tail(b, '\n');
    if Content(vars[i := v]) == Content(vars) {
      Regroup(pre, Line(vars[i]), post, "\n");
      Regroup(pre, Line(v), post, "\n");
      Cancel(pre, Line(v), Line(vars[i]), post + "\n");
      SameLineSameValue(v, vars[i]);
    }
  }

  /** The table when a pass has reached variable i. */
  function Halfway(vars: seq<Variable>, parsed: map<string, string>, i: nat): seq<Variable>
    requires i <= |vars|
  {
    Applied(vars[..i], parsed) + vars[i..]
  }

  lemma HalfwayStep(vars: seq<Variable>, parsed: map<string, string>, i: nat)
    requires i < |vars|
    ensures Halfway(vars, parsed, i)[i] == vars[i]
    ensures Halfway(vars, parsed, i + 1) == Halfway(vars, parsed, i)[i := Taken(vars[i], parsed)]
    ensures !Takes(vars[i], parsed) ==> Halfway(vars, parsed, i + 1) == Halfway(vars, parsed, i)
    ensures Pushed(vars[..i + 1], parsed)
         == Pushed(vars[..i], parsed) + if Takes(vars[i], parsed)
                                        then [(EnvVarName(vars[i]), parsed[EnvVarName(vars[i])])] else []
  {
    assert vars[..i + 1][..i] == vars[..i];
    assert Halfway(vars, parsed, i + 1) == Halfway(vars, parsed, i)[i := Taken(vars[i], parsed)];
  }

  lemma HalfwayEnds(vars: seq<Variable>, parsed: map<string, string>)
    ensures Halfway(vars, parsed, 0) == vars && Pushed(vars[..0], parsed) == []
    ensures Halfway(vars, parsed, |vars|) == Applied(vars, parsed)
    ensures Pushed(vars[..|vars|], parsed) == Pushed(vars, parsed)
  {
    assert vars[..|vars|] == vars;
  }

  // ---------------------------------------------------------------------
  // The service
  // ---------------------------------------------------------------------

  predicate DistinctKeys(vars: seq<Variable>) {
    forall i, j | 0 <= i < j < |vars| :: vars[i].category != vars[j].category || vars[i].name != vars[j].name
  }

  class ConfigService {
    var vars: seq<Variable>
    var file: string
    var loaded: bool
    var last: Option<string>
    ghost var updates: seq<(string, string)>

    constructor (vars: seq<Variable>, file: string)
      ensures this.vars == vars && this.file == file && !loaded && updates == []
    {
      this.vars, this.file := vars, file;
      loaded, last := false, None;
      updates := [];
    }

    /** Between two operations, once the file has been found. */
    ghost predicate Valid()
      reads this
    {
      DistinctKeys(vars) && (loaded ==> last == Some(Content(vars)))
    }

    /** A watch event now would change nothing. */
    ghost predicate Settled()
      reads this
    {
      last == Some(file) || Pushed(vars, Parse(file)) == []
    }

    method WriteSecretsFile()
      modifies this`file, this`last
      ensures !loaded ==> unchanged(this)
      ensures loaded ==> last == Some(Content(vars))
      ensures loaded ==> file == if old(last) == Some(Content(vars)) then old(file) else Content(vars)
    {
      if !loaded {
        return;
      }
      var content := Content(vars);
      if last == Some(content) {
        return;
      }
      file := content;
      last := Some(content);
    }

    /** update, for text; Err when there is no such variable or it is refused. */
    method Update(category: string, name: string, value: string) returns (r: Result<Variable, ()>)
      requires DistinctKeys(vars)
      modifies this
      ensures DistinctKeys(vars) && loaded == old(loaded)
      ensures match r
              case Err(_) =>
                unchanged(this)
                && forall i | 0 <= i < |vars| && vars[i].category == category && vars[i].name == name ::
                     || vars[i].locked
                     || (value != "" && vars[i].kind !in {"string", "text", "timespan"})
                     || (value == "" && category == "share" && name == "shareIdLength")
              case Ok(v) =>
                && (exists i | 0 <= i < |old(vars)| ::
                      && old(vars)[i].category == category && old(vars)[i].name == name
                      && !old(vars)[i].locked
                      && (if value == "" then !(category == "share" && name == "shareIdLength")
                          else old(vars)[i].kind in {"string", "text", "timespan"})
                      && v == old(vars)[i].(value := if value == "" then None else Some(value))
                      && vars == old(vars)[i := v])
                && updates == old(updates) + [(EnvVarName(v), value)]
                && (loaded ==> last == Some(Content(vars)))
                && (loaded ==> file == if old(last) == Some(Content(vars)) then old(file) else Content(vars))
                && (!loaded ==> unchanged(`file) && unchanged(`last))
    {
      var i := 0;
      while i < |vars| && !(vars[i].category == category && vars[i].name == name)
        invariant 0 <= i <= |vars|
        invariant forall j | 0 <= j < i :: vars[j].category != category || vars[j].name != name
      {
        i := i + 1;
      }
      if i == |vars| || !Accepts(vars[i], value) {
        return Err(());
      }
      var v := Written(vars[i], value);
      vars := vars[i := v];
      updates := updates + [(EnvVarName(v), value)];
      WriteSecretsFile();
      return Ok(v);
    }

    /** applySecretsToConfig: one pass over the table as it was at the start,
        each update rewriting the whole file. */
    method ApplySecrets(parsed: map<string, string>)
      requires DistinctKeys(vars) && loaded
      requires last == Some(file) || last == Some(Content(vars))
      modifies this
      ensures DistinctKeys(vars) && loaded
      ensures vars == Applied(old(vars), parsed)
      ensures updates == old(updates) + Pushed(old(vars), parsed)
      ensures Mirrored(Pushed(old(vars), parsed) == [], old(file), old(last))
    {
      var captured := vars;
      ReachedStart(parsed);
      var i := 0;
      while i < |captured|
        invariant 0 <= i <= |captured|
        invariant Reached(captured, parsed, i, old(updates), old(file), old(last))
      {
        VisitOne(captured, parsed, i, old(updates), old(file), old(last));
        i := i + 1;
      }
      ReachedEnd(captured, parsed, old(updates), old(file), old(last));
    }

    lemma ReachedStart(parsed: map<string, string>)
      requires DistinctKeys(vars) && loaded
      ensures Reached(vars, parsed, 0, updates, file, last)
    {
      HalfwayEnds(vars, parsed);
      assert updates + [] == updates;
    }

    lemma ReachedEnd(captured: seq<Variable>, parsed: map<string, string>, before: seq<(string, string)>,
                     oldFile: string, oldLast: Option<string>)
      requires Reached(captured, parsed, |captured|, before, oldFile, oldLast)
      ensures DistinctKeys(vars) && loaded
      ensures vars == Applied(captured, parsed) && updates == before + Pushed(captured, parsed)
      ensures Mirrored(Pushed(captured, parsed) == [], oldFile, oldLast)
    {
      HalfwayEnds(captured, parsed);
    }

    /** The pass over captured has come to variable i. */
    ghost predicate Reached(captured: seq<Variable>, parsed: map<string, string>, i: nat,
                            before: seq<(string, string)>, oldFile: string, oldLast: Option<string>)
      requires i <= |captured|
      reads this
    {
      && DistinctKeys(vars) && loaded
      && vars == Halfway(captured, parsed, i)
      && updates == before + Pushed(captured[..i], parsed)
      && Mirrored(Pushed(captured[..i], parsed) == [], oldFile, oldLast)
      && (Pushed(captured[..i], parsed) == [] ==> vars == captured)
    }

    method VisitOne(captured: seq<Variable>, parsed: map<string, string>, i: nat,
                    ghost before: seq<(string, string)>, ghost oldFile: string, ghost oldLast: Option<string>)
      requires i < |captured| && (oldLast == Some(oldFile) || oldLast == Some(Content(captured)))
      requires Reached(captured, parsed, i, before, oldFile, oldLast)
      modifies this
      ensures Reached(captured, parsed, i + 1, before, oldFile, oldLast)
    {
      HalfwayStep(captured, parsed, i);
      if Differs(captured[i], parsed) {
        TakeOne(i, parsed);
      }
    }

    /** The file after a pass: untouched when the pass was quiet, else rewritten. */
    ghost predicate Mirrored(quiet: bool, oldFile: string, oldLast: Option<string>)
      reads this
    {
      if quiet then file == oldFile && last == oldLast else file == Content(vars) && last == Some(file)
    }

    /** One update of the pass: the variable at i takes its value, if it may. */
    method TakeOne(i: nat, parsed: map<string, string>)
      requires DistinctKeys(vars) && loaded && i < |vars| && Differs(vars[i], parsed)
      requires last == Some(file) || last == Some(Content(vars))
      modifies this
      ensures DistinctKeys(vars) && loaded
      ensures vars == old(vars)[i := Taken(old(vars)[i], parsed)]
      ensures updates == old(updates) + if Takes(old(vars)[i], parsed)
                                        then [(EnvVarName(old(vars)[i]), parsed[EnvVarName(old(vars)[i])])] else []
      ensures Mirrored(!Takes(old(vars)[i], parsed), old(file), old(last))
    {
      ghost var before := vars;
      var v := vars[i];
      var r := Update(v.category, v.name, parsed[EnvVarName(v)]);
      if r.Ok? {
        ghost var j :| 0 <= j < |before| && before[j].category == v.category && before[j].name == v.name
                 && Accepts(before[j], parsed[EnvVarName(v)])
                 && vars == before[j := Written(before[j], parsed[EnvVarName(v)])];
        assert j == i;
        ContentChanges(before, i, vars[i]);
      } else {
        assert !Accepts(before[i], parsed[EnvVarName(v)]);
        assert before[i := v] == before;
      }
    }

    /** loadSecretsFile, at boot. */
    method LoadSecretsFile()
      requires DistinctKeys(vars)
      modifies this
      ensures loaded && Valid() && Settled()
      ensures vars == Applied(old(vars), Parse(old(file)))
      ensures updates == old(updates) + Pushed(old(vars), Parse(old(file)))
      ensures file == Content(vars) && last == Some(file)
    {
      var raw := file;
      last := Some(raw);
      loaded := true;
      var parsed := ParseSecretsFile(raw);
      NothingPushed(vars, parsed);
      ApplySecrets(parsed);
      WriteSecretsFile();
    }

    /** reloadSecretsFile, on a watch event. */
    method ReloadSecretsFile()
      requires Valid() && loaded
      modifies this
      ensures Valid() && loaded && Settled()
      ensures old(Settled()) ==> vars == old(vars) && updates == old(updates)
      ensures old(Settled()) ==> file == old(file) && last == old(last)
      ensures old(last) != Some(old(file)) ==>
                && vars == Applied(old(vars), Parse(old(file)))
                && updates == old(updates) + Pushed(old(vars), Parse(old(file)))
    {
      var raw := file;
      if last == Some(raw) {
        return;
      }
      var parsed := ParseSecretsFile(raw);
      NothingPushed(vars, parsed);
      SecondPassIsQuiet(vars, parsed);
      ghost var quiet := Pushed(vars, parsed) == [];
      ApplySecrets(parsed);
      assert quiet ==> vars == old(vars) && file == old(file) && last == old(last);
      assert quiet ==> updates == old(updates) + [] == old(updates);
    }
  }

  /** After any edit of the file, one watch event takes it in; every later one,
      until the next edit, does nothing: no update, no write. */
  method WatchLoopStops(config: ConfigService, edited: string, events: nat)
    requires config.Valid() && config.loaded
    modifies config
    ensures config.Valid() && config.loaded
    ensures old(config.last) != Some(edited) && events > 0 ==>
              && config.vars == Applied(old(config.vars), Parse(edited))
              && config.updates == old(config.updates) + Pushed(old(config.vars), Parse(edited))
  {
    config.file := edited;
    for n := 0 to events
      invariant config.Valid() && config.loaded
      invariant n == 0 ==> config.file == edited && config.vars == old(config.vars)
                           && config.last == old(config.last) && config.updates == old(config.updates)
      invariant n > 0 ==> config.Settled()
      invariant n > 0 && old(config.last) != Some(edited) ==>
                  && config.vars == Applied(old(config.vars), Parse(edited))
                  && config.updates == old(config.updates) + Pushed(old(config.vars), Parse(edited))
    {
      config.ReloadSecretsFile();
    }
  }

  /** A restart on the file the service wrote: what spans lines is cut to its first
      line, and where nothing is cut nothing changes. */
  method Restart(config: ConfigService)
    requires DistinctKeys(config.vars) && config.file == Content(config.vars)
    requires DistinctNames(config.vars) && AllPlainlyNamed(config.vars) && Contained(config.vars)
    modifies config
    ensures |config.vars| == |old(config.vars)|
    ensures forall i | 0 <= i < |config.vars| ::
              config.vars[i] == if Gives(old(config.vars)[i])
                                then old(config.vars)[i].(value := Some(Head(Effective(old(config.vars)[i]))))
                                else old(config.vars)[i]
    ensures config.updates == old(config.updates) <==> forall i | 0 <= i < |config.vars| :: !Gives(old(config.vars)[i])
    ensures config.file == Content(config.vars)
  {
    ghost var vars := config.vars;
    OwnFileIsQuietExactly(vars);
    forall i | 0 <= i < |vars|
      ensures Applied(vars, Parse(Content(vars)))[i]
           == if Gives(vars[i]) then vars[i].(value := Some(Head(Effective(vars[i])))) else vars[i]
    {
      OwnFileExactly(vars, i);
    }
    config.LoadSecretsFile();
  }
}
