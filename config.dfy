/**
 * The configuration file: `KEY=VALUE` lines read by `parseConfig`
 * (main.go). `ParseConfig` is the loop as the source writes it; `Parse`
 * is the same reading as a fold over the meanings of the lines, and the
 * lemmas state what the parser promises in terms of the fold.
 */
module Config {
  import opened Wrappers
  import opened GoStrings
  import GoStrconv

  /** The `config` record: the tag prefix and whether tags are signed. */
  datatype Config = Config(versionPrefix: string, sign: bool)

  /** The zero value of `config`. */
  const Default: Config := Config("", false)

  /** What is wrong with a line. */
  datatype Problem = InvalidSyntax | InvalidQuotedString | InvalidBooleanValue | UnrecognizedVariable {
    function Text(): string {
      match this
      case InvalidSyntax => "invalid syntax"
      case InvalidQuotedString => "invalid quoted string"
      case InvalidBooleanValue => "invalid boolean value"
      case UnrecognizedVariable => "unrecognized variable"
    }
  }

  /** A parse error: the offending line, trimmed, and the problem. */
  datatype ConfigError = ConfigError(line: string, problem: Problem) {
    /** The error's text, `error parsing <line>: <problem>`. */
    function Message(): string {
      "error parsing " + line + ": " + problem.Text()
    }
  }

  /** The effect of one well-formed assignment line. */
  datatype Setting = SetPrefix(prefix: string) | SetSign(sign: bool)

  function Apply(conf: Config, s: Setting): Config {
    match s
    case SetPrefix(p) => conf.(versionPrefix := p)
    case SetSign(b) => conf.(sign := b)
  }

  /** Blank lines and comment lines, after trimming. */
  predicate Skipped(raw: string) {
    var t := TrimSpace(raw);
    |t| == 0 || HasPrefix(t, "#")
  }

  /** A value that is unquoted before use. */
  predicate IsQuoted(v: string) {
    |v| >= 2 && HasPrefix(v, "\"") && HasSuffix(v, "\"")
  }

  /** The meaning of one line: nothing (skipped), a setting, or the error that stops the parse. */
  type Step = Result<Option<Setting>, ConfigError>

  /**
   * What one line means. The line is trimmed; blank and `#` lines mean
   * nothing; otherwise it is cut at its first `=`, key and value are trimmed,
   * a quoted value is unquoted, and the key is matched without regard to case.
   */
  function LineSetting(raw: string): Step {
    var t := TrimSpace(raw);
    if |t| == 0 || HasPrefix(t, "#") then Success(None) else Assignment(t)
  }

  /** An assignment line, trimmed: cut at its first `=`, key and value trimmed, a quoted value unquoted. */
  function Assignment(t: string): (r: Step)
    ensures r.Success? ==> r.value.Some?
  {
    match Cut(t, '=')
    case None => Failure(ConfigError(t, InvalidSyntax))
    case Some((k0, v0)) =>
      match Value(TrimSpace(v0))
      case None => Failure(ConfigError(t, InvalidQuotedString))
      case Some(value) => KeySetting(t, VariableOf(ToUpper(TrimSpace(k0))), value)
  }

  /** The value of an assignment: unquoted when quoted, else verbatim. */
  function Value(v: string): Option<string> {
    if IsQuoted(v) then GoStrconv.Unquote(v) else Some(v)
  }

  /** The variables a configuration line can assign. */
  datatype Variable = VersionPrefix | GitSign | Unrecognized

  /** The variable an upper-cased key names: the cases of the source's `switch`. */
  function VariableOf(key: string): Variable {
    if key == "VERSION_PREFIX" then VersionPrefix
    else if key == "GIT_SIGN" then GitSign
    else Unrecognized
  }

  /** The setting of line `t` that assigns `value` to `name`. */
  function KeySetting(t: string, name: Variable, value: string): (r: Step)
    ensures r.Success? ==> r.value.Some?
  {
    match name
    case VersionPrefix => Success(Some(SetPrefix(value)))
    case GitSign =>
      (match GoStrconv.ParseBool(value)
       case None => Failure(ConfigError(t, InvalidBooleanValue))
       case Some(b) => Success(Some(SetSign(b))))
    case Unrecognized => Failure(ConfigError(t, UnrecognizedVariable))
  }

  /** The meanings of the lines, in order. */
  function Decode(lines: seq<string>): (steps: seq<Step>)
    ensures |steps| == |lines| && forall i :: 0 <= i < |lines| ==> steps[i] == LineSetting(lines[i])
  {
    seq(|lines|, i requires 0 <= i < |lines| => LineSetting(lines[i]))
  }

  lemma DecodeCons(lines: seq<string>)
    requires lines != []
    ensures Decode(lines) == [LineSetting(lines[0])] + Decode(lines[1..])
  {
  }

  lemma DecodePrefix(lines: seq<string>, i: nat)
    requires i <= |lines|
    ensures Decode(lines[..i]) == Decode(lines)[..i]
  {
  }

  /**
   * Running the steps from `conf`: the settings applied in order, up to the
   * first error. On an error the configuration built so far comes back with
   * it, as the source returns it.
   */
  function Run(conf: Config, steps: seq<Step>): (Config, Option<ConfigError>)
    decreases |steps|
  {
    if steps == [] then (conf, None)
    else match steps[0]
      case Failure(e) => (conf, Some(e))
      case Success(None) => Run(conf, steps[1..])
      case Success(Some(s)) => Run(Apply(conf, s), steps[1..])
  }

  /** What `parseConfig` returns for the given lines. */
  function Parse(lines: seq<string>): (Config, Option<ConfigError>) {
    Run(Default, Decode(lines))
  }

  /** `parseConfig`: scan the input line by line, updating the record in place and stopping at the first error. */
  method ParseConfig(input: string) returns (conf: Config, err: Option<ConfigError>)
    ensures (conf, err) == Parse(ScanLines(input))
  {
    conf := Config("", false);
    var lines := ScanLines(input);
    ghost var steps := Decode(lines);
    var i := 0;
    while i < |lines|
      invariant 0 <= i <= |lines|
      invariant Run(conf, steps[i..]) == Run(Default, steps)
    {
      ghost var rest := steps[i..];
      assert rest[0] == LineSetting(lines[i]) && rest[1..] == steps[i + 1..];
      var t := TrimSpace(lines[i]);
      i := i + 1;
      if |t| == 0 {
        continue;
      }
      if HasPrefix(t, "#") {
        continue;
      }
      assert rest[0] == Assignment(t);
      var cut := Cut(t, '=');
      if cut.None? {
        assert rest[0] == Failure(ConfigError(t, InvalidSyntax));
        return conf, Some(ConfigError(t, InvalidSyntax));
      }
      var k, v := TrimSpace(cut.value.0), TrimSpace(cut.value.1);
      ghost var value := Value(v);
      if |v| >= 2 && HasPrefix(v, "\"") && HasSuffix(v, "\"") {
        var unquoted := GoStrconv.Unquote(v);
        if unquoted.None? {
          return conf, Some(ConfigError(t, InvalidQuotedString));
        }
        v := unquoted.value;
      }
      assert value == Some(v);
      var name := VariableOf(ToUpper(k));
      assert rest[0] == KeySetting(t, name, v);
      match name
      case VersionPrefix =>
        conf := conf.(versionPrefix := v);
      case GitSign =>
        var b := GoStrconv.ParseBool(v);
        SignStep(conf, rest, t, v);
        if b.None? {
          return conf, Some(ConfigError(t, InvalidBooleanValue));
        }
        conf := conf.(sign := b.value);
      case Unrecognized =>
        return conf, Some(ConfigError(t, UnrecognizedVariable));
    }
    return conf, None;
  }

  /** How running a `GIT_SIGN` step goes on. */
  lemma SignStep(conf: Config, steps: seq<Step>, t: string, v: string)
    requires steps != [] && steps[0] == KeySetting(t, GitSign, v)
    ensures GoStrconv.ParseBool(v).None? ==> Run(conf, steps) == (conf, Some(ConfigError(t, InvalidBooleanValue)))
    ensures GoStrconv.ParseBool(v).Some? ==> Run(conf, steps) == Run(conf.(sign := GoStrconv.ParseBool(v).value), steps[1..])
  {
  }

  // ---- Skipped lines ----

  /** A line means nothing exactly when it is blank or a comment. */
  lemma NothingIffSkipped(raw: string)
    ensures LineSetting(raw) == Success(None) <==> Skipped(raw)
  {
  }

  /** The steps that do something. */
  function Effective(steps: seq<Step>): (r: seq<Step>)
    ensures forall i :: 0 <= i < |r| ==> r[i] != Success(None)
  {
    if steps == [] then []
    else if steps[0] == Success(None) then Effective(steps[1..])
    else [steps[0]] + Effective(steps[1..])
  }

  /** Steps that mean nothing change nothing. */
  lemma {:induction false} RunIgnoresNothing(conf: Config, steps: seq<Step>)
    ensures Run(conf, steps) == Run(conf, Effective(steps))
    decreases |steps|
  {
    if steps != [] {
      var eff := Effective(steps);
      if steps[0] == Success(None) {
        RunIgnoresNothing(conf, steps[1..]);
      } else {
        assert eff[0] == steps[0] && eff[1..] == Effective(steps[1..]);
        match steps[0]
        case Failure(_) =>
        case Success(Some(s)) => RunIgnoresNothing(Apply(conf, s), steps[1..]);
      }
    }
  }

  /** The lines that are neither blank nor comments, in order. */
  function Significant(lines: seq<string>): (r: seq<string>)
    ensures forall i :: 0 <= i < |r| ==> !Skipped(r[i])
  {
    if lines == [] then []
    else if Skipped(lines[0]) then Significant(lines[1..])
    else [lines[0]] + Significant(lines[1..])
  }

  lemma {:induction false} DecodeSignificant(lines: seq<string>)
    ensures Decode(Significant(lines)) == Effective(Decode(lines))
  {
    if lines != [] {
      DecodeCons(lines);
      NothingIffSkipped(lines[0]);
      DecodeSignificant(lines[1..]);
      if !Skipped(lines[0]) {
        var sig := Significant(lines);
        assert sig == [lines[0]] + Significant(lines[1..]);
        DecodeCons(sig);
        assert sig[1..] == Significant(lines[1..]);
      }
    }
  }

  /** Blank and comment lines change nothing: dropping them all gives the same result. */
  lemma SkippedLinesIgnored(conf: Config, lines: seq<string>)
    ensures Run(conf, Decode(lines)) == Run(conf, Decode(Significant(lines)))
  {
    RunIgnoresNothing(conf, Decode(lines));
    DecodeSignificant(lines);
  }

  /** An input of only blank and comment lines yields the defaults and no error. */
  lemma {:induction false} OnlySkippedLinesGiveDefaults(lines: seq<string>)
    requires forall i :: 0 <= i < |lines| ==> Skipped(lines[i])
    ensures Parse(lines) == (Default, None)
  {
    SkippedLinesIgnored(Default, lines);
    AllSkippedNothingSignificant(lines);
  }

  lemma {:induction false} AllSkippedNothingSignificant(lines: seq<string>)
    requires forall i :: 0 <= i < |lines| ==> Skipped(lines[i])
    ensures Significant(lines) == []
  {
    if lines != [] { AllSkippedNothingSignificant(lines[1..]); }
  }

  /** The empty input yields the defaults. */
  lemma EmptyInput()
    ensures Parse(ScanLines("")) == (Default, None)
  {
  }

  // ---- Errors ----

  /**
   * The run succeeds exactly when every step does; otherwise its error is that
   * of the first failing step, and the configuration returned is the one the
   * steps before it built.
   */
  lemma {:induction false} FirstErrorStops(conf: Config, steps: seq<Step>)
    ensures Run(conf, steps).1 == None <==> forall i :: 0 <= i < |steps| ==> steps[i].Success?
    ensures Run(conf, steps).1.Some? ==>
      exists i :: 0 <= i < |steps| && (forall j :: 0 <= j < i ==> steps[j].Success?)
        && steps[i] == Failure(Run(conf, steps).1.value)
        && Run(conf, steps).0 == Run(conf, steps[..i]).0
    decreases |steps|
  {
    if steps != [] {
      match steps[0]
      case Failure(e) =>
        assert steps[..0] == [];
      case Success(o) =>
        var next := if o.Some? then Apply(conf, o.value) else conf;
        var tail := steps[1..];
        assert Run(conf, steps) == Run(next, tail);
        FirstErrorStops(next, tail);
        if Run(conf, steps).1.Some? {
          var i :| 0 <= i < |tail| && (forall j :: 0 <= j < i ==> tail[j].Success?)
            && tail[i] == Failure(Run(conf, steps).1.value)
            && Run(conf, steps).0 == Run(next, tail[..i]).0;
          assert steps[..i + 1][1..] == tail[..i];
          assert Run(conf, steps[..i + 1]) == Run(next, tail[..i]);
          assert forall j :: 0 <= j < i + 1 ==> steps[j].Success? by {
            forall j | 0 <= j < i + 1 ensures steps[j].Success? {
              if j > 0 { assert steps[j] == tail[j - 1]; }
            }
          }
          assert steps[i + 1] == tail[i];
        }
        if forall i :: 0 <= i < |tail| ==> tail[i].Success? {
          forall i | 0 <= i < |steps| ensures steps[i].Success? {
            if i > 0 { assert steps[i] == tail[i - 1]; }
          }
        }
    }
  }

  /** Parsing the lines succeeds exactly when every line is accepted on its own. */
  lemma NoErrorIffAllLinesAccepted(lines: seq<string>)
    ensures Parse(lines).1 == None <==> forall i :: 0 <= i < |lines| ==> LineSetting(lines[i]).Success?
  {
    var steps := Decode(lines);
    FirstErrorStops(Default, steps);
    if forall i :: 0 <= i < |lines| ==> LineSetting(lines[i]).Success? {
      assert forall i :: 0 <= i < |steps| ==> steps[i].Success?;
    } else {
      var i :| 0 <= i < |lines| && !LineSetting(lines[i]).Success?;
      assert !steps[i].Success?;
    }
  }

  /**
   * A failed parse reports the error of the first line that is not accepted,
   * every line before it is accepted, and the configuration returned is the
   * one those lines build.
   */
  lemma FirstBadLineReported(lines: seq<string>)
    requires Parse(lines).1.Some?
    ensures exists i ::
      && 0 <= i < |lines|
      && (forall j :: 0 <= j < i ==> LineSetting(lines[j]).Success?)
      && LineSetting(lines[i]) == Failure(Parse(lines).1.value)
      && Parse(lines).0 == Parse(lines[..i]).0
  {
    var steps := Decode(lines);
    FirstErrorStops(Default, steps);
    var i :| 0 <= i < |steps| && (forall j :: 0 <= j < i ==> steps[j].Success?)
      && steps[i] == Failure(Run(Default, steps).1.value)
      && Run(Default, steps).0 == Run(Default, steps[..i]).0;
    DecodePrefix(lines, i);
    assert forall j :: 0 <= j < i ==> LineSetting(lines[j]).Success? by {
      forall j | 0 <= j < i ensures LineSetting(lines[j]).Success? {
        assert steps[j].Success?;
      }
    }
    assert LineSetting(lines[i]) == Failure(Parse(lines).1.value);
    assert Parse(lines).0 == Parse(lines[..i]).0;
  }

  // ---- Last assignment wins ----

  predicate SameKey(a: Setting, b: Setting) {
    a.SetPrefix? == b.SetPrefix?
  }

  /** The step assigns the variable that `s` assigns. */
  predicate Assigns(step: Step, s: Setting) {
    step.Success? && step.value.Some? && SameKey(step.value.value, s)
  }

  /** The configuration has the value `s` assigns. */
  predicate Holds(conf: Config, s: Setting) {
    match s
    case SetPrefix(p) => conf.versionPrefix == p
    case SetSign(b) => conf.sign == b
  }

  /** A variable no step assigns keeps its starting value. */
  lemma {:induction false} UnassignedKept(conf: Config, steps: seq<Step>, s: Setting)
    requires Holds(conf, s)
    requires forall j :: 0 <= j < |steps| ==> !Assigns(steps[j], s)
    ensures Holds(Run(conf, steps).0, s)
    decreases |steps|
  {
    if steps != [] {
      match steps[0]
      case Failure(_) =>
      case Success(None) => UnassignedKept(conf, steps[1..], s);
      case Success(Some(t)) =>
        assert !SameKey(t, s);
        UnassignedKept(Apply(conf, t), steps[1..], s);
    }
  }

  /** With no error, each variable ends with the value its last assignment gave it. */
  lemma {:induction false} LastAssignmentWins(conf: Config, steps: seq<Step>, i: nat, s: Setting)
    requires i < |steps| && steps[i] == Success(Some(s))
    requires forall j :: i < j < |steps| ==> !Assigns(steps[j], s)
    requires Run(conf, steps).1 == None
    ensures Holds(Run(conf, steps).0, s)
    decreases |steps|
  {
    match steps[0]
    case Failure(_) =>
    case Success(o) =>
      var next := if o.Some? then Apply(conf, o.value) else conf;
      assert Run(conf, steps) == Run(next, steps[1..]);
      if i == 0 {
        UnassignedKept(next, steps[1..], s);
      } else {
        LastAssignmentWins(next, steps[1..], i - 1, s);
      }
  }

  // ---- Single lines ----

  /** A key as the unit test writes them: not blank, no `=`, not a comment, no surrounding space, no line break. */
  predicate BareKey(k: string) {
    k != [] && k[0] != '#' && '=' !in k && TrimSpace(k) == k && '\n' !in k && '\r' !in k
  }

  /** A value without surrounding space or line breaks; it may hold `=`. */
  predicate BareValue(v: string) {
    TrimSpace(v) == v && '\n' !in v && '\r' !in v
  }

  /**
   * A `KEY=VALUE` line: it is split at its first `=` (the value may hold
   * more), a quoted value is unquoted (an invalid literal is an error naming
   * the line), and the key is matched without regard to case.
   */
  lemma AssignmentLine(k: string, v: string)
    requires BareKey(k) && BareValue(v)
    ensures LineSetting(k + "=" + v) ==
      match Value(v)
      case None => Failure(ConfigError(k + "=" + v, InvalidQuotedString))
      case Some(u) => KeySetting(k + "=" + v, VariableOf(ToUpper(k)), u)
  {
    var line := k + "=" + v;
    LineTrimmed(k, v);
    LineNotComment(k, v);
    assert LineSetting(line) == Assignment(line);
    CutAtFirst(k, v, '=');
    assert Cut(line, '=') == Some((k, v));
  }

  /** With an unquoted value: the prefix is set verbatim, the sign parsed as a boolean, and other keys rejected. */
  lemma KeyValueLine(k: string, v: string)
    requires BareKey(k) && BareValue(v) && !IsQuoted(v)
    ensures ToUpper(k) == "VERSION_PREFIX" ==> LineSetting(k + "=" + v) == Success(Some(SetPrefix(v)))
    ensures ToUpper(k) == "GIT_SIGN" ==>
      LineSetting(k + "=" + v) ==
      (match GoStrconv.ParseBool(v)
       case Some(b) => Success(Some(SetSign(b)))
       case None => Failure(ConfigError(k + "=" + v, InvalidBooleanValue)))
    ensures ToUpper(k) != "VERSION_PREFIX" && ToUpper(k) != "GIT_SIGN" ==>
      LineSetting(k + "=" + v) == Failure(ConfigError(k + "=" + v, UnrecognizedVariable))
  {
    AssignmentLine(k, v);
    assert Value(v) == Some(v);
    KeySettingCases(k + "=" + v, ToUpper(k), v);
  }

  /** The setting a line gives for each upper-cased key. */
  lemma KeySettingCases(t: string, key: string, v: string)
    ensures key == "VERSION_PREFIX" ==> KeySetting(t, VariableOf(key), v) == Success(Some(SetPrefix(v)))
    ensures key == "GIT_SIGN" ==>
      KeySetting(t, VariableOf(key), v) ==
      (match GoStrconv.ParseBool(v)
       case Some(b) => Success(Some(SetSign(b)))
       case None => Failure(ConfigError(t, InvalidBooleanValue)))
    ensures key != "VERSION_PREFIX" && key != "GIT_SIGN" ==>
      KeySetting(t, VariableOf(key), v) == Failure(ConfigError(t, UnrecognizedVariable))
  {
  }

  /** A `VERSION_PREFIX` line with any value written as a Go string literal sets the prefix to that value. */
  lemma QuotedPrefixLine(k: string, value: string)
    requires BareKey(k) && ToUpper(k) == "VERSION_PREFIX"
    ensures LineSetting(k + "=" + GoStrconv.Quote(value)) == Success(Some(SetPrefix(value)))
  {
    var q := GoStrconv.Quote(value);
    assert q[0] == '"' && q[|q| - 1] == '"';
    TrimSpaceIdentity(q);
    GoStrconv.QuoteNoLineBreaks(value);
    AssignmentLine(k, q);
    assert HasPrefix(q, "\"") && HasSuffix(q, "\"");
    GoStrconv.UnquoteQuote(value);
  }

  /** A `k=v` line with trimmed parts is its own trimmed text. */
  lemma LineTrimmed(k: string, v: string)
    requires k != [] && TrimSpace(k) == k && TrimSpace(v) == v
    ensures TrimSpace(k + "=" + v) == k + "=" + v
  {
    var tail := "=" + v;
    var line := k + tail;
    assert k + "=" + v == line;
    assert line[0] == k[0];
    assert line[|line| - 1] == tail[|tail| - 1];
    assert !IsSpace(tail[|tail| - 1]) by {
      if v != [] {
        assert tail[|tail| - 1] == v[|v| - 1];
      }
    }
    TrimSpaceIdentity(line);
  }

  /** A `k=v` line whose key does not start with `#` is no comment. */
  lemma LineNotComment(k: string, v: string)
    requires k != [] && k[0] != '#'
    ensures !HasPrefix(k + "=" + v, "#")
  {
    var line := k + "=" + v;
    assert line[..1] == [k[0]];
  }

  /** White space around a line makes no difference to what it means. */
  lemma SurroundingSpaceIgnored(a: string, raw: string, b: string)
    requires AllSpace(a) && AllSpace(b)
    ensures LineSetting(a + raw + b) == LineSetting(raw)
  {
    TrimSpaceSurrounded(a, raw, b);
  }

  /**
   * A `k=v` line with white space on either side of the `=` is its own
   * trimmed text. (Space after a `=` with nothing after it trails the line,
   * which SurroundingSpaceIgnored covers.)
   */
  lemma PaddedLineTrimmed(k: string, p: string, q: string, v: string)
    requires BareKey(k) && BareValue(v) && AllSpace(p) && AllSpace(q) && (v != [] || q == [])
    ensures TrimSpace(k + p + "=" + q + v) == k + p + "=" + q + v
  {
    var t := k + p + "=" + q + v;
    assert t[0] == k[0];
    if v != [] {
      assert t[|t| - 1] == v[|v| - 1];
    } else {
      assert t == k + p + "=";
      assert t[|t| - 1] == '=';
    }
    TrimSpaceIdentity(t);
  }

  /** A trimmed line that is no comment and holds `=`: its key and value trimmed, the value unquoted. */
  lemma CutLine(t: string, key: string, value: string)
    requires TrimSpace(t) == t && t != [] && !HasPrefix(t, "#") && Cut(t, '=') == Some((key, value))
    ensures LineSetting(t) ==
      match Value(TrimSpace(value))
      case None => Failure(ConfigError(t, InvalidQuotedString))
      case Some(u) => KeySetting(t, VariableOf(ToUpper(TrimSpace(key))), u)
  {
  }

  /** A `k=v` line with white space around the `=` is no comment. */
  lemma PaddedLineNotComment(k: string, p: string, q: string, v: string)
    requires k != [] && k[0] != '#'
    ensures !HasPrefix(k + p + "=" + q + v, "#")
  {
    var t := k + p + "=" + q + v;
    assert t[..1] == [k[0]];
  }

  /** A `k=v` line is cut at the `=` after the key and its trailing space. */
  lemma PaddedLineCut(k: string, p: string, q: string, v: string)
    requires BareKey(k) && BareValue(v) && AllSpace(p) && AllSpace(q) && (v != [] || q == [])
    ensures Cut(k + p + "=" + q + v, '=') == Some((k + p, q + v))
  {
    var key := k + p;
    assert '=' !in key by {
      forall c | 0 <= c < |key| ensures key[c] != '=' {
        if c < |k| { assert key[c] == k[c]; } else { assert key[c] == p[c - |k|]; }
      }
    }
    CutAtFirst(key, q + v, '=');
    assert key + ['='] + (q + v) == k + p + "=" + q + v;
  }

  /** A key followed by white space trims to the key. */
  lemma PaddedKeyTrimmed(k: string, p: string)
    requires k != [] && TrimSpace(k) == k && AllSpace(p)
    ensures TrimSpace(k + p) == k
  {
    TrimSpaceAfter(k, p);
  }

  /** A value after white space trims to the value. */
  lemma PaddedValueTrimmed(q: string, v: string)
    requires TrimSpace(v) == v && AllSpace(q)
    ensures TrimSpace(q + v) == v
  {
    TrimSpaceBefore(q, v);
  }

  /**
   * White space on either side of the `=` is trimmed from key and value;
   * an error names the line as written.
   */
  lemma PaddedAssignmentLine(k: string, p: string, q: string, v: string)
    requires BareKey(k) && BareValue(v) && AllSpace(p) && AllSpace(q) && (v != [] || q == [])
    ensures LineSetting(k + p + "=" + q + v) ==
      match Value(v)
      case None => Failure(ConfigError(k + p + "=" + q + v, InvalidQuotedString))
      case Some(u) => KeySetting(k + p + "=" + q + v, VariableOf(ToUpper(k)), u)
  {
    PaddedLineFacts(k, p, q, v);
    CutLine(k + p + "=" + q + v, k + p, q + v);
  }

  /** The facts PaddedAssignmentLine rests on: the line is trimmed, no comment, and cut after the key's space. */
  lemma PaddedLineFacts(k: string, p: string, q: string, v: string)
    requires BareKey(k) && BareValue(v) && AllSpace(p) && AllSpace(q) && (v != [] || q == [])
    ensures var t := k + p + "=" + q + v;
      && TrimSpace(t) == t && t != [] && !HasPrefix(t, "#")
      && Cut(t, '=') == Some((k + p, q + v))
      && TrimSpace(k + p) == k && TrimSpace(q + v) == v
  {
    PaddedLineTrimmed(k, p, q, v);
    PaddedLineNotComment(k, p, q, v);
    PaddedLineCut(k, p, q, v);
    PaddedKeyTrimmed(k, p);
    PaddedValueTrimmed(q, v);
  }

  /** A `k=v` line with white space around the `=` sets what `k=v` sets. */
  lemma PaddedLineLikeBare(k: string, p: string, q: string, v: string)
    requires BareKey(k) && BareValue(v) && AllSpace(p) && AllSpace(q) && (v != [] || q == [])
    ensures LineSetting(k + p + "=" + q + v).Success? <==> LineSetting(k + "=" + v).Success?
    ensures LineSetting(k + p + "=" + q + v).Success? ==> LineSetting(k + p + "=" + q + v) == LineSetting(k + "=" + v)
  {
    PaddedAssignmentLine(k, p, q, v);
    AssignmentLine(k, v);
    match Value(v)
    case None =>
    case Some(u) => KeySettingLine(k + p + "=" + q + v, k + "=" + v, VariableOf(ToUpper(k)), u);
  }

  /** A setting does not depend on the line it is written on; only errors name the line. */
  lemma KeySettingLine(t1: string, t2: string, name: Variable, value: string)
    ensures KeySetting(t1, name, value).Success? <==> KeySetting(t2, name, value).Success?
    ensures KeySetting(t1, name, value).Success? ==> KeySetting(t1, name, value) == KeySetting(t2, name, value)
    ensures KeySetting(t1, name, value).Failure? ==>
      KeySetting(t1, name, value).error.problem == KeySetting(t2, name, value).error.problem
  {
  }

  /** A non-blank, non-comment line without `=` is a syntax error naming the trimmed line. */
  lemma NoEqualsLine(raw: string)
    requires !Skipped(raw) && '=' !in TrimSpace(raw)
    ensures LineSetting(raw) == Failure(ConfigError(TrimSpace(raw), InvalidSyntax))
  {
  }

  // ---- Whole inputs ----

  /** The lines of a text made of lines without line breaks, each ended by a newline. */
  lemma TextLines(lines: seq<string>)
    requires forall i :: 0 <= i < |lines| ==> '\n' !in lines[i] && '\r' !in lines[i]
    ensures Parse(ScanLines(Unlines(lines))) == Parse(lines)
  {
    UnlinesRoundTrip(lines);
  }

  /** A file with CRLF line ends parses like the same lines. */
  lemma TextLinesCRLF(lines: seq<string>)
    requires forall i :: 0 <= i < |lines| ==> '\n' !in lines[i] && '\r' !in lines[i]
    ensures Parse(ScanLines(UnlinesCRLF(lines))) == Parse(lines)
  {
    UnlinesCRLFRoundTrip(lines);
  }

  lemma DecodeOne(l: string)
    ensures Decode([l]) == [LineSetting(l)]
  {
  }

  lemma DecodeTwo(l1: string, l2: string)
    ensures Decode([l1, l2]) == [LineSetting(l1), LineSetting(l2)]
  {
  }

  /** The result of a last step from `conf`. */
  function Finish(conf: Config, step: Step): (Config, Option<ConfigError>) {
    match step
    case Failure(e) => (conf, Some(e))
    case Success(None) => (conf, None)
    case Success(Some(s)) => (Apply(conf, s), None)
  }

  lemma RunOne(conf: Config, step: Step)
    ensures Run(conf, [step]) == Finish(conf, step)
  {
    var steps: seq<Step> := [step];
    assert steps[1..] == [];
  }

  lemma RunTwo(conf: Config, s1: Setting, s2: Setting)
    ensures Run(conf, [Success(Some(s1)), Success(Some(s2))]) == (Apply(Apply(conf, s1), s2), None)
  {
    var steps: seq<Step> := [Success(Some(s1)), Success(Some(s2))];
    assert steps[1..] == [Success(Some(s2))];
    RunOne(Apply(conf, s1), Success(Some(s2)));
  }

  /** A one-line input: its setting applied to the defaults, or its error. */
  lemma OneLineInput(l: string)
    requires '\n' !in l && '\r' !in l
    ensures Parse(ScanLines(l + "\n")) == Finish(Default, LineSetting(l))
  {
    TextLines([l]);
    assert Unlines([l]) == l + "\n";
    DecodeOne(l);
    RunOne(Default, LineSetting(l));
  }

  lemma TwoLines(l1: string, l2: string)
    requires '\n' !in l1 && '\r' !in l1 && '\n' !in l2 && '\r' !in l2
    ensures ScanLines(l1 + "\n" + l2 + "\n") == [l1, l2]
  {
    UnlinesRoundTrip([l1, l2]);
    assert [l1, l2][1..] == [l2];
    assert [l2][1..] == [];
    assert Unlines([l2]) == l2 + "\n";
    assert (l1 + "\n") + (l2 + "\n") == l1 + "\n" + l2 + "\n";
  }

  /** A two-line input of two assignments applies both, in order. */
  lemma TwoLineInput(l1: string, l2: string, s1: Setting, s2: Setting)
    requires '\n' !in l1 && '\r' !in l1 && '\n' !in l2 && '\r' !in l2
    requires LineSetting(l1) == Success(Some(s1)) && LineSetting(l2) == Success(Some(s2))
    ensures Parse(ScanLines(l1 + "\n" + l2 + "\n")) == (Apply(Apply(Default, s1), s2), None)
  {
    TwoLines(l1, l2);
    DecodeTwo(l1, l2);
    RunTwo(Default, s1, s2);
  }

  // ---- The table of the source's unit test ----

  /** A `VERSION_PREFIX` line, in any case, with a value that is plain or a valid literal. */
  lemma PrefixLine(k: string, v: string, u: string)
    requires BareKey(k) && BareValue(v) && ToUpper(k) == "VERSION_PREFIX" && Value(v) == Some(u)
    ensures LineSetting(k + "=" + v) == Success(Some(SetPrefix(u)))
  {
    AssignmentLine(k, v);
  }

  /** A `GIT_SIGN` line, in any case, with one of Go's boolean spellings. */
  lemma SignLine(k: string, v: string, b: bool)
    requires BareKey(k) && BareValue(v) && !IsQuoted(v) && ToUpper(k) == "GIT_SIGN" && GoStrconv.ParseBool(v) == Some(b)
    ensures LineSetting(k + "=" + v) == Success(Some(SetSign(b)))
  {
    KeyValueLine(k, v);
  }

  lemma NoLineBreaks(k: string, v: string)
    requires BareKey(k) && BareValue(v)
    ensures '\n' !in k + "=" + v && '\r' !in k + "=" + v
  {
  }

  /** `VERSION_PREFIX=v` alone sets the prefix and leaves signing off. */
  lemma PrefixInput(k: string, v: string, u: string)
    requires BareKey(k) && BareValue(v) && ToUpper(k) == "VERSION_PREFIX" && Value(v) == Some(u)
    ensures Parse(ScanLines(k + "=" + v + "\n")) == (Config(u, false), None)
  {
    PrefixLine(k, v, u);
    NoLineBreaks(k, v);
    OneLineInput(k + "=" + v);
  }

  /** `GIT_SIGN=1` alone sets signing and leaves the prefix empty. */
  lemma SignInput(k: string, v: string, b: bool)
    requires BareKey(k) && BareValue(v) && !IsQuoted(v) && ToUpper(k) == "GIT_SIGN" && GoStrconv.ParseBool(v) == Some(b)
    ensures Parse(ScanLines(k + "=" + v + "\n")) == (Config("", b), None)
  {
    SignLine(k, v, b);
    NoLineBreaks(k, v);
    OneLineInput(k + "=" + v);
  }

  /** A prefix line then a sign line set both. */
  lemma PrefixThenSignInput(k1: string, v1: string, u: string, k2: string, v2: string, b: bool)
    requires BareKey(k1) && BareValue(v1) && ToUpper(k1) == "VERSION_PREFIX" && Value(v1) == Some(u)
    requires BareKey(k2) && BareValue(v2) && !IsQuoted(v2) && ToUpper(k2) == "GIT_SIGN" && GoStrconv.ParseBool(v2) == Some(b)
    ensures Parse(ScanLines((k1 + "=" + v1) + "\n" + (k2 + "=" + v2) + "\n")) == (Config(u, b), None)
  {
    PrefixLine(k1, v1, u);
    SignLine(k2, v2, b);
    NoLineBreaks(k1, v1);
    NoLineBreaks(k2, v2);
    TwoLineInput(k1 + "=" + v1, k2 + "=" + v2, SetPrefix(u), SetSign(b));
    assert Apply(Apply(Default, SetPrefix(u)), SetSign(b)) == Config(u, b);
  }

  /** A comment line in front changes nothing. */
  lemma CommentFirstInput(c: string, rest: string)
    requires c != [] && c[0] == '#' && '\n' !in c && '\r' !in c
    ensures Parse(ScanLines(c + "\n" + rest)) == Parse(ScanLines(rest))
  {
    var text := c + "\n" + rest;
    assert text == c + ['\n'] + rest;
    CutAtFirst(c, rest, '\n');
    assert DropCR(c) == c by {
      assert c[|c| - 1] in c;
    }
    assert ScanLines(text) == [c] + ScanLines(rest);
    DecodeCons([c] + ScanLines(rest));
    assert ([c] + ScanLines(rest))[1..] == ScanLines(rest);
    assert Skipped(c) by {
      assert !IsSpace(c[0]);
      assert TrimSpace(c)[0] == '#';
    }
    NothingIffSkipped(c);
  }

  /** A one-line input that is not accepted yields the defaults and that line's error. */
  lemma BadLineInput(l: string, e: ConfigError)
    requires '\n' !in l && '\r' !in l && LineSetting(l) == Failure(e)
    ensures Parse(ScanLines(l + "\n")) == (Default, Some(e))
  {
    OneLineInput(l);
  }

  /** The spellings of the unit test's keys. */
  lemma UnitTestKeys()
    ensures ToUpper("version_prefix") == "VERSION_PREFIX" && ToUpper("git_sign") == "GIT_SIGN"
    ensures VariableOf(ToUpper("bad_key")) == Unrecognized
  {
  }

  /** The boolean spellings of the unit test. */
  lemma UnitTestBooleans()
    ensures GoStrconv.ParseBool("1") == Some(true) && GoStrconv.ParseBool("t") == Some(true)
    ensures GoStrconv.ParseBool("false") == Some(false) && GoStrconv.ParseBool("f") == Some(false)
    ensures GoStrconv.ParseBool("wibble") == None
  {
  }

}
