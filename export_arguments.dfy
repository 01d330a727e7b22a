/**
 * The command line of the two export scripts (complaints and livestock
 * farms share the same parser): `--format`, `--output`, `--limit` and
 * `--offset`, each as `--name=value` or as `--name value`, and `--help`/`-h`.
 * An invalid format, limit or offset ends the process with code 1, help
 * with code 0. The default output path is built from a timestamp, which is
 * a parameter here (the ISO text of the current time).
 */
module ExportArguments {
  import opened Wrappers
  import JsText

  datatype Format = Csv | Json

  datatype Options = Options(format: Format, output: Option<string>, limit: Option<int>, offset: Option<int>)

  /** What `parseArguments` ends with: the options, or `process.exit(code)`. */
  datatype Outcome = Run(options: Options) | Exit(code: int)

  /** One iteration of the argument loop: stop with an exit code, or continue at `next`. */
  datatype Step = Stop(code: int) | Go(options: Options, next: nat) {
    /** The outcome when this step is the last one. */
    function ToOutcome(): Outcome {
      match this
      case Stop(code) => Exit(code)
      case Go(o, _) => Run(o)
    }
  }

  const Defaults := Options(Csv, None, None, None)

  function FormatName(f: Format): string {
    match f
    case Csv => "csv"
    case Json => "json"
  }

  /** `format === 'csv' || format === 'json'` after `toLowerCase()`. */
  function FormatOf(v: string): (r: Option<Format>)
    ensures r.Some? <==> JsText.ToLower(v) in {"csv", "json"}
    ensures r.Some? ==> FormatName(r.value) == JsText.ToLower(v)
  {
    var lower := JsText.ToLower(v);
    if lower == "csv" then Some(Csv) else if lower == "json" then Some(Json) else None
  }

  /** `arg.split('=')[1]`; the arguments it is applied to always hold a `=`. */
  function EqValue(arg: string): string {
    JsText.SplitSecond(arg, '=').GetOr("")
  }

  /** The options the space form consumes the next token for. */
  predicate SpaceFlag(arg: string) {
    arg == "--format" || arg == "--output" || arg == "--limit" || arg == "--offset"
  }

  /** An argument that matches none of the branches. */
  predicate Unknown(arg: string) {
    !JsText.StartsWith(arg, "--format=") && !JsText.StartsWith(arg, "--output=") &&
    !JsText.StartsWith(arg, "--limit=") && !JsText.StartsWith(arg, "--offset=") &&
    !SpaceFlag(arg) && arg != "--help" && arg != "-h"
  }

  /** `!isNaN(limit) && limit > 0`. */
  function WithLimit(n: Option<int>, o: Options, next: nat): Step {
    if n.Some? && n.value > 0 then Go(o.(limit := n), next) else Stop(1)
  }

  /** `!isNaN(offset) && offset >= 0`. */
  function WithOffset(n: Option<int>, o: Options, next: nat): Step {
    if n.Some? && n.value >= 0 then Go(o.(offset := n), next) else Stop(1)
  }

  function WithFormat(f: Option<Format>, o: Options, next: nat): Step {
    if f.Some? then Go(o.(format := f.value), next) else Stop(1)
  }

  /** The token after `args[i]`, if there is one. */
  function NextArg(args: seq<string>, i: nat): Option<string>
    requires i < |args|
  {
    if i + 1 < |args| then Some(args[i + 1]) else None
  }

  /**
   * The branches of the loop body for the token `arg`, followed by `nxt`
   * when one follows; in a `Go` step, `next` is the number of tokens consumed.
   */
  function StepOn(arg: string, nxt: Option<string>, o: Options): (r: Step)
    ensures r.Go? ==> r.next == 1 || (r.next == 2 && nxt.Some?)
  {
    if JsText.StartsWith(arg, "--format=") then WithFormat(FormatOf(EqValue(arg)), o, 1)
    else if arg == "--format" && nxt.Some? then WithFormat(FormatOf(nxt.value), o, 2)
    else if JsText.StartsWith(arg, "--output=") then Go(o.(output := Some(EqValue(arg))), 1)
    else if arg == "--output" && nxt.Some? then Go(o.(output := Some(nxt.value)), 2)
    else if JsText.StartsWith(arg, "--limit=") then WithLimit(JsText.ParseInt(EqValue(arg), 0), o, 1)
    else if arg == "--limit" && nxt.Some? then WithLimit(JsText.ParseInt(nxt.value, 0), o, 2)
    else if JsText.StartsWith(arg, "--offset=") then WithOffset(JsText.ParseInt(EqValue(arg), 0), o, 1)
    else if arg == "--offset" && nxt.Some? then WithOffset(JsText.ParseInt(nxt.value, 0), o, 2)
    else if arg == "--help" || arg == "-h" then Stop(0)
    else Go(o, 1)
  }

  /** A step taken at position `i`: the tokens consumed are counted from `i`. */
  function At(s: Step, i: nat): Step {
    match s
    case Stop(code) => Stop(code)
    case Go(o, k) => Go(o, i + k)
  }

  /**
   * A loop body that reads a token and the one after it, and consumes that
   * token alone or, when one follows, both.
   */
  type StepFn = (string, Option<string>, Options) -> Step

  ghost predicate Consumes(f: StepFn) {
    forall arg, nxt, o :: f(arg, nxt, o).Go? ==> f(arg, nxt, o).next == 1 || (f(arg, nxt, o).next == 2 && nxt.Some?)
  }

  lemma {:induction false} StepOnConsumes()
    ensures Consumes(StepOn)
  {
    forall arg, nxt, o ensures StepOn(arg, nxt, o).Go? ==> StepOn(arg, nxt, o).next == 1 || (StepOn(arg, nxt, o).next == 2 && nxt.Some?) {
    }
  }

  /** The body `f` applied at position `i`. */
  function StepWith(f: StepFn, args: seq<string>, i: nat, o: Options): (r: Step)
    requires Consumes(f) && i < |args|
    ensures r.Go? ==> i < r.next <= |args|
  {
    At(f(args[i], NextArg(args, i), o), i)
  }

  /** The loop with body `f` from position `i` with the options gathered so far. */
  function LoopFrom(f: StepFn, args: seq<string>, i: nat, o: Options): Outcome
    requires Consumes(f) && i <= |args|
    decreases |args| - i
  {
    if i == |args| then Run(o)
    else
      match StepWith(f, args, i, o)
      case Stop(code) => Exit(code)
      case Go(o', next) => LoopFrom(f, args, next, o')
  }

  /** The loop body for `args[i]`. */
  function StepAt(args: seq<string>, i: nat, o: Options): (r: Step)
    requires i < |args|
    ensures r.Go? ==> i < r.next <= |args|
  {
    StepOnConsumes();
    StepWith(StepOn, args, i, o)
  }

  /** The loop from position `i` with the options gathered so far. */
  function ParseFrom(args: seq<string>, i: nat, o: Options): Outcome
    requires i <= |args|
  {
    StepOnConsumes();
    LoopFrom(StepOn, args, i, o)
  }

  function Parse(args: seq<string>): Outcome {
    ParseFrom(args, 0, Defaults)
  }

  /** One turn of the argument loop. */
  lemma {:induction false} ParseFromStep(args: seq<string>, i: nat, o: Options)
    requires i < |args|
    ensures var s := StepAt(args, i, o);
      ParseFrom(args, i, o) == if s.Stop? then Exit(s.code) else ParseFrom(args, s.next, s.options)
  {
    StepOnConsumes();
  }

  /** A step that consumes every argument ends the loop. */
  lemma {:induction false} ParseLast(args: seq<string>, o: Options)
    requires args != [] && (StepAt(args, 0, o).Go? ==> StepAt(args, 0, o).next == |args|)
    ensures ParseFrom(args, 0, o) == StepAt(args, 0, o).ToOutcome()
  {
    ParseFromStep(args, 0, o);
    StepOnConsumes();
  }

  /** `parseArguments` over `process.argv.slice(2)`. */
  method ParseArguments(args: seq<string>) returns (outcome: Outcome)
    ensures outcome == Parse(args)
  {
    var options := Defaults;
    var i := 0;
    while i < |args|
      invariant 0 <= i <= |args|
      invariant ParseFrom(args, i, options) == Parse(args)
      decreases |args| - i
    {
      var exit, options', i' := Visit(args, i, options);
      if exit.Some? {
        return Exit(exit.value);
      }
      options, i := options', i';
    }
    return Run(options);
  }

  /**
   * The body of the argument loop for `args[i]`: the option it sets, the
   * index of the last token it consumed plus one, or the exit code.
   */
  method Visit(args: seq<string>, i: nat, options: Options) returns (exit: Option<int>, options': Options, i': nat)
    requires i < |args|
    ensures StepAt(args, i, options) == if exit.Some? then Stop(exit.value) else Go(options', i')
  {
    var arg := args[i];
    exit, options', i' := None, options, i;
    if JsText.StartsWith(arg, "--format=") {
      var format := FormatOf(EqValue(arg));
      if format.None? {
        return Some(1), options, i;
      }
      options' := options.(format := format.value);
    } else if arg == "--format" && i + 1 < |args| {
      var format := FormatOf(args[i + 1]);
      if format.None? {
        return Some(1), options, i;
      }
      options' := options.(format := format.value);
      i' := i' + 1;
    } else if JsText.StartsWith(arg, "--output=") {
      options' := options.(output := Some(EqValue(arg)));
    } else if arg == "--output" && i + 1 < |args| {
      options' := options.(output := Some(args[i + 1]));
      i' := i' + 1;
    } else if JsText.StartsWith(arg, "--limit=") {
      var limit := JsText.ParseInt(EqValue(arg), 0);
      if !(limit.Some? && limit.value > 0) {
        return Some(1), options, i;
      }
      options' := options.(limit := limit);
    } else if arg == "--limit" && i + 1 < |args| {
      var limit := JsText.ParseInt(args[i + 1], 0);
      if !(limit.Some? && limit.value > 0) {
        return Some(1), options, i;
      }
      options' := options.(limit := limit);
      i' := i' + 1;
    } else if JsText.StartsWith(arg, "--offset=") {
      var offset := JsText.ParseInt(EqValue(arg), 0);
      if !(offset.Some? && offset.value >= 0) {
        return Some(1), options, i;
      }
      options' := options.(offset := offset);
    } else if arg == "--offset" && i + 1 < |args| {
      var offset := JsText.ParseInt(args[i + 1], 0);
      if !(offset.Some? && offset.value >= 0) {
        return Some(1), options, i;
      }
      options' := options.(offset := offset);
      i' := i' + 1;
    } else if arg == "--help" || arg == "-h" {
      return Some(0), options, i;
    }
    i' := i' + 1;
  }

  // ---------------------------------------------------------------- composition

  /** Continuing a parse with more arguments. */
  function Then(outcome: Outcome, rest: seq<string>): Outcome {
    match outcome
    case Run(o) => ParseFrom(rest, 0, o)
    case Exit(code) => Exit(code)
  }

  predicate EndsWithSpaceFlag(args: seq<string>) {
    args != [] && SpaceFlag(args[|args| - 1])
  }

  lemma {:induction false} StepShift(f: StepFn, p: seq<string>, q: seq<string>, j: nat, o: Options)
    requires Consumes(f) && j < |q|
    ensures StepWith(f, p + q, |p| + j, o) == At(StepWith(f, q, j, o), |p|)
  {
    assert (p + q)[|p| + j] == q[j];
    if j + 1 < |q| {
      assert (p + q)[|p| + j + 1] == q[j + 1];
    }
    assert NextArg(p + q, |p| + j) == NextArg(q, j);
    AtAt(f(q[j], NextArg(q, j), o), j, |p|);
  }

  lemma {:induction false} AtAt(s: Step, i: nat, k: nat)
    ensures At(At(s, i), k) == At(s, k + i)
  {
  }

  /** For any loop body, arguments in front do not change how a later position is read. */
  lemma {:induction false} LoopShift(f: StepFn, p: seq<string>, q: seq<string>, j: nat, o: Options)
    requires Consumes(f) && j <= |q|
    ensures LoopFrom(f, p + q, |p| + j, o) == LoopFrom(f, q, j, o)
    decreases |q| - j
  {
    if j < |q| {
      StepShift(f, p, q, j, o);
      var t := StepWith(f, q, j, o);
      if t.Go? {
        LoopShift(f, p, q, t.next, t.options);
      }
    }
  }

  /** Arguments in front do not change how a later position is read. */
  lemma {:induction false} ParseShift(p: seq<string>, q: seq<string>, j: nat, o: Options)
    requires j <= |q|
    ensures ParseFrom(p + q, |p| + j, o) == ParseFrom(q, j, o)
  {
    StepOnConsumes();
    LoopShift(StepOn, p, q, j, o);
  }

  /** Whether a token follows matters only to a flag that takes its value from it. */
  lemma {:induction false} NextIgnored(arg: string, nxt: Option<string>, nxt': Option<string>, o: Options)
    requires !SpaceFlag(arg)
    ensures StepOn(arg, nxt, o) == StepOn(arg, nxt', o)
  {
  }

  lemma {:induction false} StepPrefix(args: seq<string>, rest: seq<string>, i: nat, o: Options)
    requires i < |args|
    requires !(i == |args| - 1 && SpaceFlag(args[i]))
    ensures StepAt(args + rest, i, o) == StepAt(args, i, o)
  {
    assert (args + rest)[i] == args[i];
    if i + 1 < |args| {
      assert (args + rest)[i + 1] == args[i + 1];
      assert NextArg(args + rest, i) == NextArg(args, i);
    } else {
      NextIgnored(args[i], NextArg(args + rest, i), NextArg(args, i), o);
    }
  }

  lemma {:induction false} ParseAppendFrom(args: seq<string>, rest: seq<string>, i: nat, o: Options)
    requires i <= |args| && !EndsWithSpaceFlag(args)
    ensures ParseFrom(args + rest, i, o) == Then(ParseFrom(args, i, o), rest)
    decreases |args| - i
  {
    if i == |args| {
      ParseShift(args, rest, 0, o);
    } else {
      StepPrefix(args, rest, i, o);
      var t := StepAt(args, i, o);
      if t.Go? {
        ParseAppendFrom(args, rest, t.next, t.options);
      }
    }
  }

  /**
   * Arguments are read left to right: unless the first part ends with a flag
   * that would take its value from the second part, parsing the two parts
   * together is parsing the first and continuing with the second.
   */
  lemma {:induction false} ParseAppend(args: seq<string>, rest: seq<string>, o: Options)
    requires !EndsWithSpaceFlag(args)
    ensures ParseFrom(args + rest, 0, o) == Then(ParseFrom(args, 0, o), rest)
  {
    ParseAppendFrom(args, rest, 0, o);
  }

  // ---------------------------------------------------------------- single options

  /** `prefix` is some `--name=`. */
  predicate NamePrefix(prefix: string) {
    |prefix| >= 1 && prefix[|prefix| - 1] == '=' && '=' !in prefix[..|prefix| - 1]
  }

  lemma {:induction false} EqValueOf(prefix: string, v: string)
    requires NamePrefix(prefix)
    ensures EqValue(prefix + v) == JsText.Before(v, '=')
  {
    var name := prefix[..|prefix| - 1];
    assert prefix + v == name + ['='] + v;
    JsText.SplitAfterPiece(name, '=', v);
    JsText.BeforeIsFirstPiece(v, '=');
  }

  lemma {:induction false} BeforeWhole(v: string)
    requires '=' !in v
    ensures JsText.Before(v, '=') == v
  {
    var r := JsText.Before(v, '=');
    assert forall k :: 0 <= k < |v| ==> v[k] != '=';
    assert |r| >= |v|;
  }

  lemma {:induction false} StartsWithOf(prefix: string, v: string)
    ensures JsText.StartsWith(prefix + v, prefix)
  {
    assert (prefix + v)[..|prefix|] == prefix;
  }

  /** What each `--name=` prefix tells about the characters of an argument. */
  lemma {:induction false} PrefixChars(s: string)
    ensures JsText.StartsWith(s, "--format=") ==> |s| >= 9 && s[2] == 'f'
    ensures JsText.StartsWith(s, "--output=") ==> |s| >= 9 && s[2] == 'o' && s[3] == 'u'
    ensures JsText.StartsWith(s, "--limit=") ==> |s| >= 8 && s[2] == 'l'
    ensures JsText.StartsWith(s, "--offset=") ==> |s| >= 9 && s[2] == 'o' && s[3] == 'f'
  {
    if JsText.StartsWith(s, "--format=") {
      assert s[2] == s[..9][2];
    }
    if JsText.StartsWith(s, "--output=") {
      assert s[2] == s[..9][2] && s[3] == s[..9][3];
    }
    if JsText.StartsWith(s, "--limit=") {
      assert s[2] == s[..8][2];
    }
    if JsText.StartsWith(s, "--offset=") {
      assert s[2] == s[..9][2] && s[3] == s[..9][3];
    }
  }

  /** No `--name=` prefix matches a bare flag or a help switch: each is too short or differs. */
  lemma {:induction false} FlagsHaveNoPrefix(arg: string)
    requires SpaceFlag(arg) || arg == "--help" || arg == "-h"
    ensures !JsText.StartsWith(arg, "--format=") && !JsText.StartsWith(arg, "--output=")
    ensures !JsText.StartsWith(arg, "--limit=") && !JsText.StartsWith(arg, "--offset=")
  {
    PrefixChars(arg);
    if arg == "--format" {
      assert arg[2] == 'f';
    } else if arg == "--output" {
      assert arg[2] == 'o' && arg[3] == 'u';
    } else if arg == "--limit" {
      assert arg[2] == 'l' && |arg| == 7;
    } else if arg == "--offset" {
      assert arg[2] == 'o' && arg[3] == 'f';
    } else if arg == "--help" {
      assert arg[2] == 'h' && |arg| == 6;
    } else {
      assert |arg| == 2;
    }
  }

  /** With no arguments the format is csv and nothing else is set. */
  lemma {:induction false} NoArguments()
    ensures Parse([]) == Run(Options(Csv, None, None, None))
  {
  }

  /** `--format=V` accepts `csv` and `json` in any letter case, read up to the next `=`, and exits with 1 otherwise. */
  lemma {:induction false} FormatEqForm(v: string, o: Options)
    ensures var f := FormatOf(JsText.Before(v, '='));
      ParseFrom(["--format=" + v], 0, o) == (if f.Some? then Run(o.(format := f.value)) else Exit(1))
  {
    var arg := "--format=" + v;
    StartsWithOf("--format=", v);
    EqValueOf("--format=", v);
    assert StepAt([arg], 0, o) == WithFormat(FormatOf(JsText.Before(v, '=')), o, 1);
    ParseLast([arg], o);
  }

  /** `--format V` accepts the same values and consumes the next token. */
  lemma {:induction false} FormatSpaceForm(v: string, o: Options)
    ensures ParseFrom(["--format", v], 0, o) ==
      (if FormatOf(v).Some? then Run(o.(format := FormatOf(v).value)) else Exit(1))
  {
    FlagsHaveNoPrefix("--format");
    assert StepAt(["--format", v], 0, o) == WithFormat(FormatOf(v), o, 2);
    ParseLast(["--format", v], o);
  }

  /** `--output=V` keeps the text up to the next `=`. */
  lemma {:induction false} OutputEqForm(v: string, o: Options)
    ensures ParseFrom(["--output=" + v], 0, o) == Run(o.(output := Some(JsText.Before(v, '='))))
  {
    var arg := "--output=" + v;
    StartsWithOf("--output=", v);
    EqValueOf("--output=", v);
    PrefixChars(arg);
    assert arg[2] == 'o';
    assert StepAt([arg], 0, o) == Go(o.(output := Some(JsText.Before(v, '='))), 1);
    ParseLast([arg], o);
  }

  /** `--output V` keeps the next token whole. */
  lemma {:induction false} OutputSpaceForm(v: string, o: Options)
    ensures ParseFrom(["--output", v], 0, o) == Run(o.(output := Some(v)))
  {
    FlagsHaveNoPrefix("--output");
    assert StepAt(["--output", v], 0, o) == Go(o.(output := Some(v)), 2);
    ParseLast(["--output", v], o);
  }

  /** `--limit=V` takes `parseInt` of the value and accepts it only when it is positive. */
  lemma {:induction false} LimitEqForm(v: string, o: Options)
    requires '=' !in v
    ensures ParseFrom(["--limit=" + v], 0, o) == Then(WithLimit(JsText.ParseInt(v, 0), o, 1).ToOutcome(), [])
  {
    var arg := "--limit=" + v;
    StartsWithOf("--limit=", v);
    EqValueOf("--limit=", v);
    BeforeWhole(v);
    PrefixChars(arg);
    assert arg[2] == 'l';
    assert StepAt([arg], 0, o) == WithLimit(JsText.ParseInt(v, 0), o, 1);
    ParseLast([arg], o);
  }

  /** `--limit V` reads the next token the same way. */
  lemma {:induction false} LimitSpaceForm(v: string, o: Options)
    ensures ParseFrom(["--limit", v], 0, o) == Then(WithLimit(JsText.ParseInt(v, 0), o, 2).ToOutcome(), [])
  {
    FlagsHaveNoPrefix("--limit");
    assert StepAt(["--limit", v], 0, o) == WithLimit(JsText.ParseInt(v, 0), o, 2);
    ParseLast(["--limit", v], o);
  }

  /** `--offset=V` takes `parseInt` of the value and accepts it when it is not negative. */
  lemma {:induction false} OffsetEqForm(v: string, o: Options)
    requires '=' !in v
    ensures ParseFrom(["--offset=" + v], 0, o) == Then(WithOffset(JsText.ParseInt(v, 0), o, 1).ToOutcome(), [])
  {
    var arg := "--offset=" + v;
    StartsWithOf("--offset=", v);
    EqValueOf("--offset=", v);
    BeforeWhole(v);
    PrefixChars(arg);
    assert arg[2] == 'o' && arg[3] == 'f';
    assert StepAt([arg], 0, o) == WithOffset(JsText.ParseInt(v, 0), o, 1);
    ParseLast([arg], o);
  }

  /** `--offset V` reads the next token the same way. */
  lemma {:induction false} OffsetSpaceForm(v: string, o: Options)
    ensures ParseFrom(["--offset", v], 0, o) == Then(WithOffset(JsText.ParseInt(v, 0), o, 2).ToOutcome(), [])
  {
    FlagsHaveNoPrefix("--offset");
    assert StepAt(["--offset", v], 0, o) == WithOffset(JsText.ParseInt(v, 0), o, 2);
    ParseLast(["--offset", v], o);
  }

  /**
   * `parseInt` reads a numeric prefix, so a positive number followed by
   * non-digits (`--limit=10abc`) sets the limit to the number.
   */
  lemma {:induction false} LimitNumericPrefix(n: nat, tail: string, o: Options)
    requires n > 0 && '=' !in tail && (tail == [] || !JsText.IsDigit(tail[0], 10))
    ensures ParseFrom(["--limit=" + (JsText.NatToString(n) + tail)], 0, o) == Run(o.(limit := Some(n)))
  {
    var v := JsText.NatToString(n) + tail;
    NoEqualsAfterDigits(n, tail);
    LimitEqForm(v, o);
    JsText.ParseIntPrefix(n, tail, 0);
  }

  lemma {:induction false} NoEqualsAfterDigits(n: nat, tail: string)
    requires '=' !in tail
    ensures '=' !in JsText.NatToString(n) + tail
  {
    var d := JsText.NatToString(n);
    var v := d + tail;
    forall k | 0 <= k < |v| ensures v[k] != '=' {
      if k < |d| {
        assert v[k] == d[k];
      } else {
        assert v[k] == tail[k - |d|];
      }
    }
  }

  /** `--help` and `-h` end the process with code 0. */
  lemma {:induction false} HelpExits(h: string, rest: seq<string>, o: Options)
    requires h == "--help" || h == "-h"
    ensures ParseFrom([h] + rest, 0, o) == Exit(0)
  {
    FlagsHaveNoPrefix(h);
    assert ([h] + rest)[0] == h;
    ParseFromStep([h] + rest, 0, o);
  }

  /** A flag with no value after it, and an unknown argument, are skipped. */
  lemma {:induction false} IgnoredAlone(arg: string, o: Options)
    requires SpaceFlag(arg) || Unknown(arg)
    ensures ParseFrom([arg], 0, o) == Run(o)
  {
    if SpaceFlag(arg) {
      FlagsHaveNoPrefix(arg);
    }
    assert StepAt([arg], 0, o) == Go(o, 1);
    ParseLast([arg], o);
  }

  /** Appending a trailing flag without value, or an unknown argument, changes nothing. */
  lemma {:induction false} IgnoredAtEnd(args: seq<string>, arg: string)
    requires !EndsWithSpaceFlag(args)
    requires SpaceFlag(arg) || Unknown(arg)
    ensures Parse(args + [arg]) == Parse(args)
  {
    ParseAppend(args, [arg], Defaults);
    match Parse(args)
    case Run(o) => IgnoredAlone(arg, o);
    case Exit(_) =>
  }

  /** A later `--limit` overrides whatever the earlier arguments set. */
  lemma {:induction false} LaterLimitWins(args: seq<string>, v: string, n: int)
    requires !EndsWithSpaceFlag(args) && Parse(args).Run?
    requires '=' !in v && JsText.ParseInt(v, 0) == Some(n) && n > 0
    ensures Parse(args + ["--limit=" + v]) == Run(Parse(args).options.(limit := Some(n)))
  {
    ParseAppend(args, ["--limit=" + v], Defaults);
    LimitEqForm(v, Parse(args).options);
  }

  /** A later `--format` overrides whatever the earlier arguments set. */
  lemma {:induction false} LaterFormatWins(args: seq<string>, v: string, f: Format)
    requires !EndsWithSpaceFlag(args) && Parse(args).Run?
    requires FormatOf(v) == Some(f)
    ensures Parse(args + ["--format", v]) == Run(Parse(args).options.(format := f))
  {
    ParseAppend(args, ["--format", v], Defaults);
    FormatSpaceForm(v, Parse(args).options);
  }

  // ---------------------------------------------------------------- output path

  /** `.replace(/[:.]/g, '-')`. */
  function Sanitized(s: string): (r: string)
    ensures |r| == |s|
    ensures forall k :: 0 <= k < |s| ==> r[k] == (if s[k] == ':' || s[k] == '.' then '-' else s[k])
  {
    if s == [] then [] else [if s[0] == ':' || s[0] == '.' then '-' else s[0]] + Sanitized(s[1..])
  }

  /** The sanitised text's first 19 characters: `YYYY-MM-DDTHH-MM-SS` for an ISO timestamp. */
  function Timestamp(iso: string): (r: string)
    ensures |r| == (if |iso| < 19 then |iso| else 19)
    ensures ':' !in r && '.' !in r
    ensures forall k :: 0 <= k < |r| ==> r[k] == (if iso[k] == ':' || iso[k] == '.' then '-' else iso[k])
  {
    var s := Sanitized(iso);
    s[..if |iso| < 19 then |iso| else 19]
  }

  /** `options.output || 'public/data/' + base + '-' + timestamp + '.' + format`. */
  function OutputFile(o: Options, base: string, iso: string): (r: string)
    ensures o.output.Some? && o.output.value != "" ==> r == o.output.value
  {
    if o.output.Some? && o.output.value != "" then o.output.value
    else "public/data/" + base + "-" + Timestamp(iso) + "." + FormatName(o.format)
  }

  /** `--output=` leaves an empty output, which is falsy, so the default path is used. */
  lemma {:induction false} EmptyOutputUsesDefault(base: string, iso: string)
    ensures Parse(["--output="]) == Run(Defaults.(output := Some("")))
    ensures OutputFile(Defaults.(output := Some("")), base, iso) ==
      "public/data/" + base + "-" + Timestamp(iso) + ".csv"
  {
    OutputEqForm("", Defaults);
    assert "--output=" + "" == "--output=";
  }
}
