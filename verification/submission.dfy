/** Accepting a submission against a profile (executor/args.go) and what acceptance guarantees at execution. */
module Submissions {
  import opened Jobs
  import opened Arguments

  const POSITIONAL_KEY := "_positional"
  const MAX_ARG_VALUE_LEN := 256

  /** A declared argument with its compiled pattern. */
  datatype ArgSpec = ArgSpec(name: string, required: bool, default: string, allowDash: bool, pattern: string -> bool)

  /** A payload value: a string or a number as written, or anything else. */
  datatype Scalar = Text(value: string) | NotScalar

  predicate IsControl(c: char) {
    c < ' ' || '\U{7F}' <= c <= '\U{9F}'
  }

  predicate HasControl(s: string) {
    exists i :: 0 <= i < |s| && IsControl(s[i])
  }

  predicate StartsWithDash(s: string) {
    s != "" && s[0] == '-'
  }

  predicate CheckArgValue(arg: ArgSpec, value: string) {
    |value| <= MAX_ARG_VALUE_LEN && !HasControl(value) && arg.pattern(value)
      && (arg.allowDash || !StartsWithDash(value))
  }

  /** What loading a profile checks of its arguments. */
  ghost predicate ArgsChecked(args: seq<ArgSpec>) {
    && (forall i, j :: 0 <= i < j < |args| ==> args[i].name != args[j].name)
    && (forall i :: 0 <= i < |args| ==> args[i].name != POSITIONAL_KEY && !(args[i].required && args[i].default != "")
                                        && (args[i].default != "" ==> args[i].pattern(args[i].default)))
  }

  /** And of its templates: paired braces and declared names. */
  ghost predicate TemplateChecked(t: string, args: seq<ArgSpec>) {
    Balanced(t, false) && forall m :: m in FindAll(t) ==> Declares(args, m.name)
  }

  predicate Declares(args: seq<ArgSpec>, name: string) {
    exists i :: 0 <= i < |args| && args[i].name == name
  }

  predicate Allows(args: seq<ArgSpec>, name: string, value: Scalar) {
    value.Text? && exists i :: 0 <= i < |args| && args[i].name == name && CheckArgValue(args[i], value.value)
  }

  /** Every given value is declared and allowed, and nothing required is missing. */
  predicate Accepts(args: seq<ArgSpec>, source: map<string, Scalar>) {
    && (forall name <- source :: name != POSITIONAL_KEY ==> Allows(args, name, source[name]))
    && (forall i :: 0 <= i < |args| && args[i].required ==> args[i].name in source)
  }

  function Texts(source: map<string, Scalar>): map<string, string> {
    map name | name in source && name != POSITIONAL_KEY && source[name].Text? :: source[name].value
  }

  method FindArg(args: seq<ArgSpec>, name: string) returns (index: int)
    ensures -1 <= index < |args| && (index == -1 <==> !Declares(args, name))
    ensures index >= 0 ==> args[index].name == name && forall i :: 0 <= i < index ==> args[i].name != name
  {
    for i := 0 to |args|
      invariant forall k :: 0 <= k < i ==> args[k].name != name
    {
      if args[i].name == name {
        return i;
      }
    }
    return -1;
  }

  /** An accepted submission: every value but the reserved one is a string of at most 256 characters without
      control characters, for a declared argument whose pattern it meets, and does not look like an option
      unless that argument allows it; and every required argument is there. */
  lemma AcceptsIff(args: seq<ArgSpec>, source: map<string, Scalar>)
    ensures Accepts(args, source) <==>
            && (forall name :: name in source && name != "_positional" ==>
                  source[name].Text? && exists i :: 0 <= i < |args| && Fit(args[i], name, source[name].value))
            && (forall i :: 0 <= i < |args| && args[i].required ==> args[i].name in source)
  {
    forall name | name in source && source[name].Text?
      ensures Allows(args, name, source[name]) <==>
              exists i :: 0 <= i < |args| && Fit(args[i], name, source[name].value)
    {
      forall i | 0 <= i < |args|
        ensures Fit(args[i], name, source[name].value) <==>
                args[i].name == name && CheckArgValue(args[i], source[name].value)
      {}
    }
  }

  predicate Fit(arg: ArgSpec, name: string, value: string) {
    && arg.name == name && arg.pattern(value) && |value| <= 256
    && (forall i :: 0 <= i < |value| ==> !(value[i] < ' ' || '\U{7F}' <= value[i] <= '\U{9F}'))
    && (value != "" && value[0] == '-' ==> arg.allowDash)
  }

  /** The order in which the values are visited does not matter. */
  method FillValues(args: seq<ArgSpec>, source: map<string, Scalar>) returns (target: Option<map<string, string>>)
    requires ArgsChecked(args)
    ensures target.Some? <==> Accepts(args, source)
    ensures target.Some? ==> target.value == Texts(source)
  {
    var names := source.Keys;
    var values: map<string, string> := map[];
    while names != {}
      invariant names <= source.Keys
      invariant forall name :: name in source && name !in names && name != POSITIONAL_KEY ==>
                Allows(args, name, source[name])
      invariant values == map name | name in Texts(source) && name !in names :: Texts(source)[name]
      decreases |names|
    {
      var name :| name in names;
      names := names - {name};
      if name != POSITIONAL_KEY {
        if source[name].NotScalar? {
          return None;
        }
        var index := FindArg(args, name);
        if index == -1 || !CheckArgValue(args[index], source[name].value) {
          OnlyOneOfName(args, name, index, source[name]);
          return None;
        }
        values := values[name := source[name].value];
      }
    }
    assert values == Texts(source);
    assert forall name :: name in source && name != POSITIONAL_KEY ==>
      Allows(args, name, source[name]) && name in values;
    for i := 0 to |args|
      invariant forall k :: 0 <= k < i && args[k].required ==> args[k].name in source
    {
      if args[i].required && args[i].name !in values {
        return None;
      }
    }
    target := Some(values);
  }

  lemma OnlyOneOfName(args: seq<ArgSpec>, name: string, index: int, value: Scalar)
    requires ArgsChecked(args) && -1 <= index < |args| && value.Text?
    requires if index == -1 then !Declares(args, name)
             else args[index].name == name && !CheckArgValue(args[index], value.value)
    ensures !Allows(args, name, value)
  {}

  datatype Positional = Positional(max: nat, pattern: string -> bool)

  predicate CheckPositionalValue(spec: Positional, value: string) {
    |value| <= MAX_ARG_VALUE_LEN && !HasControl(value) && spec.pattern(value) && !StartsWithDash(value)
  }

  /** `given` is the reserved key of the payload, and None inside it a value that is no list of strings. */
  method TakePositional(spec: Option<Positional>, given: Option<Option<seq<string>>>) returns (r: Option<seq<string>>)
    ensures r.Some? <==> given.None? || (spec.Some? && given.value.Some? && |given.value.value| <= spec.value.max
                                         && forall i :: 0 <= i < |given.value.value| ==>
                                            CheckPositionalValue(spec.value, given.value.value[i]))
    ensures r.Some? ==> r.value == if given.Some? then given.value.value else []
  {
    if given.None? {
      return Some([]);
    }
    if spec.None? || given.value.None? || |given.value.value| > spec.value.max {
      return None;
    }
    var values := given.value.value;
    for i := 0 to |values|
      invariant forall k :: 0 <= k < i ==> CheckPositionalValue(spec.value, values[k])
    {
      if !CheckPositionalValue(spec.value, values[i]) {
        return None;
      }
    }
    r := Some(values);
  }

  /** An accepted positional value never looks like an option, and has no control character. */
  lemma PositionalIsNoOption(spec: Positional, value: string)
    ensures CheckPositionalValue(spec, value) <==>
            && spec.pattern(value) && |value| <= 256 && !(value != "" && value[0] == '-')
            && forall i :: 0 <= i < |value| ==> !(value[i] < ' ' || '\U{7F}' <= value[i] <= '\U{9F}')
  {}

  // ---------- What an accepted submission renders ----------

  function Declarations(args: seq<ArgSpec>): (r: seq<Argument>)
    ensures |r| == |args| && forall i :: 0 <= i < |r| ==> r[i] == Argument(args[i].name, args[i].default)
  {
    seq(|args|, i requires 0 <= i < |args| => Argument(args[i].name, args[i].default))
  }

  function DefaultOf(args: seq<ArgSpec>, name: string): string {
    if args == [] then "" else if args[0].name == name then args[0].default else DefaultOf(args[1..], name)
  }

  /** What a placeholder gets: the submitted value, else the declared default, else nothing. */
  function ValueFor(args: seq<ArgSpec>, source: map<string, Scalar>, name: string): Option<string> {
    if name in source && source[name].Text? then Some(source[name].value)
    else if DefaultOf(args, name) != "" then Some(DefaultOf(args, name))
    else None
  }

  /** The placeholder is written out in full and gets a value without a brace. */
  predicate Fills(args: seq<ArgSpec>, source: map<string, Scalar>, m: Match) {
    Closed(m) && ValueFor(args, source, m.name).Some? && !HasBrace(ValueFor(args, source, m.name).value)
  }

  lemma {:induction false} DefaultAt(args: seq<ArgSpec>, i: nat)
    requires i < |args| && forall j, k :: 0 <= j < k < |args| ==> args[j].name != args[k].name
    ensures DefaultOf(args, args[i].name) == args[i].default
  {
    if i > 0 { DefaultAt(args[1..], i - 1); }
  }

  /** A declared placeholder of an accepted submission is usable exactly when it gets a value without a brace. */
  lemma AcceptedValueUsable(args: seq<ArgSpec>, source: map<string, Scalar>, m: Match)
    requires ArgsChecked(args) && Accepts(args, source) && Declares(args, m.name)
    ensures var v := ValueFor(args, source, m.name);
      Usable(Defaults(Declarations(args)) + Texts(source), m) <==> v.Some? && !HasBrace(v.value)
  {
    var i: nat :| i < |args| && args[i].name == m.name;
    ValueOf(Declarations(args), Texts(source), i);
    DefaultAt(args, i);
    if m.name in source { assert Allows(args, m.name, source[m.name]); }
  }

  /** For a profile that loaded and a submission that was accepted, a template renders exactly when each of its
      placeholders is written out in full and gets a value without a brace. */
  lemma AcceptedRendersIff(args: seq<ArgSpec>, source: map<string, Scalar>, t: string)
    requires ArgsChecked(args) && Accepts(args, source) && TemplateChecked(t, args)
    ensures Renders(t, Defaults(Declarations(args)) + Texts(source)) <==>
            forall m :: m in FindAll(t) ==> Fills(args, source, m)
  {
    var values := Defaults(Declarations(args)) + Texts(source);
    forall m | m in FindAll(t) ensures Fills(args, source, m) <==> Closed(m) && Usable(values, m) {
      AcceptedValueUsable(args, source, m);
    }
    BalancedStrayIff(t);
  }

  ghost predicate RejectsBraces(args: seq<ArgSpec>) {
    forall i, v :: 0 <= i < |args| && args[i].pattern(v) ==> !HasBrace(v)
  }

  predicate Optional(args: seq<ArgSpec>, name: string) {
    exists i :: 0 <= i < |args| && args[i].name == name && !args[i].required && args[i].default == ""
  }

  /** With patterns that admit no brace only what was left out is missing: an optional argument without a default. */
  lemma BraceFreeFillsIff(args: seq<ArgSpec>, source: map<string, Scalar>, m: Match)
    requires ArgsChecked(args) && RejectsBraces(args) && Accepts(args, source) && Declares(args, m.name)
    ensures Fills(args, source, m) <==> Closed(m) && (m.name in source || !Optional(args, m.name))
  {
    var i: nat :| i < |args| && args[i].name == m.name;
    DefaultAt(args, i);
    if m.name in source {
      assert Allows(args, m.name, source[m.name]);
      var j :| 0 <= j < |args| && args[j].name == m.name && CheckArgValue(args[j], source[m.name].value);
      assert args[j].pattern(source[m.name].value);
    } else if args[i].default != "" {
      assert args[i].pattern(args[i].default);
    }
  }

  // ---------- Submissions that are accepted and do not render ----------

  /** A pattern that admits a brace: the value is accepted, and its template never renders. */
  lemma BraceInValueBlocks()
    ensures var args, source := [ArgSpec("a", true, "", false, _ => true)], map["a" := Text("{")];
      ArgsChecked(args) && TemplateChecked("{a}", args) && Accepts(args, source)
      && !Renders("{a}", Defaults(Declarations(args)) + Texts(source))
  {
    var args, source := [ArgSpec("a", true, "", false, _ => true)], map["a" := Text("{")];
    OnePlaceholder();
    assert args[0].name == "a";
    assert CheckArgValue(args[0], "{") && Allows(args, "a", source["a"]);
    assert Match("a", "{a}") in FindAll("{a}");
    AcceptedRendersIff(args, source, "{a}");
  }

  /** An optional argument without a default that was left out. */
  lemma OmittedOptionalBlocks()
    ensures var args := [ArgSpec("a", false, "", false, v => v == "x")];
      ArgsChecked(args) && TemplateChecked("{a}", args) && Accepts(args, map[])
      && !Renders("{a}", Defaults(Declarations(args)) + Texts(map[]))
  {
    var args := [ArgSpec("a", false, "", false, v => v == "x")];
    OnePlaceholder();
    assert args[0].name == "a";
    assert Match("a", "{a}") in FindAll("{a}");
    AcceptedRendersIff(args, map[], "{a}");
  }

  // ---------- Timeouts ----------

  const DEFAULT_TIMEOUT := 300
  const DEFAULT_MAX_TIMEOUT := 1800

  /** The executor limits, in seconds; not positive means the built-in value. */
  datatype Limits = Limits(timeout: int, maxTimeout: int)
  {
    function Floor(): int { if timeout <= 0 then DEFAULT_TIMEOUT else timeout }
    function Ceiling(): int { if maxTimeout <= 0 then DEFAULT_MAX_TIMEOUT else maxTimeout }
  }

  /** The timeout a profile gets when it is loaded. */
  function ProfileTimeout(declared: int, limits: Limits): Option<int> {
    if declared < 0 then None
    else
      var t := if declared == 0 then limits.Floor() else declared;
      if t > limits.Ceiling() then None else Some(t)
  }

  /** A profile loads exactly when its timeout, or the default for none, is not negative and within the global
      limit, and keeps it unchanged: a longer one is refused and not cut. */
  lemma LoadedTimeoutIs(declared: int, limits: Limits)
    ensures var wanted := if declared != 0 then declared else if limits.timeout > 0 then limits.timeout else 300;
      var most := if limits.maxTimeout > 0 then limits.maxTimeout else 1800;
      ProfileTimeout(declared, limits) == if 0 < wanted <= most then Some(wanted) else None
  {}

  function WithinLimits(profileTimeout: int, limits: Limits, requested: int): int {
    var wanted := if requested > 0 then requested else if profileTimeout > 0 then profileTimeout else limits.Floor();
    if wanted > limits.Ceiling() then limits.Ceiling() else wanted
  }

  /** The timeout of one execution, always positive and within the global limit. */
  method TimeoutWithin(profileTimeout: int, limits: Limits, requested: int) returns (value: int)
    ensures value == WithinLimits(profileTimeout, limits, requested) && 0 < value <= limits.Ceiling()
  {
    var floor, ceiling := limits.Floor(), limits.Ceiling();
    value := profileTimeout;
    if value <= 0 {
      value := floor;
    }
    if requested > 0 {
      value := requested;
    }
    if value > ceiling {
      value := ceiling;
    }
  }

  /** A request that was accepted, being no longer than the profile's timeout, is the one that takes effect;
      without a request the profile's own timeout does. */
  lemma AcceptedTimeoutTakesEffect(declared: int, limits: Limits, requested: int)
    requires ProfileTimeout(declared, limits).Some? && 0 <= requested <= ProfileTimeout(declared, limits).value
    ensures var t := ProfileTimeout(declared, limits).value;
      WithinLimits(t, limits, requested) == if requested > 0 then requested else t
  {}
}
