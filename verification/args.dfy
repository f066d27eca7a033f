/** Rendering the argument templates of a profile into an argv (executor/args.go, executor/profile.go). */
module Arguments {
  import opened Texts

  // ---------- Placeholders ----------

  predicate HasBrace(s: string) {
    '{' in s || '}' in s
  }

  /** Length of the run of name characters at the front. */
  function NameLength(s: string): (n: nat)
    ensures n <= |s| && (forall i :: 0 <= i < n ==> NameChar(s[i])) && (n < |s| ==> !NameChar(s[n]))
  {
    if s != "" && NameChar(s[0]) then 1 + NameLength(s[1..]) else 0
  }

  /** A placeholder as the pattern finds it: a name in braces, the closing one being optional. */
  datatype Match = Match(name: string, whole: string)

  function MatchAt(t: string): (m: Match)
    requires t != "" && t[0] == '{'
    ensures m.whole <= t && |m.whole| > 0 && m.whole[0] == '{' && '{' !in m.whole[1..]
  {
    var n := NameLength(t[1..]);
    var end := if n + 1 < |t| && t[n + 1] == '}' then n + 2 else n + 1;
    assert forall i :: 1 <= i < end ==> t[i] != '{' by {
      assert forall i :: 0 <= i < n ==> NameChar(t[1..][i]);
    }
    Match(t[1..n + 1], t[..end])
  }

  /** Every placeholder, leftmost first. */
  function FindAll(t: string): seq<Match>
    decreases |t|
  {
    if t == "" then []
    else if t[0] == '{' then [MatchAt(t)] + FindAll(t[|MatchAt(t).whole|..])
    else FindAll(t[1..])
  }

  /** The template with all placeholders replaced at once. */
  function Substitute(t: string, values: map<string, string>): string
    decreases |t|
  {
    if t == "" then ""
    else if t[0] == '{' then
      var m := MatchAt(t);
      (if m.name in values then values[m.name] else "") + Substitute(t[|m.whole|..], values)
    else [t[0]] + Substitute(t[1..], values)
  }

  /** A closing brace that ends no placeholder. */
  predicate Stray(t: string)
    decreases |t|
  {
    t != "" && if t[0] == '{' then Stray(t[|MatchAt(t).whole|..]) else t[0] == '}' || Stray(t[1..])
  }

  predicate Usable(values: map<string, string>, m: Match) {
    m.name in values && !HasBrace(values[m.name])
  }

  // ---------- Replacing one occurrence ----------

  /** Replaces the first occurrence, if any. */
  function ReplaceFirst(s: string, pattern: string, value: string): string {
    if pattern <= s then value + s[|pattern|..]
    else if s == "" then ""
    else [s[0]] + ReplaceFirst(s[1..], pattern, value)
  }

  /** A pattern that starts with an opening brace is found at the first opening brace. */
  lemma {:induction false} ReplaceAtFirstBrace(done: string, s: string, pattern: string, value: string)
    requires '{' !in done && pattern != "" && pattern[0] == '{' && pattern <= s
    ensures ReplaceFirst(done + s, pattern, value) == done + (value + s[|pattern|..])
    decreases |done|
  {
    if done == "" {
      assert done + s == s;
    } else {
      var whole := done + s;
      assert whole[0] == done[0] && whole[1..] == done[1..] + s;
      assert !(pattern <= whole);
      ReplaceAtFirstBrace(done[1..], s, pattern, value);
      assert ReplaceFirst(whole, pattern, value) == [done[0]] + (done[1..] + (value + s[|pattern|..]));
    }
  }

  // ---------- One template ----------

  datatype Rendered = Ok(text: string) | MissingValue(name: string) | BraceInValue(name: string) | BraceLeft

  lemma Regroup(a: string, b: string, c: string)
    ensures a + (b + c) == a + b + c
  {}

  /** Replacing the first placeholder at its first occurrence moves the part that is done past it. */
  lemma {:induction false} OneReplacement(done: string, rest: string, values: map<string, string>)
    returns (done': string, rest': string)
    requires '{' !in done && FindAll(rest) != [] && Usable(values, FindAll(rest)[0])
    ensures var m := FindAll(rest)[0];
      && ReplaceFirst(done + rest, m.whole, values[m.name]) == done' + rest' && '{' !in done'
      && FindAll(rest') == FindAll(rest)[1..] && done' + Substitute(rest', values) == done + Substitute(rest, values)
    decreases |rest|
  {
    if rest[0] == '{' {
      var m := MatchAt(rest);
      ReplaceAtFirstBrace(done, rest, m.whole, values[m.name]);
      done', rest' := done + values[m.name], rest[|m.whole|..];
      Regroup(done, values[m.name], rest');
      Regroup(done, values[m.name], Substitute(rest', values));
    } else {
      var c := [rest[0]];
      assert rest == c + rest[1..];
      Regroup(done, c, rest[1..]);
      Regroup(done, c, Substitute(rest[1..], values));
      done', rest' := OneReplacement(done + c, rest[1..], values);
    }
  }

  /** Replaces the placeholders one after the other, each at its first occurrence. */
  method RenderArgItem(template: string, values: map<string, string>) returns (r: Rendered)
    ensures r.Ok? <==>
            (forall m :: m in FindAll(template) ==> Usable(values, m)) && !HasBrace(Substitute(template, values))
    ensures r.Ok? ==> r.text == Substitute(template, values)
  {
    var matches := FindAll(template);
    var rendered := template;
    ghost var done, rest := "", template;
    assert template == "" + template;
    for i := 0 to |matches|
      invariant rendered == done + rest && '{' !in done
      invariant FindAll(rest) == matches[i..] && Substitute(template, values) == done + Substitute(rest, values)
      invariant forall k :: 0 <= k < i ==> Usable(values, matches[k])
    {
      var m := matches[i];
      assert m in FindAll(template);
      if m.name !in values {
        return MissingValue(m.name);
      }
      if HasBrace(values[m.name]) {
        return BraceInValue(m.name);
      }
      ghost var done', rest' := OneReplacement(done, rest, values);
      rendered := ReplaceFirst(rendered, m.whole, values[m.name]);
      done, rest := done', rest';
    }
    NoMatches(rest, values);
    if HasBrace(rendered) {
      return BraceLeft;
    }
    r := Ok(rendered);
  }

  lemma {:induction false} NoMatches(t: string, values: map<string, string>)
    requires FindAll(t) == []
    ensures Substitute(t, values) == t
    decreases |t|
  {
    if t != "" { NoMatches(t[1..], values); }
  }

  /** Text without an opening brace stays; a name in braces becomes its value, wherever it stands. */
  lemma {:induction false} PlaceholderIsReplaced(text: string, name: string, rest: string, values: map<string, string>)
    requires '{' !in text && forall i :: 0 <= i < |name| ==> NameChar(name[i])
    ensures var value := if name in values then values[name] else "";
      Substitute(text + ("{" + name + "}" + rest), values) == text + (value + Substitute(rest, values))
    ensures Substitute(text, values) == text
    decreases |text|
  {
    var placeholder := "{" + name + "}" + rest;
    if text == "" {
      assert text + placeholder == placeholder;
      PlaceholderAt(name, rest);
      assert placeholder[|name| + 2..] == rest;
    } else {
      var whole := text + placeholder;
      var value := if name in values then values[name] else "";
      assert whole[0] == text[0] && whole[1..] == text[1..] + placeholder;
      PlaceholderIsReplaced(text[1..], name, rest, values);
      Regroup([text[0]], text[1..], value + Substitute(rest, values));
      assert [text[0]] + text[1..] == text;
    }
  }

  lemma PlaceholderAt(name: string, rest: string)
    requires forall i :: 0 <= i < |name| ==> NameChar(name[i])
    ensures var t := "{" + name + "}" + rest; MatchAt(t) == Match(name, "{" + name + "}")
  {
    var t := "{" + name + "}" + rest;
    var tail := t[1..];
    assert tail == name + ("}" + rest);
    NameEnds(name, "}" + rest);
    assert t[|name| + 1] == '}';
    assert t[1..|name| + 1] == name && t[..|name| + 2] == "{" + name + "}";
  }

  lemma {:induction false} NameEnds(name: string, rest: string)
    requires (forall i :: 0 <= i < |name| ==> NameChar(name[i])) && rest != "" && !NameChar(rest[0])
    ensures NameLength(name + rest) == |name|
    decreases |name|
  {
    var whole := name + rest;
    if name == "" {
      assert whole == rest;
    } else {
      assert whole[0] == name[0] && whole[1..] == name[1..] + rest;
      NameEnds(name[1..], rest);
    }
  }

  // ---------- Which templates render ----------

  /** With brace-free values only a stray closing brace of the template survives. */
  lemma {:induction false} SurvivingBraces(t: string, values: map<string, string>)
    requires forall m :: m in FindAll(t) ==> Usable(values, m)
    ensures HasBrace(Substitute(t, values)) <==> Stray(t)
    decreases |t|
  {
    if t == "" {
    } else if t[0] == '{' {
      var m := MatchAt(t);
      assert m in FindAll(t);
      SurvivingBraces(t[|m.whole|..], values);
    } else {
      SurvivingBraces(t[1..], values);
    }
  }

  /** Braces come in pairs that do not nest; `open` says whether one is open at the front. */
  predicate Balanced(t: string, open: bool) {
    if t == "" then !open
    else if t[0] == '{' then !open && Balanced(t[1..], true)
    else if t[0] == '}' then open && Balanced(t[1..], false)
    else Balanced(t[1..], open)
  }

  /** Opening braces less closing ones. */
  function Depth(t: string): int {
    if t == "" then 0 else (if t[0] == '{' then 1 else if t[0] == '}' then -1 else 0) + Depth(t[1..])
  }

  /** Balanced means: at every point of the text none or one brace is open, and none at the end. */
  lemma {:induction false} BalancedIff(t: string, open: bool)
    ensures Balanced(t, open) <==>
            var start := if open then 1 else 0;
            (forall i :: 0 <= i <= |t| ==> 0 <= start + Depth(t[..i]) <= 1) && start + Depth(t) == 0
    decreases |t|
  {
    var start := if open then 1 else 0;
    assert t[..|t|] == t && t[..0] == "";
    if t != "" {
      var step := if t[0] == '{' then 1 else if t[0] == '}' then -1 else 0;
      forall i | 0 <= i < |t| ensures Depth(t[..i + 1]) == step + Depth(t[1..][..i]) {
        assert t[..i + 1][0] == t[0] && t[..i + 1][1..] == t[1..][..i];
      }
      if 0 <= start + step <= 1 {
        BalancedIff(t[1..], start + step == 1);
        PrefixesShift(t, start, step);
      } else {
        assert Depth(t[..1]) == step by { assert t[1..][..0] == ""; }
      }
    }
  }

  lemma PrefixesShift(t: string, start: int, step: int)
    requires t != "" && 0 <= start <= 1
    requires forall i :: 0 <= i < |t| ==> Depth(t[..i + 1]) == step + Depth(t[1..][..i])
    ensures (forall i :: 0 <= i <= |t| ==> 0 <= start + Depth(t[..i]) <= 1) <==>
            (forall i :: 0 <= i <= |t[1..]| ==> 0 <= start + step + Depth(t[1..][..i]) <= 1)
  {
    assert t[..0] == "";
    if forall i :: 0 <= i <= |t| ==> 0 <= start + Depth(t[..i]) <= 1 {
      forall i | 0 <= i <= |t[1..]| ensures 0 <= start + step + Depth(t[1..][..i]) <= 1 {
        assert 0 <= start + Depth(t[..i + 1]) <= 1;
      }
    }
    if forall i :: 0 <= i <= |t[1..]| ==> 0 <= start + step + Depth(t[1..][..i]) <= 1 {
      forall i | 0 <= i <= |t| ensures 0 <= start + Depth(t[..i]) <= 1 {
        if i > 0 { assert Depth(t[..i - 1 + 1]) == step + Depth(t[1..][..i - 1]); }
      }
    }
  }

  method CheckBraces(item: string) returns (ok: bool)
    ensures ok <==> Balanced(item, false)
  {
    var open := false;
    for i := 0 to |item|
      invariant Balanced(item, false) <==> Balanced(item[i..], open)
    {
      assert item[i..][1..] == item[i + 1..];
      if item[i] == '{' {
        if open {
          return false;
        }
        open := true;
      } else if item[i] == '}' {
        if !open {
          return false;
        }
        open := false;
      }
    }
    ok := !open;
  }

  /** The placeholder is written out in full. */
  predicate Closed(m: Match) {
    m.whole != "" && m.whole[|m.whole| - 1] == '}'
  }

  lemma {:induction false} NamesDoNotCount(t: string, open: bool, n: nat)
    requires n <= |t| && forall i :: 0 <= i < n ==> NameChar(t[i])
    ensures Balanced(t, open) <==> Balanced(t[n..], open)
    decreases n
  {
    if n > 0 {
      assert t[1..][n - 1..] == t[n..];
      NamesDoNotCount(t[1..], open, n - 1);
    } else {
      assert t[0..] == t;
    }
  }

  /** An open brace that is still to be closed closes outside every placeholder. */
  lemma {:induction false} OpenLeavesStray(t: string)
    requires Balanced(t, true)
    ensures Stray(t)
    decreases |t|
  {
    if t[0] != '}' { OpenLeavesStray(t[1..]); }
  }

  lemma {:induction false} BalancedStrayIff(t: string)
    requires Balanced(t, false)
    ensures Stray(t) <==> exists m :: m in FindAll(t) && !Closed(m)
    decreases |t|
  {
    if t == "" {
    } else if t[0] == '{' {
      var m, n := MatchAt(t), NameLength(t[1..]);
      NamesDoNotCount(t[1..], true, n);
      assert t[1..][n..] == t[n + 1..];
      var rest := t[|m.whole|..];
      assert FindAll(t) == [m] + FindAll(rest);
      if Closed(m) {
        ClosedAt(t);
        assert t[n + 1..][1..] == rest;
        BalancedStrayIff(rest);
      } else {
        ClosedAt(t);
        OpenLeavesStray(rest);
        assert m in FindAll(t);
      }
    } else {
      BalancedStrayIff(t[1..]);
    }
  }

  lemma ClosedAt(t: string)
    requires t != "" && t[0] == '{'
    ensures var m, n := MatchAt(t), NameLength(t[1..]);
      if n + 1 < |t| && t[n + 1] == '}' then Closed(m) && |m.whole| == n + 2 else !Closed(m) && |m.whole| == n + 1
  {
    var n := NameLength(t[1..]);
    if n > 0 { assert t[n] == t[1..][n - 1] && NameChar(t[n]); }
  }

  /** A template that passed the brace check, with a brace-free value for every name, renders exactly when
      every placeholder is written out in full. */
  lemma CheckedTemplateRendersIff(t: string, values: map<string, string>)
    requires Balanced(t, false) && forall m :: m in FindAll(t) ==> Usable(values, m)
    ensures !HasBrace(Substitute(t, values)) <==> forall m :: m in FindAll(t) ==> Closed(m)
  {
    SurvivingBraces(t, values);
    BalancedStrayIff(t);
  }

  /** One that passes the check and renders with no values. */
  lemma SpacedNameNeverRenders(values: map<string, string>)
    ensures Balanced("{a b}", false) && !Renders("{a b}", values)
  {
    var t := "{a b}";
    assert t[1..] == "a b}" && t[1..][1..] == " b}" && t[1..][1..][1..] == "b}" && t[1..][1..][1..][1..] == "}";
    assert t[1..][1..][1..][1..][1..] == "";
    assert NameLength(" b}") == 0 && NameLength("a b}") == 1;
    assert t[..2] == "{a" && MatchAt(t).whole == "{a" && t[2..] == " b}";
    assert Stray("}") && Stray("b}") && Stray(" b}");
  }

  lemma OnePlaceholder()
    ensures FindAll("{a}") == [Match("a", "{a}")] && Balanced("{a}", false)
  {
    var t := "{a}";
    assert t[1..] == "a}" && t[1..][1..] == "}" && t[1..][1..][1..] == "";
    assert NameLength("}") == 0 && NameLength("a}") == 1;
    assert MatchAt(t) == Match("a", "{a}") && t[3..] == "";
  }

  // ---------- The whole argv ----------

  datatype Kind = Script | Binary | Http

  /** A declared argument; an empty default is no default. */
  datatype Argument = Argument(name: string, default: string)

  datatype Profile = Profile(
    kind: Kind, runtime: string, scriptPath: string, adhoc: bool, programPath: string, programName: string,
    fixedArgs: seq<string>, args: seq<Argument>, argsRender: seq<string>)

  datatype Submission = Submission(args: map<string, string>, positional: seq<string>, script: string)

  datatype Argv = Argv(items: seq<string>) | WrongKind | Unrendered(template: nat)

  /** What the payload and the profile fix before the templates. */
  function Front(p: Profile, sub: Submission): seq<string>
    requires p.kind != Http
  {
    if p.kind == Script then [p.runtime, if p.adhoc then sub.script else p.scriptPath]
    else [if p.programPath != "" then p.programPath else p.programName] + p.fixedArgs
  }

  function Defaults(args: seq<Argument>): map<string, string> {
    if args == [] then map[]
    else
      var rest, last := Defaults(args[..|args| - 1]), args[|args| - 1];
      if last.default != "" then rest[last.name := last.default] else rest
  }

  /** The payload's values over the declared defaults. */
  method RenderValues(p: Profile, sub: Submission) returns (values: map<string, string>)
    ensures values == Defaults(p.args) + sub.args
  {
    values := map[];
    for i := 0 to |p.args|
      invariant values == Defaults(p.args[..i])
    {
      assert p.args[..i + 1][..i] == p.args[..i];
      if p.args[i].default != "" {
        values := values[p.args[i].name := p.args[i].default];
      }
    }
    assert p.args[..|p.args|] == p.args;
    var names := sub.args.Keys;
    ghost var defaults := values;
    while names != {}
      invariant names <= sub.args.Keys && values == defaults + map k | k in sub.args.Keys - names :: sub.args[k]
      decreases |names|
    {
      var name :| name in names;
      values := values[name := sub.args[name]];
      names := names - {name};
    }
  }

  predicate Renders(template: string, values: map<string, string>) {
    (forall m <- FindAll(template) :: Usable(values, m)) && !Stray(template)
  }

  predicate RenderedItem(item: string, template: string, values: map<string, string>) {
    Renders(template, values) && item == Substitute(template, values) && !HasBrace(item)
  }

  /** One rendered element per template: all its placeholders replaced at once, and no brace left. */
  predicate RenderedAll(items: seq<string>, templates: seq<string>, values: map<string, string>) {
    |items| == |templates| && forall k :: 0 <= k < |items| ==> RenderedItem(items[k], templates[k], values)
  }

  /** The runtime with its script, or the program with its fixed arguments; then the rendered templates; then
      the positional values as they are. */
  ghost predicate Complete(p: Profile, sub: Submission, items: seq<string>)
    requires p.kind != Http
  {
    var front := if p.kind == Script then 2 else 1 + |p.fixedArgs|;
    var end := front + |p.argsRender|;
    && |items| == end + |sub.positional| && items[end..] == sub.positional
    && (p.kind == Script ==> items[0] == p.runtime && items[1] == if p.adhoc then sub.script else p.scriptPath)
    && (p.kind == Binary ==>
          && items[0] == (if p.programPath != "" then p.programPath else p.programName)
          && items[1..front] == p.fixedArgs)
    && RenderedAll(items[front..end], p.argsRender, Defaults(p.args) + sub.args)
  }

  lemma CompleteIs(p: Profile, sub: Submission, rendered: seq<string>)
    requires p.kind != Http && RenderedAll(rendered, p.argsRender, Defaults(p.args) + sub.args)
    ensures Complete(p, sub, Front(p, sub) + rendered + sub.positional)
  {
    var front := Front(p, sub);
    var items := front + rendered + sub.positional;
    assert items[|front|..|front| + |rendered|] == rendered;
    assert items[|front| + |rendered|..] == sub.positional;
    if p.kind == Binary { assert items[1..|front|] == front[1..] == p.fixedArgs; }
  }

  lemma OneMoreItem(items: seq<string>, templates: seq<string>, i: nat, values: map<string, string>, item: string)
    requires i < |templates| && RenderedAll(items, templates[..i], values) && RenderedItem(item, templates[i], values)
    ensures RenderedAll(items + [item], templates[..i + 1], values)
  {
    assert templates[..i + 1] == templates[..i] + [templates[i]];
  }

  /** Rendering succeeds exactly when every template does. Then the argv is the fixed front, one element
      per template with all its placeholders replaced at once, and the positional values as they are; no
      element that comes from a template has a brace. */
  method Render(p: Profile, sub: Submission) returns (r: Argv)
    ensures r.WrongKind? <==> p.kind == Http
    ensures r.Argv? <==> p.kind != Http && forall t :: t in p.argsRender ==> Renders(t, Defaults(p.args) + sub.args)
    ensures r.Argv? ==> p.kind != Http && Complete(p, sub, r.items)
  {
    if p.kind == Http {
      return WrongKind;
    }
    var argv := Front(p, sub);
    ghost var front, rendered: seq<string> := argv, [];
    var values := RenderValues(p, sub);
    for i := 0 to |p.argsRender|
      invariant argv == front + rendered && RenderedAll(rendered, p.argsRender[..i], values)
    {
      var item := RenderArgItem(p.argsRender[i], values);
      RendersIff(p.argsRender[i], values);
      if !item.Ok? {
        assert p.argsRender[i] in p.argsRender;
        return Unrendered(i);
      }
      OneMoreItem(rendered, p.argsRender, i, values, item.text);
      argv := argv + [item.text];
      rendered := rendered + [item.text];
    }
    assert p.argsRender[..|p.argsRender|] == p.argsRender;
    CompleteIs(p, sub, rendered);
    forall t | t in p.argsRender ensures Renders(t, values) {
      var k :| 0 <= k < |p.argsRender| && p.argsRender[k] == t;
      assert RenderedItem(rendered[k], p.argsRender[k], values);
    }
    r := Argv(argv + sub.positional);
  }

  lemma RendersIff(t: string, values: map<string, string>)
    ensures Renders(t, values) <==>
            (forall m :: m in FindAll(t) ==> Usable(values, m)) && !HasBrace(Substitute(t, values))
  {
    if forall m :: m in FindAll(t) ==> Usable(values, m) { SurvivingBraces(t, values); }
  }

  /** With distinct names a value is the payload's, or else the declared default. */
  lemma {:induction false} ValueOf(args: seq<Argument>, given: map<string, string>, i: nat)
    requires i < |args| && forall j, k :: 0 <= j < k < |args| ==> args[j].name != args[k].name
    ensures var values, name := Defaults(args) + given, args[i].name;
      && (name in values <==> name in given || args[i].default != "")
      && (name in values ==> values[name] == if name in given then given[name] else args[i].default)
    decreases |args|
  {
    var front := args[..|args| - 1];
    if i < |front| {
      ValueOf(front, given, i);
    } else {
      NoDefault(front, args[i].name);
    }
  }

  lemma {:induction false} NoDefault(args: seq<Argument>, name: string)
    requires forall i :: 0 <= i < |args| ==> args[i].name != name
    ensures name !in Defaults(args)
    decreases |args|
  {
    if args != [] { NoDefault(args[..|args| - 1], name); }
  }
}
