/** The few string operations the configuration code relies on (Go's strings and strconv packages). */
module Texts {

  /** Splits at the first separator. */
  function Cut(s: string, sep: char): (r: (string, string, bool))
    ensures r.2 <==> sep in s
    ensures s == if r.2 then r.0 + [sep] + r.1 else r.0
    ensures sep !in r.0 && (!r.2 ==> r.1 == "")
  {
    if s == "" then ("", "", false)
    else if s[0] == sep then ("", s[1..], true)
    else
      var rest := Cut(s[1..], sep);
      ([s[0]] + rest.0, rest.1, rest.2)
  }

  lemma {:induction false} CutOfJoin(before: string, sep: char, after: string)
    requires sep !in before
    ensures Cut(before + [sep] + after, sep) == (before, after, true)
    decreases |before|
  {
    var whole := before + [sep] + after;
    if before == "" {
      assert whole[0] == sep && whole[1..] == after;
    } else {
      assert whole[0] == before[0] && whole[1..] == before[1..] + [sep] + after;
      CutOfJoin(before[1..], sep, after);
      assert [before[0]] + before[1..] == before;
    }
  }

  /** A character of a profile name or of a placeholder. */
  predicate NameChar(c: char) {
    'A' <= c <= 'Z' || 'a' <= c <= 'z' || '0' <= c <= '9' || c == '_' || c == '-'
  }

  /** Unicode white space, as Go's unicode.IsSpace has it. */
  predicate IsSpace(c: char) {
    '\t' <= c <= '\r' || c == ' ' || c == '\U{85}' || c == '\U{A0}' || c == '\U{1680}'
    || '\U{2000}' <= c <= '\U{200A}' || c == '\U{2028}' || c == '\U{2029}' || c == '\U{202F}'
    || c == '\U{205F}' || c == '\U{3000}'
  }

  predicate Trimmed(s: string) {
    s == "" || (!IsSpace(s[0]) && !IsSpace(s[|s| - 1]))
  }

  function FirstInk(s: string, i: nat): (r: nat)
    requires i <= |s|
    ensures i <= r <= |s| && (r < |s| ==> !IsSpace(s[r])) && forall k :: i <= k < r ==> IsSpace(s[k])
    decreases |s| - i
  {
    if i < |s| && IsSpace(s[i]) then FirstInk(s, i + 1) else i
  }

  function LastInk(s: string, i: nat, j: nat): (r: nat)
    requires i <= j <= |s|
    ensures i <= r <= j && (i < r ==> !IsSpace(s[r - 1])) && forall k :: r <= k < j ==> IsSpace(s[k])
  {
    if i < j && IsSpace(s[j - 1]) then LastInk(s, i, j - 1) else j
  }

  /** Strips the white space at both ends. */
  function Trim(s: string): (r: string)
    ensures Trimmed(r) && (Trimmed(s) ==> r == s)
  {
    var first := FirstInk(s, 0);
    s[first..LastInk(s, first, |s|)]
  }

  /** Nothing but white space is stripped. */
  lemma TrimStrips(s: string) returns (i: nat, j: nat)
    ensures i <= j <= |s| && Trim(s) == s[i..j] && Trimmed(s[i..j])
    ensures forall k :: 0 <= k < i || j <= k < |s| ==> IsSpace(s[k])
  {
    i := FirstInk(s, 0);
    j := LastInk(s, i, |s|);
  }

  function Digit(n: nat): (c: char)
    requires n < 10
    ensures '0' <= c <= '9'
  {
    '0' + (n as char)
  }

  function Decimal(n: nat): (r: string)
    ensures r != "" && '.' !in r
  {
    if n < 10 then [Digit(n)] else Decimal(n / 10) + [Digit(n % 10)]
  }

  lemma {:induction false} DecimalInjective(m: nat, n: nat)
    requires Decimal(m) == Decimal(n)
    ensures m == n
  {
    if m < 10 && n < 10 {
      assert Decimal(m)[0] == Decimal(n)[0];
    } else if m < 10 || n < 10 {
      assert false;
    } else {
      var a, b := Decimal(m / 10), Decimal(n / 10);
      assert (a + [Digit(m % 10)])[|a|] == (b + [Digit(n % 10)])[|b|];
      assert a == (a + [Digit(m % 10)])[..|a|] == (b + [Digit(n % 10)])[..|b|] == b;
      DecimalInjective(m / 10, n / 10);
    }
  }
}
