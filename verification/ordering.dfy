/** Lexicographic order on strings and sorting by a strict total order, as Go's sort package gives them. */
module Ordering {

  /** Strict lexicographic order. */
  predicate Before(a: string, b: string) {
    if b == "" then false
    else if a == "" then true
    else a[0] < b[0] || (a[0] == b[0] && Before(a[1..], b[1..]))
  }

  /** The first place where two strings differ decides, or else the shorter one comes first. */
  lemma {:induction false} BeforeIs(a: string, b: string, n: nat)
    requires n <= |a| && n <= |b| && a[..n] == b[..n]
    ensures n == |a| ==> (Before(a, b) <==> n < |b|)
    ensures n == |b| ==> !Before(a, b)
    ensures n < |a| && n < |b| && a[n] != b[n] ==> (Before(a, b) <==> a[n] < b[n])
    decreases n
  {
    if n > 0 {
      assert a[0] == a[..n][0] == b[..n][0] == b[0];
      assert a[1..][..n - 1] == a[..n][1..] && b[1..][..n - 1] == b[..n][1..];
      BeforeIs(a[1..], b[1..], n - 1);
    }
  }

  lemma {:induction false} BeforeIrreflexive(a: string)
    ensures !Before(a, a)
  {
    if a != "" { BeforeIrreflexive(a[1..]); }
  }

  lemma {:induction false} BeforeTransitive(a: string, b: string, c: string)
    requires Before(a, b) && Before(b, c)
    ensures Before(a, c)
  {
    if a != "" && a[0] == b[0] == c[0] { BeforeTransitive(a[1..], b[1..], c[1..]); }
  }

  lemma {:induction false} BeforeTotal(a: string, b: string)
    ensures a == b || Before(a, b) || Before(b, a)
  {
    if a != "" && b != "" && a[0] == b[0] {
      BeforeTotal(a[1..], b[1..]);
      assert a[1..] == b[1..] ==> [a[0]] + a[1..] == [b[0]] + b[1..];
    }
  }

  ghost predicate StrictTotal<T(!new)>(before: (T, T) -> bool, items: set<T>) {
    && (forall a :: a in items ==> !before(a, a))
    && (forall a, b :: a in items && b in items && a != b ==> before(a, b) || before(b, a))
    && (forall a, b, c :: a in items && b in items && c in items && before(a, b) && before(b, c) ==> before(a, c))
  }

  ghost predicate SortedBy<T(!new)>(before: (T, T) -> bool, s: seq<T>) {
    forall i, j :: 0 <= i < j < |s| ==> before(s[i], s[j])
  }

  lemma StringsStrictTotal(items: set<string>)
    ensures StrictTotal(Before, items)
  {
    forall a, b, c ensures !Before(a, a) && (a == b || Before(a, b) || Before(b, a))
                           && (Before(a, b) && Before(b, c) ==> Before(a, c))
    {
      BeforeIrreflexive(a);
      BeforeTotal(a, b);
      if Before(a, b) && Before(b, c) { BeforeTransitive(a, b, c); }
    }
  }

  ghost predicate IsFirst<T(!new)>(before: (T, T) -> bool, items: set<T>, a: T) {
    a in items && forall b :: b in items && b != a ==> before(a, b)
  }

  lemma FirstOfMore<T(!new)>(before: (T, T) -> bool, items: set<T>, x: T, a: T)
    requires StrictTotal(before, items) && x in items && IsFirst(before, items - {x}, a)
    ensures IsFirst(before, items, if before(x, a) then x else a)
  {
    if before(x, a) {
      forall b | b in items && b != x ensures before(x, b) {
        assert b == a || before(a, b);
      }
    }
  }

  lemma {:induction false} FirstExists<T(!new)>(before: (T, T) -> bool, items: set<T>)
    requires StrictTotal(before, items) && items != {}
    ensures exists a :: IsFirst(before, items, a)
    decreases |items|
  {
    var x :| x in items;
    var rest := items - {x};
    if rest == {} {
      assert items == {x};
      assert IsFirst(before, items, x);
    } else {
      FirstExists(before, rest);
      var a :| IsFirst(before, rest, a);
      FirstOfMore(before, items, x, a);
    }
  }

  /** The elements of a finite set in ascending order. */
  method SortBy<T(!new,==)>(before: (T, T) -> bool, items: set<T>) returns (s: seq<T>)
    requires StrictTotal(before, items)
    ensures SortedBy(before, s) && |s| == |items|
    ensures forall x :: x in s <==> x in items
  {
    s := [];
    var rest := items;
    while rest != {}
      invariant rest <= items && |s| + |rest| == |items|
      invariant SortedBy(before, s)
      invariant forall x :: x in s <==> x in items - rest
      invariant forall x, y :: x in s && y in rest ==> before(x, y)
      decreases |rest|
    {
      FirstExists(before, rest);
      assert exists a :: a in rest && forall b :: b in rest && b != a ==> before(a, b) by {
        ghost var a :| IsFirst(before, rest, a);
      }
      var a :| a in rest && forall b :: b in rest && b != a ==> before(a, b);
      s := s + [a];
      rest := rest - {a};
    }
  }

  ghost predicate Listing(keys: seq<string>, items: set<string>) {
    SortedBy(Before, keys) && forall k :: k in keys <==> k in items
  }

  function Elements(keys: seq<string>): set<string> {
    set k | k in keys
  }

  method SortStrings(items: set<string>) returns (s: seq<string>)
    ensures SortedBy(Before, s) && |s| == |items|
    ensures forall x :: x in s <==> x in items
  {
    StringsStrictTotal(items);
    s := SortBy(Before, items);
  }

  /** A set has only one sorted listing. */
  lemma {:induction false} SortedUnique<T(!new)>(before: (T, T) -> bool, items: set<T>, s: seq<T>, t: seq<T>)
    requires StrictTotal(before, items) && SortedBy(before, s) && SortedBy(before, t)
    requires forall x :: x in s <==> x in items
    requires forall x :: x in t <==> x in items
    ensures s == t
    decreases |s|
  {
    assert |t| == 0 || t[0] in t;
    if s == [] {
      assert t == [];
    } else {
      assert s[0] in t && t[0] in s;
      assert s[0] == t[0];
      var rest := items - {s[0]};
      forall x ensures x in s[1..] <==> x in rest { TailMembers(before, items, s, x); }
      forall x ensures x in t[1..] <==> x in rest { TailMembers(before, items, t, x); }
      SortedUnique(before, rest, s[1..], t[1..]);
    }
  }

  lemma TailMembers<T(!new)>(before: (T, T) -> bool, items: set<T>, s: seq<T>, x: T)
    requires StrictTotal(before, items) && SortedBy(before, s) && s != []
    requires forall y :: y in s <==> y in items
    ensures x in s[1..] <==> x in items - {s[0]}
  {
    assert s == [s[0]] + s[1..];
    if x in s[1..] {
      var i :| 0 <= i < |s[1..]| && s[1..][i] == x;
      assert before(s[0], s[i + 1]);
    }
  }

  lemma {:induction false} ListingSize(keys: seq<string>, items: set<string>)
    requires Listing(keys, items)
    ensures |keys| == |items|
    decreases |keys|
  {
    if keys == [] {
      assert items == {};
    } else {
      StringsStrictTotal(items);
      forall x ensures x in keys[1..] <==> x in items - {keys[0]} { TailMembers(Before, items, keys, x); }
      ListingSize(keys[1..], items - {keys[0]});
    }
  }
}
