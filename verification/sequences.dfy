/** What the other modules need of sequences. */
module Sequences {

  lemma Associative<T>(a: seq<T>, b: seq<T>, c: seq<T>)
    ensures a + b + c == a + (b + c)
  {
  }

  predicate Distinct<T(==)>(s: seq<T>) {
    forall i, j :: 0 <= i < j < |s| ==> s[i] != s[j]
  }

  /** The elements with a property, in order. */
  function Only<T>(s: seq<T>, p: T -> bool): seq<T> {
    if s == [] then [] else (if p(s[0]) then [s[0]] else []) + Only(s[1..], p)
  }

  lemma OnlyCons<T>(x: T, s: seq<T>, p: T -> bool)
    ensures Only([x] + s, p) == (if p(x) then [x] else []) + Only(s, p)
  {
    assert ([x] + s)[1..] == s;
  }

  lemma {:induction false} OnlyConcat<T>(a: seq<T>, b: seq<T>, p: T -> bool)
    ensures Only(a + b, p) == Only(a, p) + Only(b, p)
  {
    if a == [] {
      assert a + b == b;
    } else {
      OnlyConcat(a[1..], b, p);
      assert (a + b)[1..] == a[1..] + b;
      Associative(if p(a[0]) then [a[0]] else [], Only(a[1..], p), Only(b, p));
    }
  }

  lemma {:induction false} OnlyNone<T>(s: seq<T>, p: T -> bool)
    requires forall x :: x in s ==> !p(x)
    ensures Only(s, p) == []
  {
    if s != [] {
      OnlyNone(s[1..], p);
    }
  }
}
