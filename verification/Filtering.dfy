/** Order-preserving selection, and what a prefix of it keeps. */
module Filtering {

  function Filter<T>(s: seq<T>, p: T -> bool): seq<T> {
    if s == [] then [] else (if p(s[0]) then [s[0]] else []) + Filter(s[1..], p)
  }

  /** The first `n` elements; none when `n` is negative. */
  function Take<T>(s: seq<T>, n: int): seq<T> {
    if n <= 0 then [] else if n >= |s| then s else s[..n]
  }

  lemma {:induction false} FilterMembers<T>(s: seq<T>, p: T -> bool)
    ensures forall x :: x in Filter(s, p) <==> x in s && p(x)
  {
    if s != [] {
      FilterMembers(s[1..], p);
      assert forall x :: x in s <==> x == s[0] || x in s[1..];
    }
  }

  lemma {:induction false} FilterAgrees<T>(s: seq<T>, p: T -> bool, q: T -> bool)
    requires forall x :: x in s ==> p(x) == q(x)
    ensures Filter(s, p) == Filter(s, q)
  {
    if s != [] {
      FilterAgrees(s[1..], p, q);
    }
  }

  lemma {:induction false} FilterTwice<T(!new)>(s: seq<T>, p: T -> bool, q: T -> bool, both: T -> bool)
    requires forall x :: both(x) == (p(x) && q(x))
    ensures Filter(Filter(s, p), q) == Filter(s, both)
  {
    if s != [] {
      FilterTwice(s[1..], p, q, both);
      var rest := Filter(s[1..], p);
      if p(s[0]) {
        assert ([s[0]] + rest)[1..] == rest;
      } else {
        assert [] + rest == rest;
      }
    }
  }

  /** Selection keeps the order: a selected element comes before those selected from behind it. */
  lemma {:induction false} FilterKeepsOrder<T>(s: seq<T>, p: T -> bool, k: nat, i: nat, j: nat)
    requires i < j < |s| && p(s[i]) && k <= |Filter(s, p)| && s[j] in Filter(s, p)[..k]
    requires forall m, n :: 0 <= m < n < |s| ==> s[m] != s[n]
    ensures s[i] in Filter(s, p)[..k]
  {
    var rest := Filter(s[1..], p);
    if i == 0 {
      assert Filter(s, p)[..k][0] == s[0];
    } else {
      var n := if p(s[0]) then k - 1 else k;
      if p(s[0]) {
        assert Filter(s, p)[..k] == [s[0]] + rest[..n];
      } else {
        assert Filter(s, p) == rest;
      }
      FilterKeepsOrder(s[1..], p, n, i - 1, j - 1);
    }
  }
}
