/** Sets of numbers in increasing order: page numbers and versions as ordered keys. */
module NatOrder {

  predicate IsLeast(k: nat, s: set<nat>) {
    k in s && forall y :: y in s ==> k <= y
  }

  lemma {:induction false} HasLeast(s: set<nat>)
    requires s != {}
    ensures exists k :: IsLeast(k, s)
    decreases |s|
  {
    var x :| x in s;
    if s == {x} {
      assert IsLeast(x, s);
    } else {
      HasLeast(s - {x});
      var m :| IsLeast(m, s - {x});
      assert forall y :: y in s ==> y == x || y in s - {x};
      assert IsLeast(if x < m then x else m, s);
    }
  }

  function LeastOf(s: set<nat>): (k: nat)
    requires s != {}
    ensures IsLeast(k, s)
  {
    HasLeast(s);
    var k :| IsLeast(k, s);
    k
  }

  /** The keys in increasing order. */
  function Ascending(s: set<nat>): (r: seq<nat>)
    ensures forall k :: k in r <==> k in s
    decreases |s|
  {
    if s == {} then []
    else
      var k := LeastOf(s);
      [k] + Ascending(s - {k})
  }

  predicate Increasing(s: seq<nat>) {
    forall i, j :: 0 <= i < j < |s| ==> s[i] < s[j]
  }

  lemma ConsIncreases(k: nat, rest: seq<nat>)
    requires Increasing(rest) && forall x :: x in rest ==> k < x
    ensures Increasing([k] + rest)
  {
    var all := [k] + rest;
    forall i, j | 0 <= i < j < |all| ensures all[i] < all[j] {
      assert all[j] == rest[j - 1] && rest[j - 1] in rest;
    }
  }

  lemma {:induction false} AscendingIncreases(s: set<nat>)
    ensures Increasing(Ascending(s))
    decreases |s|
  {
    if s != {} {
      var k := LeastOf(s);
      AscendingIncreases(s - {k});
      ConsIncreases(k, Ascending(s - {k}));
    }
  }

  /** An increasing sequence is determined by its elements. */
  lemma {:induction false} IncreasingUnique(a: seq<nat>, b: seq<nat>)
    requires Increasing(a) && Increasing(b)
    requires forall k: nat :: k in a <==> k in b
    ensures a == b
  {
    assert a != [] ==> a[0] in b;
    assert b != [] ==> b[0] in a;
    if a != [] && b != [] {
      assert a[0] == b[0];
      forall k: nat ensures k in a[1..] <==> k in b[1..] {
        assert k in a <==> k == a[0] || k in a[1..];
        assert k in b <==> k == b[0] || k in b[1..];
      }
      IncreasingUnique(a[1..], b[1..]);
      assert a == [a[0]] + a[1..] && b == [b[0]] + b[1..];
    }
  }

  /** The ordered keys of a set are any increasing sequence of its elements. */
  lemma AscendingIs(keys: set<nat>, s: seq<nat>)
    requires Increasing(s) && forall k: nat :: k in s <==> k in keys
    ensures Ascending(keys) == s
  {
    AscendingIncreases(keys);
    IncreasingUnique(Ascending(keys), s);
  }
}
