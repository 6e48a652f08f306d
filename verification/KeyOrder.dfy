/**
 The order of keys. `BTreeMap<String, _>` and the ordered key-value store both iterate their keys in
 byte-lexicographic order, which for UTF-8 is the lexicographic order of the characters.
 */
module KeyOrder {

  predicate Le(a: string, b: string) {
    a == [] || (b != [] && (a[0] < b[0] || (a[0] == b[0] && Le(a[1..], b[1..]))))
  }

  predicate Lt(a: string, b: string) {
    a != b && Le(a, b)
  }

  lemma {:induction false} LeReflexive(a: string)
    ensures Le(a, a)
  {
    if a != [] {
      LeReflexive(a[1..]);
    }
  }

  lemma {:induction false} LeTotal(a: string, b: string)
    ensures Le(a, b) || Le(b, a)
  {
    if a != [] && b != [] {
      LeTotal(a[1..], b[1..]);
    }
  }

  lemma {:induction false} LeAntisymmetric(a: string, b: string)
    requires Le(a, b) && Le(b, a)
    ensures a == b
  {
    if a != [] && b != [] {
      LeAntisymmetric(a[1..], b[1..]);
      assert a == [a[0]] + a[1..] && b == [b[0]] + b[1..];
    }
  }

  lemma {:induction false} LeTransitive(a: string, b: string, c: string)
    requires Le(a, b) && Le(b, c)
    ensures Le(a, c)
  {
    if a != [] && b != [] && c != [] && a[0] == b[0] == c[0] {
      LeTransitive(a[1..], b[1..], c[1..]);
    }
  }

  /** A string comes before everything it is a prefix of. */
  lemma {:induction false} PrefixLe(p: string, s: string)
    requires p <= s
    ensures Le(p, s)
  {
    if p != [] {
      PrefixLe(p[1..], s[1..]);
    }
  }

  /** The strings with a given prefix are contiguous in key order: this is what lets a scan that starts at
      the prefix stop at the first key without it. */
  lemma {:induction false} PrefixConvex(p: string, q: string, s: string)
    requires p <= s && Le(p, q) && Le(q, s)
    ensures p <= q
  {
    if p != [] {
      assert p[0] == s[0] && q[0] == p[0];
      PrefixConvex(p[1..], q[1..], s[1..]);
      assert p == [p[0]] + p[1..] && q == [q[0]] + q[1..];
    }
  }

  /** Extending both sides by a common prefix does not change the order. */
  lemma {:induction false} LeAppend(p: string, a: string, b: string)
    ensures Le(p + a, p + b) == Le(a, b)
  {
    if p == [] {
      assert p + a == a && p + b == b;
    } else {
      assert (p + a)[1..] == p[1..] + a && (p + b)[1..] == p[1..] + b;
      LeAppend(p[1..], a, b);
    }
  }

  // ---- sorted key sequences ----

  predicate Increasing(s: seq<string>) {
    forall i, j :: 0 <= i < j < |s| ==> Lt(s[i], s[j])
  }

  predicate IsLeast(k: string, keys: set<string>) {
    k in keys && forall y :: y in keys ==> Le(k, y)
  }

  lemma {:induction false} HasLeast(keys: set<string>)
    requires keys != {}
    ensures exists k :: IsLeast(k, keys)
    decreases |keys|
  {
    var x :| x in keys;
    var rest := keys - {x};
    LeReflexive(x);
    if rest == {} {
      assert keys == {x};
      assert IsLeast(x, keys);
    } else {
      HasLeast(rest);
      var m :| IsLeast(m, rest);
      LeTotal(x, m);
      if Le(x, m) {
        forall y | y in rest ensures Le(x, y) {
          LeTransitive(x, m, y);
        }
        assert IsLeast(x, keys);
      } else {
        assert IsLeast(m, keys);
      }
    }
  }

  function Least(keys: set<string>): (k: string)
    requires keys != {}
    ensures IsLeast(k, keys)
  {
    HasLeast(keys);
    assert forall a, b :: IsLeast(a, keys) && IsLeast(b, keys) ==> a == b by {
      forall a, b | IsLeast(a, keys) && IsLeast(b, keys) ensures a == b {
        LeAntisymmetric(a, b);
      }
    }
    var k :| IsLeast(k, keys);
    k
  }

  /** The keys of an ordered map in iteration order: each key once, strictly increasing. */
  function SortedKeys(keys: set<string>): (r: seq<string>)
    ensures Increasing(r)
    ensures forall k :: k in r <==> k in keys
    ensures |r| == |keys|
    decreases |keys|
  {
    if keys == {} then []
    else
      var m := Least(keys);
      var rest := SortedKeys(keys - {m});
      assert forall i :: 0 <= i < |rest| ==> rest[i] in keys - {m};
      [m] + rest
  }

  lemma IncreasingTail(s: seq<string>)
    requires Increasing(s) && s != []
    ensures Increasing(s[1..])
    ensures s[0] !in s[1..]
  {
  }

  /** An increasing sequence is determined by its elements. */
  lemma {:induction false} IncreasingUnique(a: seq<string>, b: seq<string>)
    requires Increasing(a) && Increasing(b)
    requires forall k :: k in a <==> k in b
    ensures a == b
  {
    assert a != [] ==> a[0] in b;
    assert b != [] ==> b[0] in a;
    if a != [] && b != [] {
      if a[0] != b[0] {
        LeAntisymmetric(a[0], b[0]);
      }
      IncreasingTail(a);
      IncreasingTail(b);
      forall k ensures k in a[1..] <==> k in b[1..] {
        assert k in a <==> k == a[0] || k in a[1..];
        assert k in b <==> k == b[0] || k in b[1..];
      }
      IncreasingUnique(a[1..], b[1..]);
      assert a == [a[0]] + a[1..] && b == [b[0]] + b[1..];
    }
  }

  function KeySet(s: seq<string>): (r: set<string>)
    ensures forall k :: k in r <==> k in s
  {
    set k | k in s
  }

  lemma {:induction false} DistinctCount(s: seq<string>)
    requires Increasing(s)
    ensures |KeySet(s)| == |s|
  {
    if s == [] {
      assert KeySet(s) == {};
    } else {
      IncreasingTail(s);
      DistinctCount(s[1..]);
      assert KeySet(s) == {s[0]} + KeySet(s[1..]);
    }
  }

  /** The first keys of a sorted sequence are those not above the last of them. */
  lemma SortedPrefix(all: seq<string>, n: nat, k: string)
    requires Increasing(all) && 0 < n <= |all| && k in all
    ensures k in all[..n] <==> Le(k, all[n - 1])
  {
    var i :| 0 <= i < |all| && all[i] == k;
    LeReflexive(k);
    if i < n {
      assert all[..n][i] == k;
    } else {
      assert Lt(all[n - 1], all[i]);
      if Le(k, all[n - 1]) { LeAntisymmetric(k, all[n - 1]); }
    }
  }

  /** `range(from..)` of an ordered map: the keys not before `from`, in order. */
  function KeysFrom(keys: set<string>, from: string): seq<string> {
    SortedKeys(set k | k in keys && Le(from, k))
  }

  /** The keys that start with `prefix`, in order. */
  function KeysUnder(keys: set<string>, prefix: string): seq<string> {
    SortedKeys(set k | k in keys && prefix <= k)
  }

  /** Nothing with the prefix lies behind the first key without it. */
  lemma NoPrefixBehind(prefix: string, candidates: seq<string>, i: nat, k: string)
    requires Increasing(candidates) && i < |candidates|
    requires Le(prefix, candidates[i]) && !(prefix <= candidates[i])
    requires k in candidates[i..]
    ensures !(prefix <= k)
  {
    var j :| i <= j < |candidates| && candidates[j] == k;
    if prefix <= k {
      assert Le(candidates[i], k);
      PrefixConvex(prefix, candidates[i], k);
      assert false;
    }
  }

  /** Whatever carries the prefix is in the run. */
  lemma RunHolds(keys: set<string>, prefix: string, i: nat, k: string)
    requires i <= |KeysFrom(keys, prefix)| && k in keys && prefix <= k
    requires i < |KeysFrom(keys, prefix)| ==> !(prefix <= KeysFrom(keys, prefix)[i])
    ensures k in KeysFrom(keys, prefix)[..i]
  {
    var candidates := KeysFrom(keys, prefix);
    PrefixLe(prefix, k);
    assert k in candidates;
    assert candidates == candidates[..i] + candidates[i..];
    if k in candidates[i..] {
      assert candidates[i] in candidates;
      NoPrefixBehind(prefix, candidates, i, k);
    }
  }

  /** A maximal run of prefixed keys at the front of the range holds all of them. */
  lemma RunIsKeysUnder(keys: set<string>, prefix: string, i: nat)
    requires i <= |KeysFrom(keys, prefix)|
    requires forall k :: k in KeysFrom(keys, prefix)[..i] ==> prefix <= k
    requires i < |KeysFrom(keys, prefix)| ==> !(prefix <= KeysFrom(keys, prefix)[i])
    ensures KeysFrom(keys, prefix)[..i] == KeysUnder(keys, prefix)
  {
    var found := KeysFrom(keys, prefix)[..i];
    forall k | k in found ensures k in KeysUnder(keys, prefix) {
      assert k in KeysFrom(keys, prefix);
    }
    forall k | k in KeysUnder(keys, prefix) ensures k in found {
      RunHolds(keys, prefix, i, k);
    }
    IncreasingUnique(found, KeysUnder(keys, prefix));
  }

  /** `range(prefix..).take_while(starts_with(prefix))` finds exactly the keys with the prefix, in order. */
  method TakePrefix(keys: set<string>, prefix: string) returns (found: seq<string>)
    ensures found == KeysUnder(keys, prefix)
  {
    var candidates := KeysFrom(keys, prefix);
    found := [];
    var i := 0;
    while i < |candidates| && prefix <= candidates[i]
      invariant 0 <= i <= |candidates|
      invariant found == candidates[..i]
      invariant forall k :: k in found ==> prefix <= k
    {
      found := found + [candidates[i]];
      i := i + 1;
    }
    RunIsKeysUnder(keys, prefix, i);
  }
}
