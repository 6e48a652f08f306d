/** Values shared by every module: optional values, fallible results, bytes and map lookup. */
module Prelude {

  datatype Option<+T> = None | Some(value: T)

  datatype Result<+T, +E> = Ok(value: T) | Err(error: E)

  type byte = x: int | 0 <= x < 256

  type Bytes = seq<byte>

  /** Optional lookup, as `BTreeMap::get` and `HashMap::get` return it. */
  function Get<K, V>(m: map<K, V>, k: K): Option<V> {
    if k in m then Some(m[k]) else None
  }

  /** Two maps that answer every lookup alike are the same map. */
  lemma GetExtensional<K, V>(a: map<K, V>, b: map<K, V>)
    requires forall k :: Get(a, k) == Get(b, k)
    ensures a == b
  {
    forall k ensures k in a <==> k in b {
      assert Get(a, k) == Get(b, k);
    }
    forall k | k in a ensures a[k] == b[k] {
      assert Get(a, k) == Get(b, k);
    }
  }

  function Max(a: int, b: int): int { if a < b then b else a }

  function Min(a: int, b: int): int { if a < b then a else b }

  /** Concatenation of a sequence of sequences, in order. */
  function Flatten<T>(xs: seq<seq<T>>): seq<T> {
    if xs == [] then [] else Flatten(xs[..|xs| - 1]) + xs[|xs| - 1]
  }

  lemma {:induction false} FlattenConcat<T>(a: seq<seq<T>>, b: seq<seq<T>>)
    ensures Flatten(a + b) == Flatten(a) + Flatten(b)
    decreases |b|
  {
    if b == [] {
      assert a + b == a;
    } else {
      var n := |b| - 1;
      assert (a + b)[..|a + b| - 1] == a + b[..n];
      FlattenConcat(a, b[..n]);
    }
  }

  lemma ConcatAssociates<T>(a: seq<T>, b: seq<T>, c: seq<T>)
    ensures a + (b + c) == (a + b) + c
  {
  }

  function Zeros(n: nat): (r: Bytes)
    ensures |r| == n && forall i :: 0 <= i < n ==> r[i] == 0
  {
    seq(n, _ => 0)
  }

  // ---- the store's limits on a batch ----

  const MAX_BATCH_RECORDS: nat := 1000
  const MAX_RECORD_BYTES: nat := 0x10_0000

  /** `sizeOf` is the length of an event's encoded data. */
  predicate BatchFits<T>(sizeOf: T -> nat, events: seq<T>) {
    |events| <= MAX_BATCH_RECORDS && forall i :: 0 <= i < |events| ==> sizeOf(events[i]) <= MAX_RECORD_BYTES
  }
}
