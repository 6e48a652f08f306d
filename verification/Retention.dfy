/** Ordered keys as indexes: the chunked purge of a version window and the search by timestamp. */
module Retention {
  import opened Prelude
  import opened KeyOrder
  import opened Keys
  import ForkHistory
  import ForkReads

  // ---- keys and the numbers they end in ----

  lemma {:induction false} ParsePads(s: string)
    requires AllDigits(s)
    ensures Parse(s) < Pow10(|s|) && Pad(Parse(s), |s|) == s
  {
    if s != "" {
      var n := |s| - 1;
      assert AllDigits(s[..n]);
      ParsePads(s[..n]);
      assert Parse(s) / 10 == Parse(s[..n]) && Parse(s) % 10 == DigitValue(s[n]);
      assert s == s[..n] + [s[n]];
    }
  }

  function RecordPrefix(stream: string): string { "r/" + stream + "/" }

  /** A record key of the stream: its prefix and 16 digits. */
  predicate IsRecord(key: string, prefix: string) {
    prefix <= key && |key| == |prefix| + WIDTH && AllDigits(key[|prefix|..])
  }

  /** Reads the version back from the last 16 characters of a key. */
  function VersionOf(key: string, prefix: string): nat
    requires IsRecord(key, prefix)
  {
    assert key[|key| - WIDTH..] == key[|prefix|..];
    Parse(key[|key| - WIDTH..])
  }

  function RecordKey(prefix: string, v: nat): string { prefix + Key16(v) }

  lemma RecordKeyVersion(prefix: string, v: nat)
    requires v < Pow10(WIDTH)
    ensures IsRecord(RecordKey(prefix, v), prefix) && VersionOf(RecordKey(prefix, v), prefix) == v
  {
    PadParses(v, WIDTH);
    var key := RecordKey(prefix, v);
    assert key[|prefix|..] == Pad(v, WIDTH);
    assert key[|key| - WIDTH..] == Pad(v, WIDTH);
  }

  /** Record keys compare as their versions do. */
  lemma RecordOrder(a: string, b: string, prefix: string)
    requires IsRecord(a, prefix) && IsRecord(b, prefix)
    ensures Le(a, b) <==> VersionOf(a, prefix) <= VersionOf(b, prefix)
    ensures a == b <==> VersionOf(a, prefix) == VersionOf(b, prefix)
  {
    var x, y := a[|prefix|..], b[|prefix|..];
    assert a == prefix + x && b == prefix + y;
    assert a[|a| - WIDTH..] == x && b[|b| - WIDTH..] == y;
    ParsePads(x);
    ParsePads(y);
    LeAppend(prefix, x, y);
    PadOrder(Parse(x), Parse(y), WIDTH);
  }

  // ---- purge ----

  type Db = map<string, Bytes>

  /** Under a stream's record prefix there are only record keys: stream names hold no separator. */
  predicate WellKeyed(db: Db, prefix: string) {
    forall k :: k in db && prefix <= k ==> IsRecord(k, prefix)
  }

  predicate SlashFree(s: string) { forall i :: 0 <= i < |s| ==> s[i] != '/' }

  /** A record key of some stream, or a key of another family. */
  ghost predicate Built(k: string) {
    ("r/" <= k) ==> exists s, v: nat :: SlashFree(s) && v < Pow10(WIDTH) && k == RecordKey(RecordPrefix(s), v)
  }

  ghost predicate BuiltKeys(db: Db) { forall k :: k in db ==> Built(k) }

  /** What comes before the first separator. */
  function UpToSlash(s: string): string {
    if s == "" || s[0] == '/' then "" else [s[0]] + UpToSlash(s[1..])
  }

  lemma {:induction false} NameReadsBack(name: string, rest: string)
    requires SlashFree(name)
    ensures UpToSlash(name + ("/" + rest)) == name
  {
    var s := name + ("/" + rest);
    if name != "" {
      assert s[1..] == name[1..] + ("/" + rest);
      NameReadsBack(name[1..], rest);
    }
  }

  /** Names without a separator cannot be confused: a key under a stream's prefix, in a family of keys named by two
      characters, belongs to that stream. */
  lemma PrefixDecides(family: string, stream: string, s: string, rest: string)
    requires |family| == 2 && SlashFree(stream) && SlashFree(s) && family + stream + "/" <= family + s + "/" + rest
    ensures stream == s
  {
    var a, b := family + stream + "/", family + s + "/" + rest;
    var behind := b[|a|..];
    assert b == a + behind;
    assert b[2..] == stream + ("/" + behind);
    assert b[2..] == s + ("/" + rest);
    NameReadsBack(stream, behind);
    NameReadsBack(s, rest);
  }

  lemma BuiltIsWellKeyed(db: Db, stream: string)
    requires BuiltKeys(db) && SlashFree(stream)
    ensures WellKeyed(db, RecordPrefix(stream))
  {
    var prefix := RecordPrefix(stream);
    forall k | k in db && prefix <= k ensures IsRecord(k, prefix) {
      assert Built(k);
      assert "r/" <= k by { assert prefix[..2] == "r/"; }
      var s, v: nat :| SlashFree(s) && v < Pow10(WIDTH) && k == RecordKey(RecordPrefix(s), v);
      PrefixDecides("r/", stream, s, Key16(v));
      RecordKeyVersion(prefix, v);
    }
  }

  /** One past the highest pin of a live fork. */
  function PinFloor(forks: ForkHistory.Store, stream: string): nat {
    if stream in forks && ForkHistory.Ceiling(forks, stream).Some? then ForkHistory.Ceiling(forks, stream).value + 1
      else 0
  }

  /** Some fork of the stream that is not deleted was made at or above this version. */
  predicate PinnedByLiveFork(forks: ForkHistory.Store, stream: string, v: nat) {
    stream in forks && ForkReads.HeldByLiveFork(forks, stream, v)
  }

  /** A record of the stream, below the floor, that no live fork pins. */
  predicate Purgeable(forks: ForkHistory.Store, stream: string, floor: nat, k: string) {
    var prefix := RecordPrefix(stream);
    IsRecord(k, prefix) && VersionOf(k, prefix) < floor && !PinnedByLiveFork(forks, stream, VersionOf(k, prefix))
  }

  /** The floor separates what live forks pin from what they do not. */
  lemma PinFloorMeans(forks: ForkHistory.Store, stream: string, v: nat)
    ensures v < PinFloor(forks, stream) <==> PinnedByLiveFork(forks, stream, v)
  {
    if stream in forks {
      ForkHistory.CeilingIsMax(forks, stream);
      if ForkReads.HeldByLiveFork(forks, stream, v) {
        var child :| child in forks[stream].pins && (child in forks ==> !forks[child].deleted)
                     && v <= forks[stream].pins[child];
        assert ForkHistory.LivePin(forks, child);
      }
    }
  }

  method FloorOfPins(forks: ForkHistory.Store, stream: string) returns (n: nat)
    ensures n == PinFloor(forks, stream)
  {
    if stream !in forks {
      return 0;
    }
    var ceiling := ForkHistory.HighestPin(forks, stream);
    n := if ceiling.Some? then ceiling.value + 1 else 0;
  }

  /** The record keys of versions in `[lo, hi)`. */
  function Window(db: Db, prefix: string, lo: nat, hi: nat): set<string> {
    set k | k in db && IsRecord(k, prefix) && lo <= VersionOf(k, prefix) < hi
  }

  /** A scan of the prefix with its suffix range pushed down to the store. */
  function Scan(db: Db, prefix: string, lo: string, hi: string): seq<string> {
    SortedKeys(set k | k in db && prefix <= k && Le(lo, k[|prefix|..]) && Lt(k[|prefix|..], hi))
  }

  /** The pushed-down string range is the numeric range. */
  lemma ScanIsWindow(db: Db, prefix: string, lo: nat, hi: nat)
    requires WellKeyed(db, prefix) && lo < Pow10(WIDTH) && hi < Pow10(WIDTH)
    ensures Scan(db, prefix, Key16(lo), Key16(hi)) == SortedKeys(Window(db, prefix, lo, hi))
  {
    forall k | k in db && prefix <= k
      ensures Le(Key16(lo), k[|prefix|..]) && Lt(k[|prefix|..], Key16(hi)) <==> lo <= VersionOf(k, prefix) < hi
    {
      var s := k[|prefix|..];
      assert k[|k| - WIDTH..] == s;
      ParsePads(s);
      PadOrder(lo, Parse(s), WIDTH);
      PadOrder(Parse(s), hi, WIDTH);
    }
    assert (set k | k in db && prefix <= k && Le(Key16(lo), k[|prefix|..]) && Lt(k[|prefix|..], Key16(hi)))
        == Window(db, prefix, lo, hi);
  }

  lemma WindowMember(db: Db, prefix: string, lo: nat, hi: nat, k: string)
    requires k in SortedKeys(Window(db, prefix, lo, hi))
    ensures IsRecord(k, prefix) && lo <= VersionOf(k, prefix) < hi
  {
  }

  /** The first keys of a window, up to the version of the last of them, are a window of their own. */
  lemma {:induction false} ChunkIsWindow(db: Db, prefix: string, lo: nat, hi: nat, n: nat)
    requires 0 < n <= |SortedKeys(Window(db, prefix, lo, hi))|
    ensures var end := SortedKeys(Window(db, prefix, lo, hi))[n - 1];
            && IsRecord(end, prefix) && lo <= VersionOf(end, prefix) < hi
            && KeySet(SortedKeys(Window(db, prefix, lo, hi))[..n]) == Window(db, prefix, lo, VersionOf(end, prefix) + 1)
  {
    var all := SortedKeys(Window(db, prefix, lo, hi));
    var end := all[n - 1];
    assert end in all;
    WindowMember(db, prefix, lo, hi, end);
    var v := VersionOf(end, prefix);
    forall k ensures k in all[..n] <==> k in Window(db, prefix, lo, v + 1) {
      ChunkMember(db, prefix, lo, hi, n, all, k);
    }
    SameKeys(all[..n], Window(db, prefix, lo, v + 1));
  }

  lemma SameKeys(listed: seq<string>, keys: set<string>)
    requires forall k :: k in listed <==> k in keys
    ensures KeySet(listed) == keys
  {
  }

  lemma ChunkMember(db: Db, prefix: string, lo: nat, hi: nat, n: nat, all: seq<string>, k: string)
    requires all == SortedKeys(Window(db, prefix, lo, hi)) && 0 < n <= |all|
    requires IsRecord(all[n - 1], prefix) && VersionOf(all[n - 1], prefix) < hi
    ensures k in all[..n] <==> k in Window(db, prefix, lo, VersionOf(all[n - 1], prefix) + 1)
  {
    assert k in all[..n] ==> k in all;
    assert k in Window(db, prefix, lo, VersionOf(all[n - 1], prefix) + 1) ==> k in all;
    if k in all {
      WindowMember(db, prefix, lo, hi, k);
      RecordOrder(k, all[n - 1], prefix);
      SortedPrefix(all, n, k);
    }
  }

  lemma WindowsJoin(db: Db, prefix: string, a: nat, b: nat, c: nat)
    requires a <= b <= c
    ensures Window(db, prefix, a, c) == Window(db, prefix, a, b) + Window(db, prefix, b, c)
    ensures Window(db, prefix, a, b) !! Window(db, prefix, b, c)
    ensures Window(db - Window(db, prefix, a, b), prefix, b, c) == Window(db, prefix, b, c)
  {
  }

  /** Deleting two adjacent windows one after the other is deleting their union. */
  lemma DeleteJoins(before: Db, prefix: string, a: nat, b: nat, c: nat)
    requires a <= b <= c
    ensures var db := before - Window(before, prefix, a, b);
            && Window(db, prefix, b, c) == Window(before, prefix, b, c)
            && db - Window(db, prefix, b, c) == before - Window(before, prefix, a, c)
            && |Window(before, prefix, a, c)| == |Window(before, prefix, a, b)| + |Window(db, prefix, b, c)|
  {
    WindowsJoin(before, prefix, a, b, c);
  }

  const PURGE_CHUNK: nat := 1024

  /** The store's range scan: the records of the window, in version order. */
  method ScanRecords(db: Db, prefix: string, lo: nat, hi: nat) returns (found: seq<string>)
    requires WellKeyed(db, prefix) && lo < Pow10(WIDTH) && hi < Pow10(WIDTH)
    ensures found == SortedKeys(Window(db, prefix, lo, hi))
  {
    ScanIsWindow(db, prefix, lo, hi);
    found := Scan(db, prefix, Key16(lo), Key16(hi));
  }

  lemma ChunkCount(window: set<string>, n: nat)
    requires n <= |SortedKeys(window)|
    ensures |KeySet(SortedKeys(window)[..n])| == n
  {
    assert Increasing(SortedKeys(window)[..n]);
    DistinctCount(SortedKeys(window)[..n]);
  }

  /** Where a chunk of `n` keys ends. */
  function ChunkEnd(found: seq<string>, prefix: string, n: nat): nat
    requires 0 < n <= |found| && IsRecord(found[n - 1], prefix)
  {
    VersionOf(found[n - 1], prefix) + 1
  }

  lemma ChunkFacts(db: Db, prefix: string, lo: nat, hi: nat, n: nat, found: seq<string>)
    requires found == SortedKeys(Window(db, prefix, lo, hi)) && 0 < n <= |found|
    ensures IsRecord(found[n - 1], prefix) && lo < ChunkEnd(found, prefix, n) <= hi
    ensures KeySet(found[..n]) == Window(db, prefix, lo, ChunkEnd(found, prefix, n))
    ensures |Window(db, prefix, lo, ChunkEnd(found, prefix, n))| == n
  {
    ChunkIsWindow(db, prefix, lo, hi, n);
    ChunkCount(Window(db, prefix, lo, hi), n);
  }

  /** One bounded transaction of a purge: the first 1024 records of the window, or word that there are none. */
  method PurgeChunk(db: Db, prefix: string, next: nat, floor: nat) returns (db': Db, deleted: nat, next': nat)
    requires WellKeyed(db, prefix) && next < floor < Pow10(WIDTH)
    ensures next <= next' <= floor
    ensures next' == next ==> Window(db, prefix, next, floor) == {}
    ensures db' == db - Window(db, prefix, next, next')
    ensures deleted == |Window(db, prefix, next, next')| == Min(|Window(db, prefix, next, floor)|, 1024)
  {
    var found := ScanRecords(db, prefix, next, floor);
    var n := Min(|found|, PURGE_CHUNK);
    if n == 0 {
      EmptyWindow(db, prefix, next, next);
      return db, 0, next;
    }
    ChunkFacts(db, prefix, next, floor, n, found);
    next' := ChunkEnd(found, prefix, n);
    deleted := n;
    db' := db - KeySet(found[..n]);
  }

  class Store {
    var db: Db

    constructor (db: Db)
      ensures this.db == db
    {
      this.db := db;
    }

    /** Deletes, 1024 at a time, exactly the records below `floor` that no live fork pins, and counts each of them once;
        every other key keeps its value. `forks` holds the streams' pins and deletion marks. */
    method PurgeBelow(forks: ForkHistory.Store, stream: string, floor: nat) returns (purged: nat)
      requires BuiltKeys(db) && SlashFree(stream) && floor < Pow10(WIDTH)
      modifies this
      ensures forall k :: k in db ==> k in old(db) && db[k] == old(db)[k]
      ensures forall k :: k in old(db) ==> (k !in db <==> Purgeable(forks, stream, floor, k))
      ensures purged == |old(db).Keys - db.Keys|
    {
      var pinFloor := FloorOfPins(forks, stream);
      BuiltIsWellKeyed(db, stream);
      ghost var window := Window(db, RecordPrefix(stream), pinFloor, floor);
      forall k | k in db ensures k in window <==> Purgeable(forks, stream, floor, k) {
        if IsRecord(k, RecordPrefix(stream)) {
          PinFloorMeans(forks, stream, VersionOf(k, RecordPrefix(stream)));
        }
      }
      purged := PurgeFrom(stream, pinFloor, floor);
      assert old(db).Keys - db.Keys == window;
    }

    method PurgeFrom(stream: string, pinFloor: nat, floor: nat) returns (purged: nat)
      requires WellKeyed(db, RecordPrefix(stream)) && floor < Pow10(WIDTH)
      modifies this
      ensures db == old(db) - Window(old(db), RecordPrefix(stream), pinFloor, floor)
      ensures purged == |Window(old(db), RecordPrefix(stream), pinFloor, floor)|
    {
      var prefix := RecordPrefix(stream);
      ghost var before := db;
      var next := pinFloor;
      purged := 0;
      assert Window(before, prefix, pinFloor, pinFloor) == {};
      while next < floor
        invariant pinFloor <= next <= Max(pinFloor, floor)
        invariant db == before - Window(before, prefix, pinFloor, next)
        invariant purged == |Window(before, prefix, pinFloor, next)|
      {
        StillWellKeyed(before, prefix, Window(before, prefix, pinFloor, next));
        var left, deleted, next' := PurgeChunk(db, prefix, next, floor);
        DeleteJoins(before, prefix, pinFloor, next, next');
        if next' == next {
          DeleteJoins(before, prefix, pinFloor, next, floor);
          return;
        }
        db := left;
        purged := purged + deleted;
        next := next';
      }
      EmptyWindow(before, prefix, pinFloor, floor);
      EmptyWindow(before, prefix, pinFloor, next);
    }
  }

  lemma StillWellKeyed(db: Db, prefix: string, gone: set<string>)
    requires WellKeyed(db, prefix)
    ensures WellKeyed(db - gone, prefix)
  {
  }

  lemma EmptyWindow(db: Db, prefix: string, lo: nat, hi: nat)
    ensures hi <= lo ==> Window(db, prefix, lo, hi) == {}
  {
  }

  // ---- search by timestamp ----

  function IndexPrefix(stream: string): string { "i/" + stream + "/" }

  /** The part of an index key behind the stream prefix. */
  function IndexSuffix(ts: nat, v: nat): string { Key16(ts) + ("/" + Key16(v)) }

  function IndexKey(stream: string, ts: nat, v: nat): string { IndexPrefix(stream) + IndexSuffix(ts, v) }

  /** Equal-length fronts decide, unless they are equal. */
  lemma {:induction false} LeFronts(a: string, b: string, x: string, y: string)
    requires |a| == |b|
    ensures Le(a + x, b + y) <==> (if a == b then Le(x, y) else Le(a, b))
  {
    if a == [] {
      assert a + x == x && b + y == y;
    } else {
      assert (a + x)[1..] == a[1..] + x && (b + y)[1..] == b[1..] + y;
      LeFronts(a[1..], b[1..], x, y);
      assert a == [a[0]] + a[1..] && b == [b[0]] + b[1..];
    }
  }

  /** Index keys compare by timestamp, then by version. */
  lemma IndexOrder(ts: nat, v: nat, ts': nat, v': nat)
    requires ts < Pow10(WIDTH) && v < Pow10(WIDTH) && ts' < Pow10(WIDTH) && v' < Pow10(WIDTH)
    ensures Le(IndexSuffix(ts, v), IndexSuffix(ts', v')) <==> ts < ts' || (ts == ts' && v <= v')
  {
    LeFronts(Key16(ts), Key16(ts'), "/" + Key16(v), "/" + Key16(v'));
    PadOrder(ts, ts', WIDTH);
    LeAppend("/", Key16(v), Key16(v'));
    PadOrder(v, v', WIDTH);
  }

  lemma AtOrAfter(target: nat, ts: nat, v: nat)
    requires target < Pow10(WIDTH) && ts < Pow10(WIDTH)
    ensures Le(Key16(target), IndexSuffix(ts, v)) <==> target <= ts
  {
    LeFronts(Key16(target), Key16(ts), "", "/" + Key16(v));
    PadOrder(target, ts, WIDTH);
    assert Key16(target) + "" == Key16(target);
  }

  // `ts` holds the timestamps of a stream's own events by version.

  /** Timestamps along a stream never move back and, like the versions, fit the key. */
  predicate Monotone(ts: map<nat, nat>) {
    && (forall u, v :: u in ts && v in ts && u < v ==> ts[u] <= ts[v])
    && (forall v :: v in ts ==> v < Pow10(WIDTH) && ts[v] < Pow10(WIDTH))
  }

  /** Every event of the stream, and nothing else, is in the index. */
  predicate Indexed(keys: set<string>, stream: string, ts: map<nat, nat>) {
    && (forall v :: v in ts ==> IndexKey(stream, ts[v], v) in keys)
    && (forall k :: k in keys && IndexPrefix(stream) <= k ==> exists v :: v in ts && k == IndexKey(stream, ts[v], v))
  }

  predicate IsFirstAtOrAfter(ts: map<nat, nat>, target: nat, v: nat) {
    v in ts && ts[v] >= target && forall u :: u in ts && u < v ==> ts[u] < target
  }

  lemma SuffixReadsBack(stream: string, ts: nat, v: nat)
    requires v < Pow10(WIDTH)
    ensures var k := IndexKey(stream, ts, v);
            |k| >= WIDTH && AllDigits(k[|k| - WIDTH..]) && Parse(k[|k| - WIDTH..]) == v
  {
    PadParses(v, WIDTH);
    SuffixOf(IndexPrefix(stream) + Key16(ts) + "/", Key16(v));
    assert IndexKey(stream, ts, v) == IndexPrefix(stream) + Key16(ts) + "/" + Key16(v);
  }

  lemma SuffixOf(front: string, back: string)
    ensures (front + back)[|front + back| - |back|..] == back
  {
  }

  /** The index keys at or after `target`, in order. */
  function IndexFrom(keys: set<string>, prefix: string, target: nat): seq<string> {
    SortedKeys(set k | k in keys && prefix <= k && Le(Key16(target), k[|prefix|..]))
  }

  lemma IndexFromHolds(keys: set<string>, stream: string, target: nat, ts: nat, v: nat)
    requires IndexKey(stream, ts, v) in keys && target < Pow10(WIDTH) && ts < Pow10(WIDTH)
    ensures IndexKey(stream, ts, v) in IndexFrom(keys, IndexPrefix(stream), target) <==> ts >= target
  {
    var k, prefix := IndexKey(stream, ts, v), IndexPrefix(stream);
    assert k[|prefix|..] == IndexSuffix(ts, v);
    AtOrAfter(target, ts, v);
  }

  /** The event the first index key belongs to. */
  ghost function SomeIndexed(keys: set<string>, stream: string, ts: map<nat, nat>, target: nat): (v: nat)
    requires Indexed(keys, stream, ts) && IndexFrom(keys, IndexPrefix(stream), target) != []
    ensures v in ts && IndexFrom(keys, IndexPrefix(stream), target)[0] == IndexKey(stream, ts[v], v)
  {
    var first := IndexFrom(keys, IndexPrefix(stream), target)[0];
    assert first in IndexFrom(keys, IndexPrefix(stream), target);
    var v :| v in ts && first == IndexKey(stream, ts[v], v);
    v
  }

  lemma FirstIsLeast(found: seq<string>, stream: string, ts: map<nat, nat>, target: nat, v: nat)
    requires Increasing(found) && found != [] && Monotone(ts) && v in ts
    requires found[0] == IndexKey(stream, ts[v], v)
    requires forall u :: u in ts ==> (IndexKey(stream, ts[u], u) in found <==> ts[u] >= target)
    ensures IsFirstAtOrAfter(ts, target, v)
  {
    forall u | u in ts && u < v ensures ts[u] < target {
      if ts[u] >= target {
        var k := IndexKey(stream, ts[u], u);
        var i :| 0 <= i < |found| && found[i] == k;
        LeReflexive(k);
        assert Le(found[0], k);
        LeAppend(IndexPrefix(stream), IndexSuffix(ts[v], v), IndexSuffix(ts[u], u));
        IndexOrder(ts[v], v, ts[u], u);
        assert false;
      }
    }
    assert found[0] in found;
  }

  lemma {:induction false} SeekFinds(keys: set<string>, stream: string, target: nat, ts: map<nat, nat>)
    requires Indexed(keys, stream, ts) && Monotone(ts) && target < Pow10(WIDTH)
    ensures var found := IndexFrom(keys, IndexPrefix(stream), target);
            if found == [] then forall v :: v in ts ==> ts[v] < target
            else |found[0]| >= WIDTH && AllDigits(found[0][|found[0]| - WIDTH..])
                 && IsFirstAtOrAfter(ts, target, Parse(found[0][|found[0]| - WIDTH..]))
  {
    var found := IndexFrom(keys, IndexPrefix(stream), target);
    forall v | v in ts ensures IndexKey(stream, ts[v], v) in found <==> ts[v] >= target {
      IndexFromHolds(keys, stream, target, ts[v], v);
    }
    if found != [] {
      var v := SomeIndexed(keys, stream, ts, target);
      SuffixReadsBack(stream, ts[v], v);
      FirstIsLeast(found, stream, ts, target, v);
    }
  }

  /** The first index key at or after the target names the first event at or after it. */
  method SeekTimestamp(keys: set<string>, stream: string, target: nat, ghost ts: map<nat, nat>) returns (r: Option<nat>)
    requires Indexed(keys, stream, ts) && Monotone(ts) && target < Pow10(WIDTH)
    ensures r.Some? ==> IsFirstAtOrAfter(ts, target, r.value)
    ensures r.None? ==> forall v :: v in ts ==> ts[v] < target
  {
    SeekFinds(keys, stream, target, ts);
    var found := IndexFrom(keys, IndexPrefix(stream), target);
    if found == [] {
      return None;
    }
    var first := found[0];
    r := Some(Parse(first[|first| - WIDTH..]));
  }
}
