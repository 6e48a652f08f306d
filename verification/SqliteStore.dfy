/**
 The durable side of a replicated database: the event stream, the published manifest and the segment objects,
 what a restore reads from them, and what makes them consistent.
 */
module SqliteStore {
  import opened Prelude
  import opened SqliteTypes
  import opened SqliteImage

  datatype SegmentRef = SegmentRef(path: string, txidStart: nat, txidEnd: nat, pageSize: nat, dbSize: nat)

  datatype Manifest = Manifest(segments: seq<SegmentRef>, retire: seq<string>)

  function RefOf(l: Ltx, path: string): SegmentRef {
    SegmentRef(path, l.txidStart, l.txidEnd, l.pageSize, l.dbSize)
  }

  /** `log` is every event ever appended, each a batch of transactions; events below `floor` are purged, and the
      manifest that readers find, published under `key`, covers the first `covered` (none before the first checkpoint).
      */
  datatype Durable = Durable(
    log: seq<seq<Delta>>, floor: nat, manifest: Manifest, covered: nat, bucket: map<string, Ltx>, key: nat)

  const Fresh := Durable([], 0, Manifest([], []), 0, map[], 0)

  /** Readers take the manifest with the greatest key, the newest one among equal keys. */
  predicate Found(s: Durable, key: nat) { s.key <= key }

  // ---- transactions in order ----

  function LastTxid(deltas: seq<Delta>): nat {
    if deltas == [] then 0 else deltas[|deltas| - 1].txid
  }

  /** Transaction ids increase strictly, from above `after`. */
  predicate Numbered(after: nat, deltas: seq<Delta>) {
    && (forall i :: 0 <= i < |deltas| ==> after < deltas[i].txid)
    && (forall i, j :: 0 <= i < j < |deltas| ==> deltas[i].txid < deltas[j].txid)
  }

  lemma NumberedConcat(after: nat, a: seq<Delta>, b: seq<Delta>)
    requires Numbered(after, a) && Numbered(Max(after, LastTxid(a)), b)
    ensures Numbered(after, a + b)
    ensures forall i :: 0 <= i < |b| ==> b[i].txid > LastTxid(a)
  {
  }

  /** The transactions up to id `t`. */
  function UpTo(deltas: seq<Delta>, t: nat): seq<Delta> {
    if deltas == [] || deltas[|deltas| - 1].txid <= t then deltas else UpTo(deltas[..|deltas| - 1], t)
  }

  /** Transactions above `t` at the end do not matter. */
  lemma {:induction false} UpToDropsTail(a: seq<Delta>, b: seq<Delta>, t: nat)
    requires forall i :: 0 <= i < |b| ==> b[i].txid > t
    ensures UpTo(a + b, t) == UpTo(a, t)
    decreases |b|
  {
    if b == [] {
      assert a + b == a;
    } else {
      assert (a + b)[..|a + b| - 1] == a + b[..|b| - 1];
      UpToDropsTail(a, b[..|b| - 1], t);
    }
  }

  /** `UpTo` cuts a numbered sequence exactly at `t`. */
  lemma {:induction false} UpToSplits(after: nat, deltas: seq<Delta>, t: nat)
    requires Numbered(after, deltas)
    ensures var k := |UpTo(deltas, t)|;
            && k <= |deltas| && UpTo(deltas, t) == deltas[..k]
            && (forall i :: 0 <= i < k ==> deltas[i].txid <= t)
            && (forall i :: k <= i < |deltas| ==> deltas[i].txid > t)
  {
    if deltas != [] {
      var n := |deltas| - 1;
      if deltas[n].txid <= t {
        assert deltas[..|deltas|] == deltas;
      } else {
        UpToSplits(after, deltas[..n], t);
      }
    }
  }

  lemma {:induction false} UpToNone(after: nat, deltas: seq<Delta>)
    requires Numbered(after, deltas)
    ensures UpTo(deltas, after) == []
  {
    if deltas != [] {
      UpToNone(after, deltas[..|deltas| - 1]);
    }
  }

  // ---- restoring ----

  predicate SegmentsExist(bucket: map<string, Ltx>, segments: seq<SegmentRef>) {
    forall i :: 0 <= i < |segments| ==>
      segments[i].path in bucket && segments[i] == RefOf(bucket[segments[i].path], segments[i].path)
  }

  /** The objects of the first `k` segments are there, whatever they hold. */
  predicate Present(bucket: map<string, Ltx>, segments: seq<SegmentRef>, k: nat)
    requires k <= |segments|
  {
    forall i :: 0 <= i < k ==> segments[i].path in bucket
  }

  /** Merging the first `k` segments in order. */
  function MergeSegments(bucket: map<string, Ltx>, segments: seq<SegmentRef>, k: nat): Image
    requires k <= |segments| && Present(bucket, segments, k)
  {
    if k == 0 then Empty else Merge(MergeSegments(bucket, segments, k - 1), bucket[segments[k - 1].path])
  }

  function BaseImage(d: Durable): Image
    requires Present(d.bucket, d.manifest.segments, |d.manifest.segments|)
  {
    MergeSegments(d.bucket, d.manifest.segments, |d.manifest.segments|)
  }

  /** The events a restore folds: those after the manifest that retention has left. */
  function Backlog(d: Durable): seq<seq<Delta>> {
    var first := Max(d.covered, d.floor);
    if first <= |d.log| then d.log[first..] else []
  }

  function RestoredImage(d: Durable): Image
    requires Present(d.bucket, d.manifest.segments, |d.manifest.segments|)
  {
    ApplyAll(BaseImage(d), Flatten(Backlog(d)))
  }

  function RestoredBuilder(d: Durable): Builder { BuildAll(Flatten(Backlog(d))) }

  function RestoredTail(d: Durable): Option<nat> {
    if Backlog(d) != [] then Some(|d.log| - 1) else if d.covered > 0 then Some(d.covered - 1) else None
  }

  // ---- consistency ----

  /** Where the first `k` segments end. */
  function EndOf(segments: seq<SegmentRef>, k: nat): nat
    requires k <= |segments|
  {
    if k == 0 then 0 else segments[k - 1].txidEnd
  }

  /** Segment ranges are well formed, ordered and disjoint. */
  predicate OrderedRanges(segments: seq<SegmentRef>) {
    && (forall i :: 0 <= i < |segments| ==> 0 < segments[i].txidStart <= segments[i].txidEnd)
    && (forall i, j :: 0 <= i < j < |segments| ==> segments[i].txidEnd < segments[j].txidStart)
  }

  /** Every prefix of the manifest shows exactly the transactions up to its end. */
  ghost predicate Reproduces(bucket: map<string, Ltx>, segments: seq<SegmentRef>, deltas: seq<Delta>)
    requires SegmentsExist(bucket, segments)
  {
    forall k :: 0 <= k <= |segments| ==>
      SameView(MergeSegments(bucket, segments, k), ApplyAll(Empty, UpTo(deltas, EndOf(segments, k))))
      && EndOf(segments, k) <= LastTxid(deltas)
  }

  /** The transactions are numbered and write what they expose. */
  predicate WellFormedLog(log: seq<seq<Delta>>) {
    Numbered(0, Flatten(log)) && Growing(0, Flatten(log))
  }

  /** The manifest reproduces the part of the log it covers, and retention has not passed it. */
  ghost predicate Consistent(d: Durable) {
    && d.floor <= d.covered <= |d.log|
    && WellFormedLog(d.log)
    && SegmentsExist(d.bucket, d.manifest.segments)
    && OrderedRanges(d.manifest.segments)
    && Reproduces(d.bucket, d.manifest.segments, Flatten(d.log))
    && Flatten(d.log[..d.covered]) == UpTo(Flatten(d.log), EndOf(d.manifest.segments, |d.manifest.segments|))
  }

  lemma LogSplits(d: Durable)
    requires d.covered <= |d.log|
    ensures Flatten(d.log) == Flatten(d.log[..d.covered]) + Flatten(d.log[d.covered..])
  {
    assert d.log == d.log[..d.covered] + d.log[d.covered..];
    FlattenConcat(d.log[..d.covered], d.log[d.covered..]);
  }

  /** What a restore reads is what replaying the whole log gives, byte for byte as far as the file goes. */
  lemma ConsistentRestores(d: Durable)
    requires Consistent(d)
    ensures SameView(RestoredImage(d), ApplyAll(Empty, Flatten(d.log)))
    ensures RestoredTail(d) == if d.log == [] then None else Some(|d.log| - 1)
    ensures RestoredBuilder(d) == BuildAll(Flatten(d.log[d.covered..]))
  {
    var sealed, rest := Flatten(d.log[..d.covered]), Flatten(d.log[d.covered..]);
    LogSplits(d);
    assert SameView(BaseImage(d), ApplyAll(Empty, sealed));
    BaseAndRest(BaseImage(d), sealed, rest);
    assert Backlog(d) == d.log[d.covered..];
  }

  /** An image that shows the first transactions, with the others on top. */
  lemma BaseAndRest(base: Image, sealed: seq<Delta>, rest: seq<Delta>)
    requires SameView(base, ApplyAll(Empty, sealed)) && Growing(0, sealed + rest)
    ensures SameView(ApplyAll(base, rest), ApplyAll(Empty, sealed + rest))
  {
    ApplyAllConcat(Empty, sealed, rest);
    GrowingConcat(0, sealed, rest);
    SizeOfImage(Empty, sealed);
    ApplyAllSameView(base, ApplyAll(Empty, sealed), rest);
  }

  lemma SizeOfImage(img: Image, deltas: seq<Delta>)
    ensures ApplyAll(img, deltas).dbSize == SizeAfter(img.dbSize, deltas)
    ensures ApplyAll(img, deltas).txid == if deltas == [] then img.txid else LastTxid(deltas)
  {
  }
}
