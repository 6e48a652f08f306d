/** Restoring a database: to the tail, and to an earlier transaction. */
module SqliteRestore {
  import opened Prelude
  import opened SqliteTypes
  import opened SqliteImage
  import opened SqliteFile
  import opened SqliteStore
  import opened SqliteLoss

  method MergeInto(image: DbImage, bucket: map<string, Ltx>, segments: seq<SegmentRef>, used: nat) returns (ok: bool)
    requires used <= |segments|
    modifies image
    ensures ok <==> Present(bucket, segments, used)
    ensures ok && old(image.Value()) == Empty ==> image.Value() == MergeSegments(bucket, segments, used)
  {
    for i := 0 to used
      invariant Present(bucket, segments, i)
      invariant old(image.Value()) == Empty ==> image.Value() == MergeSegments(bucket, segments, i)
    {
      if segments[i].path !in bucket {
        return false;
      }
      image.MergeLtx(bucket[segments[i].path]);
    }
    return true;
  }

  /** The latest state, the builder for the next checkpoint and the tail to append at. */
  method Restore(d: Durable) returns (image: DbImage, pending: LtxBuilder, tail: Option<nat>, ok: bool)
    ensures ok <==> Present(d.bucket, d.manifest.segments, |d.manifest.segments|)
    ensures ok ==> image.Value() == RestoredImage(d) && pending.Value() == RestoredBuilder(d) && tail == RestoredTail(d)
  {
    image := new DbImage();
    pending := new LtxBuilder();
    tail := None;
    ok := MergeInto(image, d.bucket, d.manifest.segments, |d.manifest.segments|);
    if !ok {
      return;
    }
    var events := Backlog(d);
    tail := FoldEvents(image, pending, events, |d.log| - |events|);
    if tail.None? && d.covered > 0 {
      tail := Some(d.covered - 1);
    }
  }

  method FoldEvents(
    image: DbImage, pending: LtxBuilder, events: seq<seq<Delta>>, first: nat) returns (tail: Option<nat>)
    requires pending.Value() == EmptyBuilder
    modifies image, pending
    ensures image.Value() == ApplyAll(old(image.Value()), Flatten(events))
            && pending.Value() == BuildAll(Flatten(events))
    ensures tail == if events == [] then None else Some(first + |events| - 1)
  {
    ghost var base := image.Value();
    tail := None;
    for i := 0 to |events|
      invariant image.Value() == ApplyAll(base, Flatten(events[..i]))
      invariant pending.Value() == BuildAll(Flatten(events[..i]))
      invariant tail == if i == 0 then None else Some(first + i - 1)
    {
      assert events[..i + 1][..i] == events[..i];
      FoldEvent(image, pending, base, Flatten(events[..i]), events[i]);
      tail := Some(first + i);
    }
    assert events[..|events|] == events;
  }

  method FoldEvent(image: DbImage, pending: LtxBuilder, ghost base: Image, ghost before: seq<Delta>, event: seq<Delta>)
    requires image.Value() == ApplyAll(base, before) && pending.Value() == BuildAll(before)
    modifies image, pending
    ensures image.Value() == ApplyAll(base, before + event) && pending.Value() == BuildAll(before + event)
  {
    assert before + event[..0] == before;
    for i := 0 to |event|
      invariant image.Value() == ApplyAll(base, before + event[..i])
      invariant pending.Value() == BuildAll(before + event[..i])
    {
      assert (before + event[..i + 1])[..|before| + i] == before + event[..i];
      image.Apply(event[i]);
      pending.Apply(event[i]);
    }
    assert event[..|event|] == event;
  }

  // ---- point in time ----

  /** The leading segments that end at or before transaction `t`. */
  function UsableFrom(segments: seq<SegmentRef>, t: nat, k: nat): (r: nat)
    requires k <= |segments|
    ensures k <= r <= |segments|
    decreases |segments| - k
  {
    if k == |segments| || segments[k].txidStart > t || segments[k].txidEnd > t then k
      else UsableFrom(segments, t, k + 1)
  }

  function Usable(segments: seq<SegmentRef>, t: nat): (r: nat)
    ensures r <= |segments|
  {
    UsableFrom(segments, t, 0)
  }

  lemma {:induction false} UsableEnds(segments: seq<SegmentRef>, t: nat, k: nat)
    requires k <= |segments| && EndOf(segments, k) <= t
    ensures EndOf(segments, UsableFrom(segments, t, k)) <= t
    decreases |segments| - k
  {
    if !(k == |segments| || segments[k].txidStart > t || segments[k].txidEnd > t) {
      UsableEnds(segments, t, k + 1);
    }
  }

  /** With ordered ranges, the usable segments are exactly those that end at or before `t`. */
  lemma UsableMeans(segments: seq<SegmentRef>, t: nat, i: nat)
    requires OrderedRanges(segments) && i < |segments|
    ensures i < Usable(segments, t) <==> segments[i].txidEnd <= t
  {
    UsableFromMeans(segments, t, 0, i);
  }

  lemma {:induction false} UsableFromMeans(segments: seq<SegmentRef>, t: nat, k: nat, i: nat)
    requires OrderedRanges(segments) && k <= i < |segments|
    ensures i < UsableFrom(segments, t, k) <==> segments[i].txidEnd <= t
    decreases |segments| - k
  {
    if k < i && segments[k].txidStart <= t && segments[k].txidEnd <= t {
      UsableFromMeans(segments, t, k + 1, i);
    }
  }

  /** The transactions with `lo < txid <= hi`, in order. */
  function Between(deltas: seq<Delta>, lo: nat, hi: nat): seq<Delta> {
    if deltas == [] then []
    else
      var last := deltas[|deltas| - 1];
      Between(deltas[..|deltas| - 1], lo, hi) + if lo < last.txid <= hi then [last] else []
  }

  function Retained(d: Durable): seq<Delta> {
    Flatten(if d.floor <= |d.log| then d.log[d.floor..] else [])
  }

  /** What the point-in-time fold ends with, before its final check. */
  function Candidate(d: Durable, t: nat): Image
    requires Present(d.bucket, d.manifest.segments, Usable(d.manifest.segments, t))
  {
    var base := MergeSegments(d.bucket, d.manifest.segments, Usable(d.manifest.segments, t));
    ApplyAll(base, Between(Retained(d), base.txid, t))
  }

  function RestoredAt(d: Durable, t: nat): Option<Image>
    requires Present(d.bucket, d.manifest.segments, Usable(d.manifest.segments, t))
  {
    if Candidate(d, t).txid < t then None else Some(Candidate(d, t))
  }

  method RestoreAt(d: Durable, t: nat) returns (image: DbImage, ok: bool)
    ensures ok <==> Present(d.bucket, d.manifest.segments, Usable(d.manifest.segments, t)) && RestoredAt(d, t).Some?
    ensures ok ==> Some(image.Value()) == RestoredAt(d, t)
  {
    image := new DbImage();
    var segments := d.manifest.segments;
    var used := 0;
    while used < |segments| && !(segments[used].txidStart > t || segments[used].txidEnd > t)
      invariant 0 <= used <= |segments|
      invariant UsableFrom(segments, t, used) == Usable(segments, t)
    {
      used := used + 1;
    }
    ok := MergeInto(image, d.bucket, segments, used);
    if !ok {
      return;
    }
    FoldBetween(image, Retained(d), t);
    ok := image.txid >= t;
  }

  /** Folds the deltas behind the image's own transaction, up to `t`. */
  method FoldBetween(image: DbImage, deltas: seq<Delta>, t: nat)
    modifies image
    ensures image.Value() == ApplyAll(old(image.Value()), Between(deltas, old(image.txid), t))
  {
    var base := image.txid;
    for i := 0 to |deltas|
      invariant image.Value() == ApplyAll(old(image.Value()), Between(deltas[..i], base, t))
    {
      assert deltas[..i + 1][..i] == deltas[..i];
      if base < deltas[i].txid <= t {
        ghost var picked := Between(deltas[..i], base, t);
        assert (picked + [deltas[i]])[..|picked|] == picked;
        image.Apply(deltas[i]);
      } else {
        assert Between(deltas[..i], base, t) + [] == Between(deltas[..i], base, t);
      }
    }
    assert deltas[..|deltas|] == deltas;
  }

  lemma {:induction false} BetweenConcat(a: seq<Delta>, b: seq<Delta>, lo: nat, hi: nat)
    ensures Between(a + b, lo, hi) == Between(a, lo, hi) + Between(b, lo, hi)
    decreases |b|
  {
    if b == [] {
      assert a + b == a;
    } else {
      assert (a + b)[..|a + b| - 1] == a + b[..|b| - 1];
      BetweenConcat(a, b[..|b| - 1], lo, hi);
    }
  }

  lemma {:induction false} BetweenAll(deltas: seq<Delta>, lo: nat, hi: nat)
    requires forall i :: 0 <= i < |deltas| ==> lo < deltas[i].txid <= hi
    ensures Between(deltas, lo, hi) == deltas
  {
    if deltas != [] {
      BetweenAll(deltas[..|deltas| - 1], lo, hi);
      assert deltas == deltas[..|deltas| - 1] + [deltas[|deltas| - 1]];
    }
  }

  lemma {:induction false} BetweenNone(deltas: seq<Delta>, lo: nat, hi: nat)
    requires forall i :: 0 <= i < |deltas| ==> !(lo < deltas[i].txid <= hi)
    ensures Between(deltas, lo, hi) == []
  {
    if deltas != [] {
      BetweenNone(deltas[..|deltas| - 1], lo, hi);
    }
  }

  lemma BetweenCut(all: seq<Delta>, p: nat, m: nat, j: nat, lo: nat, hi: nat)
    requires p <= |all| && m <= j <= |all|
    requires forall i :: 0 <= i < m ==> all[i].txid <= lo
    requires forall i :: m <= i < j ==> lo < all[i].txid <= hi
    requires forall i :: j <= i < |all| ==> all[i].txid > hi
    ensures Between(all[p..], lo, hi) == if Max(m, p) <= j then all[Max(m, p)..j] else []
  {
    var q := Max(m, p);
    if q <= j {
      var a, b, c := all[p..q], all[q..j], all[j..];
      ThreeParts(all, p, q, j);
      BetweenNone(a, lo, hi);
      BetweenAll(b, lo, hi);
      BetweenNone(c, lo, hi);
      BetweenThree(a, b, c, lo, hi);
    } else {
      BetweenNone(all[p..], lo, hi);
    }
  }

  lemma ThreeParts(all: seq<Delta>, p: nat, q: nat, j: nat)
    requires p <= q <= j <= |all|
    ensures all[p..] == all[p..q] + (all[q..j] + all[j..])
  {
    assert all[q..j] + all[j..] == all[q..];
    assert all[p..q] + all[q..] == all[p..];
  }

  lemma BetweenThree(a: seq<Delta>, b: seq<Delta>, c: seq<Delta>, lo: nat, hi: nat)
    requires Between(a, lo, hi) == [] && Between(b, lo, hi) == b && Between(c, lo, hi) == []
    ensures Between(a + (b + c), lo, hi) == b
  {
    BetweenConcat(a, b + c, lo, hi);
    BetweenConcat(b, c, lo, hi);
  }

  lemma CutsOrdered(all: seq<Delta>, lo: nat, hi: nat)
    requires Numbered(0, all) && lo <= hi
    ensures |UpTo(all, lo)| <= |UpTo(all, hi)| <= |all|
    ensures forall i :: |UpTo(all, lo)| <= i < |UpTo(all, hi)| ==> lo < all[i].txid <= hi
  {
    UpToSplits(0, all, lo);
    UpToSplits(0, all, hi);
  }

  /** What the filter picks out of the transactions from position `p` on. */
  lemma BetweenIsSlice(all: seq<Delta>, p: nat, lo: nat, hi: nat)
    requires Numbered(0, all) && p <= |all| && lo <= hi
    ensures var m, j := |UpTo(all, lo)|, |UpTo(all, hi)|;
            && m <= j <= |all|
            && Between(all[p..], lo, hi) == if Max(m, p) <= j then all[Max(m, p)..j] else []
  {
    CutsOrdered(all, lo, hi);
    UpToSplits(0, all, lo);
    UpToSplits(0, all, hi);
    BetweenCut(all, p, |UpTo(all, lo)|, |UpTo(all, hi)|, lo, hi);
  }

  // ---- when the answer is right ----

  /** How many transactions retention has removed. */
  function Purged(d: Durable): nat
    requires d.floor <= |d.log|
  {
    |Flatten(d.log[..d.floor])|
  }

  lemma RetainedIsSuffix(d: Durable)
    requires d.floor <= |d.log|
    ensures Purged(d) <= |Flatten(d.log)| && Retained(d) == Flatten(d.log)[Purged(d)..]
  {
    assert d.log == d.log[..d.floor] + d.log[d.floor..];
    FlattenConcat(d.log[..d.floor], d.log[d.floor..]);
  }

  /** The end of the last segment a restore to `t` uses. */
  function UsedEnd(d: Durable, t: nat): nat {
    EndOf(d.manifest.segments, Usable(d.manifest.segments, t))
  }

  lemma {:induction false} MergedTxid(bucket: map<string, Ltx>, segments: seq<SegmentRef>, k: nat)
    requires SegmentsExist(bucket, segments) && k <= |segments|
    ensures MergeSegments(bucket, segments, k).txid == EndOf(segments, k)
  {
  }

  /** The candidate, as the transactions it is made of. */
  lemma CandidateIs(d: Durable, t: nat)
    requires Consistent(d)
    ensures UsedEnd(d, t) <= t
    ensures var all, p := Flatten(d.log), Purged(d);
            var m, j := |UpTo(all, UsedEnd(d, t))|, |UpTo(all, t)|;
            && m <= j <= |all|
            && Candidate(d, t) == ApplyAll(MergeSegments(d.bucket, d.manifest.segments, Usable(d.manifest.segments, t)),
                                           if Max(m, p) <= j then all[Max(m, p)..j] else [])
  {
    UsableEnds(d.manifest.segments, t, 0);
    MergedTxid(d.bucket, d.manifest.segments, Usable(d.manifest.segments, t));
    RetainedIsSuffix(d);
    BetweenIsSlice(Flatten(d.log), Purged(d), UsedEnd(d, t), t);
  }

  lemma SliceApplied(base: Image, all: seq<Delta>, m: nat, j: nat)
    requires m <= j <= |all| && Growing(0, all) && SameView(base, ApplyAll(Empty, all[..m]))
    ensures SameView(ApplyAll(base, all[m..j]), ApplyAll(Empty, all[..j]))
  {
    var head, slice := all[..m], all[m..j];
    assert all[..j] == head + slice;
    assert Growing(SizeAfter(0, head), slice) by {
      assert all == all[..j] + all[j..];
      GrowingConcat(0, all[..j], all[j..]);
      GrowingConcat(0, head, slice);
    }
    SizeOfImage(Empty, head);
    ApplyAllSameView(base, ApplyAll(Empty, head), slice);
    ApplyAllConcat(Empty, head, slice);
  }

  lemma SliceView(d: Durable, k: nat, m: nat, j: nat)
    requires Consistent(d) && k <= |d.manifest.segments| && m <= j <= |Flatten(d.log)|
    requires UpTo(Flatten(d.log), EndOf(d.manifest.segments, k)) == Flatten(d.log)[..m]
    ensures SameView(ApplyAll(MergeSegments(d.bucket, d.manifest.segments, k), Flatten(d.log)[m..j]),
                     ApplyAll(Empty, Flatten(d.log)[..j]))
  {
    SliceApplied(MergeSegments(d.bucket, d.manifest.segments, k), Flatten(d.log), m, j);
  }

  lemma CandidateView(d: Durable, t: nat)
    requires Consistent(d) && Purged(d) <= |UpTo(Flatten(d.log), UsedEnd(d, t))|
    ensures SameView(Candidate(d, t), ApplyAll(Empty, UpTo(Flatten(d.log), t)))
  {
    var all, k := Flatten(d.log), Usable(d.manifest.segments, t);
    CandidateIs(d, t);
    UpToSplits(0, all, UsedEnd(d, t));
    UpToSplits(0, all, t);
    SliceView(d, k, |UpTo(all, UsedEnd(d, t))|, |UpTo(all, t)|);
  }

  /** Cutting at `t` ends on `t` exactly when a transaction carries that id. */
  lemma CutEndsOn(all: seq<Delta>, t: nat)
    requires Numbered(0, all)
    ensures LastTxid(UpTo(all, t)) <= t
    ensures LastTxid(UpTo(all, t)) == t <==> t == 0 || exists i :: 0 <= i < |all| && all[i].txid == t
  {
    UpToSplits(0, all, t);
    var j := |UpTo(all, t)|;
    if i :| 0 <= i < |all| && all[i].txid == t {
      assert i < j;
      assert all[i].txid <= all[j - 1].txid <= t;
    }
  }

  /** Point-in-time restore: when no purged transaction lies above the last usable segment, restoring to `t` succeeds
      exactly when some transaction carries the id `t` (or `t` is 0), and then shows exactly the transactions up to it.
      An id beyond the tail, or inside a folded batch, names no transaction and fails. */
  lemma RestoreAtExact(d: Durable, t: nat)
    requires Consistent(d) && Purged(d) <= |UpTo(Flatten(d.log), UsedEnd(d, t))|
    ensures RestoredAt(d, t).Some? <==> t == 0 || exists i :: 0 <= i < |Flatten(d.log)| && Flatten(d.log)[i].txid == t
    ensures RestoredAt(d, t).Some? ==>
              RestoredAt(d, t).value.txid == t
              && SameView(RestoredAt(d, t).value, ApplyAll(Empty, UpTo(Flatten(d.log), t)))
  {
    CandidateView(d, t);
    SizeOfImage(Empty, UpTo(Flatten(d.log), t));
    CutEndsOn(Flatten(d.log), t);
  }

  // ---- when it is wrong ----

  function UsedImage(d: Durable, t: nat): Image
    requires SegmentsExist(d.bucket, d.manifest.segments)
  {
    MergeSegments(d.bucket, d.manifest.segments, Usable(d.manifest.segments, t))
  }

  /** The restore answers, and the answer does not show the transactions up to `t`. */
  ghost predicate Wrong(d: Durable, t: nat)
    requires SegmentsExist(d.bucket, d.manifest.segments)
  {
    RestoredAt(d, t).Some? && !SameView(RestoredAt(d, t).value, ApplyAll(Empty, UpTo(Flatten(d.log), t)))
  }

  /** Transactions above the last usable segment are purged, a retained one behind them carries the id `t`, and the
      retained ones up to it do not make up for the purged ones. */
  predicate Misled(d: Durable, t: nat)
    requires SegmentsExist(d.bucket, d.manifest.segments) && d.floor <= |d.log|
  {
    var all, p := Flatten(d.log), Purged(d);
    var m, j := |UpTo(all, UsedEnd(d, t))|, |UpTo(all, t)|;
    m < p < j <= |all| && all[j - 1].txid == t && !Covers(UsedImage(d, t), all[m..p], all[p..j])
  }

  /** The transaction the fold ends on. */
  lemma CandidateEnds(d: Durable, t: nat)
    requires Consistent(d)
    ensures var all, p := Flatten(d.log), Purged(d);
            var m, j := |UpTo(all, UsedEnd(d, t))|, |UpTo(all, t)|;
            m <= j <= |all| && Candidate(d, t).txid == if Max(m, p) < j then all[j - 1].txid else UsedEnd(d, t)
  {
    var all, p, k := Flatten(d.log), Purged(d), Usable(d.manifest.segments, t);
    var m, j := |UpTo(all, UsedEnd(d, t))|, |UpTo(all, t)|;
    CandidateIs(d, t);
    MergedTxid(d.bucket, d.manifest.segments, k);
    SliceEnds(MergeSegments(d.bucket, d.manifest.segments, k), all, Max(m, p), j);
  }

  /** The id an image carries after a stretch of transactions. */
  lemma SliceEnds(img: Image, all: seq<Delta>, q: nat, j: nat)
    requires j <= |all|
    ensures ApplyAll(img, if q <= j then all[q..j] else []).txid == if q < j then all[j - 1].txid else img.txid
  {
    var kept := if q <= j then all[q..j] else [];
    SizeOfImage(img, kept);
  }

  /** Everything up to position `j`, as the segments, the purged stretch and the retained one. */
  lemma {:induction false} SlicesShow(d: Durable, k: nat, m: nat, p: nat, j: nat)
    requires Consistent(d) && k <= |d.manifest.segments| && m <= p <= j <= |Flatten(d.log)|
    requires UpTo(Flatten(d.log), EndOf(d.manifest.segments, k)) == Flatten(d.log)[..m]
    ensures SameView(ApplyAll(ApplyAll(MergeSegments(d.bucket, d.manifest.segments, k), Flatten(d.log)[m..p]),
                              Flatten(d.log)[p..j]),
                     ApplyAll(Empty, Flatten(d.log)[..j]))
  {
    SliceView(d, k, m, j);
    SliceJoin(MergeSegments(d.bucket, d.manifest.segments, k), Flatten(d.log), m, p, j);
  }

  lemma SliceJoin(img: Image, all: seq<Delta>, m: nat, p: nat, j: nat)
    requires m <= p <= j <= |all|
    ensures ApplyAll(ApplyAll(img, all[m..p]), all[p..j]) == ApplyAll(img, all[m..j])
  {
    assert all[m..j] == all[m..p] + all[p..j];
    ApplyAllConcat(img, all[m..p], all[p..j]);
  }

  /** With the purge reaching above the last usable segment, but not past `t`. */
  lemma CandidateRightIff(d: Durable, t: nat, m: nat, p: nat, j: nat)
    requires Consistent(d) && p == Purged(d)
    requires m == |UpTo(Flatten(d.log), UsedEnd(d, t))| && j == |UpTo(Flatten(d.log), t)|
             && m < p < j <= |Flatten(d.log)|
    ensures SameView(Candidate(d, t), ApplyAll(Empty, UpTo(Flatten(d.log), t)))
            <==> Covers(UsedImage(d, t), Flatten(d.log)[m..p], Flatten(d.log)[p..j])
  {
    var all := Flatten(d.log);
    assert Candidate(d, t) == ApplyAll(UsedImage(d, t), all[p..j]) by { CandidateIs(d, t); }
    UpToSplits(0, all, UsedEnd(d, t));
    UpToSplits(0, all, t);
    SlicesShow(d, Usable(d.manifest.segments, t), m, p, j);
    KeptRightIff(Candidate(d, t), UsedImage(d, t), all[m..p], all[p..j], ApplyAll(Empty, all[..j]));
  }

  lemma KeptRightIff(x: Image, base: Image, lost: seq<Delta>, kept: seq<Delta>, truth: Image)
    requires kept != [] && x == ApplyAll(base, kept) && SameView(ApplyAll(ApplyAll(base, lost), kept), truth)
    ensures SameView(x, truth) <==> Covers(base, lost, kept)
  {
    RightIff(x, base, lost, kept, truth);
  }

  /** Where the last usable segment ends on `t` itself there is nothing to fold. */
  /** Some purged transactions are missing in the middle. */
  lemma WrongWhenKept(d: Durable, t: nat, m: nat, p: nat, j: nat)
    requires Consistent(d) && p == Purged(d) && m < p < j
    requires m == |UpTo(Flatten(d.log), UsedEnd(d, t))| && j == |UpTo(Flatten(d.log), t)|
    ensures Wrong(d, t) <==> Misled(d, t)
  {
    var all := Flatten(d.log);
    assert j <= |all| && (RestoredAt(d, t).Some? <==> all[j - 1].txid == t) by {
      CandidateEnds(d, t);
      UpToSplits(0, all, t);
    }
    CandidateRightIff(d, t, m, p, j);
  }

  /** Nothing is left behind the segments, and they do not reach the target. */
  lemma CutOffSegments(d: Durable, t: nat)
    requires Consistent(d) && UsedEnd(d, t) != t && Purged(d) >= |UpTo(Flatten(d.log), t)|
    ensures Candidate(d, t).txid < t
  {
    CandidateEnds(d, t);
    CandidateIs(d, t);
  }

  lemma ExactSegmentRight(d: Durable, t: nat)
    requires Consistent(d) && UsedEnd(d, t) == t
    ensures SameView(Candidate(d, t), ApplyAll(Empty, UpTo(Flatten(d.log), t)))
  {
    var all := Flatten(d.log);
    CandidateIs(d, t);
    var k := Usable(d.manifest.segments, t);
    assert SameView(MergeSegments(d.bucket, d.manifest.segments, k),
                    ApplyAll(Empty, UpTo(all, EndOf(d.manifest.segments, k))));
    var m := |UpTo(all, t)|;
    assert all[m..m] == [];
  }

  /** Point-in-time restore, exactly: an answer is wrong if and only if the purge reached above the last usable segment
      but not past `t`, a transaction carries the id `t`, and some page written by the purged transactions in between is
      neither rewritten by the retained ones nor the same in the segments. Only the id of the last transaction is
      checked. */
  lemma RestoreAtWrongIff(d: Durable, t: nat)
    requires Consistent(d)
    ensures Wrong(d, t) <==> Misled(d, t)
  {
    var all, p := Flatten(d.log), Purged(d);
    var m, j := |UpTo(all, UsedEnd(d, t))|, |UpTo(all, t)|;
    if p <= m {
      CandidateView(d, t);
    } else if p < j {
      WrongWhenKept(d, t, m, p, j);
    } else if UsedEnd(d, t) == t {
      ExactSegmentRight(d, t);
    } else {
      CutOffSegments(d, t);
    }
  }

  /** How it arises: one coalesced segment reaching past `t`, over a log whose beginning an earlier checkpoint purged.
      The restore to the last of the `kept` transactions then answers with an image that lacks pages of the `lost` ones.
      */
  lemma CoalescedAfterPurgeMisleads(d: Durable, lost: seq<Delta>, kept: seq<Delta>, rest: seq<Delta>)
    requires Consistent(d) && |d.manifest.segments| == 1 && Flatten(d.log) == lost + kept + rest
    requires lost != [] && kept != [] && Purged(d) == |lost| && d.manifest.segments[0].txidEnd > LastTxid(kept)
    requires !Covers(Empty, lost, kept)
    ensures Wrong(d, LastTxid(kept))
  {
    var all, t := Flatten(d.log), LastTxid(kept);
    assert Usable(d.manifest.segments, t) == 0;
    UpToNone(0, all);
    CutAtKept(all, lost, kept, rest);
    assert all[0..|lost|] == lost && all[|lost|..|lost| + |kept|] == kept;
    RestoreAtWrongIff(d, t);
  }

  lemma CutAtKept(all: seq<Delta>, lost: seq<Delta>, kept: seq<Delta>, rest: seq<Delta>)
    requires Numbered(0, all) && all == lost + kept + rest && kept != []
    ensures |UpTo(all, LastTxid(kept))| == |lost| + |kept| && all[|lost| + |kept| - 1].txid == LastTxid(kept)
  {
    var n := |lost| + |kept|;
    assert all[n - 1] == kept[|kept| - 1];
    UpToSplits(0, all, LastTxid(kept));
    assert n < |all| ==> all[n - 1].txid < all[n].txid;
  }
}
