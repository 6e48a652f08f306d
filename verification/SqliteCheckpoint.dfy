/**
 The write handle's life as a machine of single effects: syncing, each upload, each delete, the publication and each
 purge of a checkpoint are separate steps, so that a crash or a failed call can fall between any two.
 */
module SqliteCheckpoint {
  import opened Prelude
  import opened SqliteTypes
  import opened SqliteImage
  import opened SqliteStore

  /** Where a checkpoint stands. `Sealing`: taken from the builder, not uploaded. `Sealed`: uploaded. `Swapping`: the
      next manifest is ready and the old retire list is being deleted. `Purging`: published, found by readers or not. */
  datatype Phase =
    | Idle
    | Sealing(ltx: Ltx)
    | Sealed(ltx: Ltx, path: string)
    | Swapping(next: Manifest, todo: seq<string>)
    | Purging

  /** `truth` is every transaction captured, before any batch was folded; `broken` says that a checkpoint which failed,
      or which readers do not find, has dropped the builder of a handle still in use; `tidy` that nothing has crashed,
      failed or been left behind. */
  datatype World = World(
    store: Durable, truth: seq<Delta>,
    image: Image, pending: Builder, tail: Option<nat>, phase: Phase,
    broken: bool, tidy: bool)

  const Start := World(Fresh, [], Empty, EmptyBuilder, None, Idle, false, true)

  datatype Op =
    | Sync(deltas: seq<Delta>, coalesce: bool, events: seq<seq<Delta>>)
    | Begin
    | PutSegment(path: string)
    | Extend
    | Coalesce(path: string)
    | Delete(ok: bool)
    | Publish(key: nat)
    | Purge(floor: nat)
    | Finish
    | Abort
    | Reopen

  function TailOf(log: seq<seq<Delta>>): Option<nat> {
    if log == [] then None else Some(|log| - 1)
  }

  /** What a sync appends for the transactions it captured. */
  function Appended(deltas: seq<Delta>, coalesce: bool): seq<Delta> {
    if coalesce && |deltas| > 1 then [FoldBatch(deltas)] else deltas
  }

  function Paths(segments: seq<SegmentRef>): (r: set<string>)
    ensures forall p :: p in r <==> exists i :: 0 <= i < |segments| && segments[i].path == p
  {
    set i | 0 <= i < |segments| :: segments[i].path
  }

  function PathList(segments: seq<SegmentRef>): (r: seq<string>)
    ensures |r| == |segments| && forall i :: 0 <= i < |r| ==> r[i] == segments[i].path
  {
    seq(|segments|, i requires 0 <= i < |segments| => segments[i].path)
  }

  function Elements(paths: seq<string>): (r: set<string>)
    ensures forall p :: p in r <==> p in paths
  {
    set p | p in paths
  }

  /** The segment that replaces the whole manifest: all pages newest-wins, those beyond the database dropped. */
  function MergedLtx(store: Durable, ltx: Ltx): Ltx
    requires SegmentsExist(store.bucket, store.manifest.segments)
  {
    var merged := Truncated(Merge(BaseImage(store), ltx));
    var first := if store.manifest.segments == [] then ltx.txidStart else store.manifest.segments[0].txidStart;
    Ltx(first, ltx.txidEnd, ltx.pageSize, ltx.dbSize, PageList(merged.pages))
  }

  /** Object paths are never reused. */
  predicate FreshPath(s: Durable, path: string) {
    path !in s.bucket && path !in s.manifest.retire
  }

  /** Transactions as a sync captures and packs them. */
  predicate CanSync(image: Image, deltas: seq<Delta>, coalesce: bool, events: seq<seq<Delta>>) {
    && deltas != [] && Numbered(image.txid, deltas) && Growing(image.dbSize, deltas)
    && events != [] && Flatten(events) == Appended(deltas, coalesce)
  }

  /** Which steps can happen. Object paths are fresh; captured transactions are numbered onwards and write the pages
      they expose. `limit` is the coalescing threshold. */
  predicate Feasible(w: World, op: Op, limit: nat) {
    match op
    case Sync(deltas, coalesce, events) => w.phase.Idle? && CanSync(w.image, deltas, coalesce, events)
    case Begin => w.phase.Idle? && w.pending.txidStart.Some?
    case PutSegment(path) => w.phase.Sealing? && FreshPath(w.store, path)
    case Extend => w.phase.Sealed? && |w.store.manifest.segments| + 1 <= limit
    case Coalesce(path) => w.phase.Sealed? && |w.store.manifest.segments| + 1 > limit && FreshPath(w.store, path)
    case Delete(_) => w.phase.Swapping? && w.phase.todo != []
    case Publish(_) => w.phase.Swapping? && w.phase.todo == []
    case Purge(floor) => w.phase.Purging? && floor <= |w.store.log|
    case Finish => w.phase.Purging?
    case Abort => !w.phase.Idle?
    case Reopen => true
  }

  /** Steps of a handle that, having lost its builder in a checkpoint that failed or was not found, is reopened before
      the next one, and that purges only what the manifest readers find covers. */
  predicate Allowed(w: World, op: Op, limit: nat) {
    Feasible(w, op, limit) && (op.Begin? ==> !w.broken) && (op.Purge? ==> op.floor <= w.store.covered)
  }

  function Synced(w: World, deltas: seq<Delta>, coalesce: bool, events: seq<seq<Delta>>): World
    requires CanSync(w.image, deltas, coalesce, events)
  {
    var added := Appended(deltas, coalesce);
    w.(store := w.store.(log := w.store.log + events), truth := w.truth + deltas,
       image := ApplyAll(w.image, added), pending := BuildOn(w.pending, added), tail := TailOf(w.store.log + events))
  }

  function Step(w: World, op: Op, limit: nat): World
    requires Feasible(w, op, limit) && SegmentsExist(w.store.bucket, w.store.manifest.segments)
  {
    var s := w.store;
    match op
    case Sync(deltas, coalesce, events) => Synced(w, deltas, coalesce, events)
    case Begin => w.(phase := Sealing(Seal(w.pending)), pending := EmptyBuilder)
    case PutSegment(path) =>
      w.(phase := Sealed(w.phase.ltx, path), store := s.(bucket := s.bucket[path := w.phase.ltx]))
    case Extend =>
      var next := Manifest(s.manifest.segments + [RefOf(w.phase.ltx, w.phase.path)], []);
      w.(phase := Swapping(next, s.manifest.retire))
    case Coalesce(path) =>
      w.(phase := Swapping(CoalescedManifest(s, w.phase.ltx, w.phase.path, path), s.manifest.retire),
         store := s.(bucket := s.bucket[path := MergedLtx(s, w.phase.ltx)]))
    case Delete(ok) =>
      var w' := w.(phase := w.phase.(todo := w.phase.todo[1..]));
      if ok then w'.(store := s.(bucket := s.bucket - {w.phase.todo[0]})) else w'.(tidy := false)
    case Publish(key) =>
      if Found(s, key) then w.(phase := Purging, store := s.(manifest := w.phase.next, covered := |s.log|, key := key))
      else w.(phase := Purging, broken := true, tidy := false)
    case Purge(floor) => w.(store := s.(floor := Max(s.floor, floor)))
    case Finish => w.(phase := Idle)
    case Abort => w.(phase := Idle, broken := w.broken || !w.phase.Purging?, tidy := w.tidy && w.phase.Purging?)
    case Reopen =>
      w.(image := RestoredImage(s), pending := RestoredBuilder(s), tail := RestoredTail(s),
         phase := Idle, broken := false, tidy := w.tidy && (w.phase.Idle? || w.phase.Purging?))
  }

  /** The builder fed with more transactions. */
  function BuildOn(b: Builder, deltas: seq<Delta>): Builder {
    if deltas == [] then b else Build(BuildOn(b, deltas[..|deltas| - 1]), deltas[|deltas| - 1])
  }

  lemma {:induction false} BuildOnAll(a: seq<Delta>, b: seq<Delta>)
    ensures BuildOn(BuildAll(a), b) == BuildAll(a + b)
    decreases |b|
  {
    if b == [] {
      assert a + b == a;
    } else {
      assert (a + b)[..|a + b| - 1] == a + b[..|b| - 1];
      BuildOnAll(a, b[..|b| - 1]);
    }
  }

  // ---- invariant ----

  /** The window a checkpoint seals: the transactions after the manifest. */
  function Window(s: Durable): seq<Delta>
    requires s.covered <= |s.log|
  {
    Flatten(s.log[s.covered..])
  }

  /** Nothing referenced is on a delete list. */
  predicate Kept(segments: seq<SegmentRef>, doomed: seq<string>) {
    forall i :: 0 <= i < |segments| ==> segments[i].path !in doomed
  }

  ghost predicate PhaseOk(w: World)
    requires Consistent(w.store)
  {
    var s := w.store;
    match w.phase
    case Idle => !w.broken ==> w.pending == BuildAll(Window(s))
    case Sealing(ltx) =>
      && Window(s) != [] && BuildAll(Window(s)).txidStart.Some? && ltx == Seal(BuildAll(Window(s)))
      && !w.broken && w.pending == EmptyBuilder
    case Sealed(ltx, path) =>
      && Window(s) != [] && BuildAll(Window(s)).txidStart.Some? && ltx == Seal(BuildAll(Window(s)))
      && !w.broken && w.pending == EmptyBuilder
      && path in s.bucket && s.bucket[path] == ltx
      && path !in PathList(s.manifest.segments) && path !in s.manifest.retire
    case Swapping(next, todo) =>
      && !w.broken && Window(s) != [] && Kept(next.segments, todo) && Kept(s.manifest.segments, todo)
         && Kept(next.segments, next.retire)
      && Consistent(s.(manifest := next, covered := |s.log|))
      && w.pending == EmptyBuilder
    case Purging => (!w.broken ==> s.covered == |s.log|) && w.pending == EmptyBuilder
  }

  ghost predicate Inv(w: World) {
    && Consistent(w.store)
    && Kept(w.store.manifest.segments, w.store.manifest.retire)
    && ApplyAll(Empty, Flatten(w.store.log)) == ApplyAll(Empty, w.truth)
    && SameView(w.image, ApplyAll(Empty, w.truth))
    && w.tail == TailOf(w.store.log)
    && PhaseOk(w)
  }

  // ---- the steps keep it ----

  /** Objects the manifest does not name do not matter to it. */
  lemma {:induction false} BucketFrame(a: map<string, Ltx>, b: map<string, Ltx>, segments: seq<SegmentRef>, k: nat)
    requires SegmentsExist(a, segments) && k <= |segments|
    requires forall i :: 0 <= i < |segments| ==> Get(b, segments[i].path) == Get(a, segments[i].path)
    ensures SegmentsExist(b, segments)
    ensures MergeSegments(b, segments, k) == MergeSegments(a, segments, k)
  {
    forall i | 0 <= i < |segments|
      ensures segments[i].path in b && segments[i] == RefOf(b[segments[i].path], segments[i].path)
    {
      assert Get(b, segments[i].path) == Get(a, segments[i].path);
    }
    if k > 0 {
      BucketFrame(a, b, segments, k - 1);
      assert Get(b, segments[k - 1].path) == Get(a, segments[k - 1].path);
    }
  }

  lemma ConsistentFrame(s: Durable, bucket: map<string, Ltx>)
    requires Consistent(s)
    requires forall i :: 0 <= i < |s.manifest.segments| ==>
               Get(bucket, s.manifest.segments[i].path) == Get(s.bucket, s.manifest.segments[i].path)
    ensures Consistent(s.(bucket := bucket))
  {
    var segments := s.manifest.segments;
    forall k | 0 <= k <= |segments|
      ensures SegmentsExist(bucket, segments)
              && MergeSegments(bucket, segments, k) == MergeSegments(s.bucket, segments, k)
    {
      BucketFrame(s.bucket, bucket, segments, k);
    }
    assert SegmentsExist(bucket, segments) by { BucketFrame(s.bucket, bucket, segments, 0); }
  }

  lemma ImageFacts(w: World)
    requires Inv(w)
    ensures w.image.txid == LastTxid(Flatten(w.store.log))
    ensures w.image.dbSize == SizeAfter(0, Flatten(w.store.log))
  {
    SizeOfImage(Empty, Flatten(w.store.log));
  }

  lemma AppendedFacts(img: Image, deltas: seq<Delta>, coalesce: bool)
    requires deltas != [] && Numbered(img.txid, deltas) && Growing(img.dbSize, deltas)
    ensures var added := Appended(deltas, coalesce);
            && added != [] && Numbered(img.txid, added) && Growing(img.dbSize, added)
            && ApplyAll(img, added) == ApplyAll(img, deltas)
  {
    if coalesce && |deltas| > 1 {
      FoldBatchWritesExposed(img.dbSize, deltas);
      FoldBatchApplies(img, deltas);
      var added := [FoldBatch(deltas)];
      assert added[..0] == [];
      assert Growing(img.dbSize, added[..0]);
    }
  }

  lemma FoldedAlike(a: Image, deltas: seq<Delta>, coalesce: bool)
    requires deltas != []
    ensures ApplyAll(a, Appended(deltas, coalesce)) == ApplyAll(a, deltas)
  {
    if coalesce && |deltas| > 1 {
      FoldBatchApplies(a, deltas);
      assert [FoldBatch(deltas)][..0] == [];
    }
  }

  /** Later transactions leave what the manifest reproduces as it was. */
  lemma ReproducesAppend(bucket: map<string, Ltx>, segments: seq<SegmentRef>, prior: seq<Delta>, added: seq<Delta>)
    requires SegmentsExist(bucket, segments) && Reproduces(bucket, segments, prior)
    requires forall i :: 0 <= i < |added| ==> added[i].txid > LastTxid(prior)
    ensures Reproduces(bucket, segments, prior + added)
    ensures UpTo(prior + added, EndOf(segments, |segments|)) == UpTo(prior, EndOf(segments, |segments|))
  {
    forall k | 0 <= k <= |segments|
      ensures UpTo(prior + added, EndOf(segments, k)) == UpTo(prior, EndOf(segments, k))
      ensures EndOf(segments, k) <= LastTxid(prior + added)
    {
      assert SameView(MergeSegments(bucket, segments, k), ApplyAll(Empty, UpTo(prior, EndOf(segments, k))));
      UpToDropsTail(prior, added, EndOf(segments, k));
    }
  }

  lemma AppendWellFormed(log: seq<seq<Delta>>, events: seq<seq<Delta>>)
    requires WellFormedLog(log)
    requires Numbered(LastTxid(Flatten(log)), Flatten(events))
    requires Growing(SizeAfter(0, Flatten(log)), Flatten(events))
    ensures WellFormedLog(log + events)
    ensures Flatten(log + events) == Flatten(log) + Flatten(events)
  {
    FlattenConcat(log, events);
    NumberedConcat(0, Flatten(log), Flatten(events));
    GrowingConcat(0, Flatten(log), Flatten(events));
  }

  lemma AppendConsistent(s: Durable, events: seq<seq<Delta>>)
    requires Consistent(s)
    requires Numbered(LastTxid(Flatten(s.log)), Flatten(events))
    requires Growing(SizeAfter(0, Flatten(s.log)), Flatten(events))
    ensures Consistent(s.(log := s.log + events))
  {
    AppendWellFormed(s.log, events);
    assert (s.log + events)[..s.covered] == s.log[..s.covered];
    ReproducesAppend(s.bucket, s.manifest.segments, Flatten(s.log), Flatten(events));
  }

  /** The stream and the captured transactions stay equivalent, folded batch or not. */
  lemma SyncTruth(log: seq<seq<Delta>>, truth: seq<Delta>, deltas: seq<Delta>, coalesce: bool, events: seq<seq<Delta>>)
    requires ApplyAll(Empty, Flatten(log)) == ApplyAll(Empty, truth)
    requires deltas != [] && Flatten(events) == Appended(deltas, coalesce)
    ensures ApplyAll(Empty, Flatten(log + events)) == ApplyAll(Empty, truth + deltas)
    ensures ApplyAll(Empty, truth + deltas) == ApplyAll(ApplyAll(Empty, truth), Appended(deltas, coalesce))
  {
    FlattenConcat(log, events);
    ApplyAllConcat(Empty, Flatten(log), Flatten(events));
    ApplyAllConcat(Empty, truth, deltas);
    FoldedAlike(ApplyAll(Empty, truth), deltas, coalesce);
  }

  lemma SyncWindow(s: Durable, events: seq<seq<Delta>>)
    requires s.covered <= |s.log|
    ensures BuildOn(BuildAll(Window(s)), Flatten(events)) == BuildAll(Window(s.(log := s.log + events)))
  {
    assert (s.log + events)[s.covered..] == s.log[s.covered..] + events;
    FlattenConcat(s.log[s.covered..], events);
    BuildOnAll(Window(s), Flatten(events));
  }

  lemma SyncKeeps(w: World, deltas: seq<Delta>, coalesce: bool, events: seq<seq<Delta>>)
    requires Inv(w) && w.phase.Idle? && CanSync(w.image, deltas, coalesce, events)
    ensures Inv(Synced(w, deltas, coalesce, events))
  {
    var w' := Synced(w, deltas, coalesce, events);
    var added := Appended(deltas, coalesce);
    assert Consistent(w'.store) by {
      ImageFacts(w);
      AppendedFacts(w.image, deltas, coalesce);
      AppendConsistent(w.store, events);
    }
    SyncTruth(w.store.log, w.truth, deltas, coalesce, events);
    assert SameView(w'.image, ApplyAll(Empty, w'.truth)) by {
      AppendedFacts(w.image, deltas, coalesce);
      ApplyAllSameView(w.image, ApplyAll(Empty, w.truth), added);
    }
    assert PhaseOk(w') by {
      SyncWindow(w.store, events);
    }
  }

  lemma WindowNumbers(all: seq<Delta>, sealed: seq<Delta>, window: seq<Delta>, end: nat)
    requires Numbered(0, all) && all == sealed + window && sealed == UpTo(all, end) && window != []
    ensures LastTxid(all) == LastTxid(window) && UpTo(all, LastTxid(window)) == all && UpTo(all, 0) == []
    ensures end < window[0].txid <= LastTxid(window)
  {
    UpToSplits(0, all, end);
    UpToNone(0, all);
    assert window[0] == all[|sealed|] && window[|window| - 1] == all[|all| - 1];
  }

  /** What sealing the window amounts to. */
  lemma WindowFacts(s: Durable)
    requires Consistent(s) && Window(s) != []
    ensures var (all, window, end) := (Flatten(s.log), Window(s), EndOf(s.manifest.segments, |s.manifest.segments|));
            && LastTxid(all) == LastTxid(window) && UpTo(all, LastTxid(window)) == all && UpTo(all, 0) == []
            && end < window[0].txid <= LastTxid(window)
            && SameView(ApplyAll(BaseImage(s), window), ApplyAll(Empty, all))
  {
    LogSplits(s);
    ConsistentRestores(s);
    WindowNumbers(Flatten(s.log), Flatten(s.log[..s.covered]), Window(s),
                  EndOf(s.manifest.segments, |s.manifest.segments|));
  }

  lemma SealedFacts(s: Durable, ltx: Ltx)
    requires Consistent(s) && Window(s) != []
    requires BuildAll(Window(s)).txidStart.Some? && ltx == Seal(BuildAll(Window(s)))
    ensures ltx.txidStart == Window(s)[0].txid && ltx.txidEnd == LastTxid(Window(s))
    ensures Merge(BaseImage(s), ltx) == ApplyAll(BaseImage(s), Window(s))
  {
    SealMerges(BaseImage(s), Window(s));
    BuilderIsFold(BaseImage(s), Window(s));
    SizeOfImage(BaseImage(s), Window(s));
  }

  lemma {:induction false} MergePrefix(
    bucket: map<string, Ltx>, segments: seq<SegmentRef>, more: seq<SegmentRef>, k: nat)
    requires SegmentsExist(bucket, segments) && SegmentsExist(bucket, segments + more) && k <= |segments|
    ensures MergeSegments(bucket, segments + more, k) == MergeSegments(bucket, segments, k)
    ensures EndOf(segments + more, k) == EndOf(segments, k)
  {
    if k > 0 {
      MergePrefix(bucket, segments, more, k - 1);
    }
  }

  lemma ExtendRanges(prior: seq<SegmentRef>, ref: SegmentRef)
    requires OrderedRanges(prior) && EndOf(prior, |prior|) < ref.txidStart <= ref.txidEnd
    ensures OrderedRanges(prior + [ref])
  {
    forall i | 0 <= i < |prior| ensures prior[i].txidEnd < ref.txidStart {
      assert i < |prior| - 1 ==> prior[i].txidEnd < prior[|prior| - 1].txidStart;
    }
  }

  lemma ExtendReproduces(bucket: map<string, Ltx>, prior: seq<SegmentRef>, ref: SegmentRef, all: seq<Delta>)
    requires SegmentsExist(bucket, prior) && Reproduces(bucket, prior, all)
    requires ref.path in bucket && ref == RefOf(bucket[ref.path], ref.path)
    requires ref.txidEnd == LastTxid(all) && UpTo(all, LastTxid(all)) == all
    requires SameView(Merge(MergeSegments(bucket, prior, |prior|), bucket[ref.path]), ApplyAll(Empty, all))
    ensures SegmentsExist(bucket, prior + [ref]) && Reproduces(bucket, prior + [ref], all)
  {
    var segments := prior + [ref];
    assert SegmentsExist(bucket, segments);
    forall k | 0 <= k <= |segments|
      ensures SameView(MergeSegments(bucket, segments, k), ApplyAll(Empty, UpTo(all, EndOf(segments, k))))
      ensures EndOf(segments, k) <= LastTxid(all)
    {
      MergePrefix(bucket, prior, [ref], Min(k, |prior|));
      if k <= |prior| {
        assert SameView(MergeSegments(bucket, prior, k), ApplyAll(Empty, UpTo(all, EndOf(prior, k))));
      }
    }
  }

  /** A manifest extended by the sealed window reproduces the whole log. */
  lemma ExtendConsistent(s: Durable, ltx: Ltx, path: string, retire: seq<string>)
    requires Consistent(s) && Window(s) != []
    requires BuildAll(Window(s)).txidStart.Some? && ltx == Seal(BuildAll(Window(s)))
    requires path in s.bucket && s.bucket[path] == ltx
    ensures Consistent(s.(manifest := Manifest(s.manifest.segments + [RefOf(ltx, path)], retire), covered := |s.log|))
  {
    var ref := RefOf(ltx, path);
    WindowFacts(s);
    SealedFacts(s, ltx);
    ExtendRanges(s.manifest.segments, ref);
    ExtendReproduces(s.bucket, s.manifest.segments, ref, Flatten(s.log));
    PublishConsistent(s, Manifest(s.manifest.segments + [ref], retire));
  }

  lemma MergedLtxShows(s: Durable, ltx: Ltx)
    requires SegmentsExist(s.bucket, s.manifest.segments)
    ensures Merge(Empty, MergedLtx(s, ltx)) == Truncated(Merge(BaseImage(s), ltx))
  {
    var pages := Truncated(Merge(BaseImage(s), ltx)).pages;
    PutPageList(map[], pages);
    assert map[] + pages == pages;
  }

  lemma SingleReproduces(bucket: map<string, Ltx>, ref: SegmentRef, all: seq<Delta>)
    requires ref.path in bucket && ref == RefOf(bucket[ref.path], ref.path)
    requires ref.txidEnd == LastTxid(all) && UpTo(all, LastTxid(all)) == all && UpTo(all, 0) == []
    requires SameView(Merge(Empty, bucket[ref.path]), ApplyAll(Empty, all))
    ensures SegmentsExist(bucket, [ref]) && Reproduces(bucket, [ref], all)
  {
    assert MergeSegments(bucket, [ref], 0) == Empty;
    assert MergeSegments(bucket, [ref], 1) == Merge(Empty, bucket[ref.path]);
  }

  /** The coalesced segment alone shows what the whole manifest and the window showed, up to dropped pages. */
  lemma CoalesceConsistent(s: Durable, ltx: Ltx, path: string, retire: seq<string>)
    requires Consistent(s) && Window(s) != []
    requires BuildAll(Window(s)).txidStart.Some? && ltx == Seal(BuildAll(Window(s)))
    ensures var merged := MergedLtx(s, ltx);
            Consistent(s.(bucket := s.bucket[path := merged], manifest := Manifest([RefOf(merged, path)], retire),
                          covered := |s.log|))
  {
    var merged := MergedLtx(s, ltx);
    var ref, bucket, all := RefOf(merged, path), s.bucket[path := merged], Flatten(s.log);
    WindowFacts(s);
    SealedFacts(s, ltx);
    assert 0 < ref.txidStart <= ref.txidEnd by {
      var n := |s.manifest.segments|;
      assert n > 1 ==> s.manifest.segments[0].txidEnd < s.manifest.segments[n - 1].txidStart;
    }
    assert OrderedRanges([ref]);
    assert SameView(Merge(Empty, merged), ApplyAll(Empty, all)) by {
      MergedLtxShows(s, ltx);
      TruncatedSameView(Merge(BaseImage(s), ltx));
    }
    SingleReproduces(bucket, ref, all);
    PublishConsistent(s.(bucket := bucket), Manifest([ref], retire));
  }

  /** A manifest that reproduces the whole log may be published as covering all of it. */
  lemma PublishConsistent(s: Durable, next: Manifest)
    requires s.floor <= |s.log| && WellFormedLog(s.log)
    requires SegmentsExist(s.bucket, next.segments) && OrderedRanges(next.segments)
    requires Reproduces(s.bucket, next.segments, Flatten(s.log))
    requires EndOf(next.segments, |next.segments|) == LastTxid(Flatten(s.log))
    ensures Consistent(s.(manifest := next, covered := |s.log|))
  {
    assert s.log[..|s.log|] == s.log;
  }

  // ---- every step keeps the invariant ----

  lemma BeginKeeps(w: World)
    requires Inv(w) && w.phase.Idle? && w.pending.txidStart.Some? && !w.broken
    ensures Inv(w.(phase := Sealing(Seal(w.pending)), pending := EmptyBuilder))
  {
    BuilderIsFold(Empty, Window(w.store));
  }

  lemma PutSegmentKeeps(w: World, path: string)
    requires Inv(w) && w.phase.Sealing? && FreshPath(w.store, path)
    ensures Inv(w.(phase := Sealed(w.phase.ltx, path), store :=
                   w.store.(bucket := w.store.bucket[path := w.phase.ltx])))
  {
    ConsistentFrame(w.store, w.store.bucket[path := w.phase.ltx]);
  }

  lemma ExtendKeeps(w: World)
    requires Inv(w) && w.phase.Sealed?
    ensures var next := Manifest(w.store.manifest.segments + [RefOf(w.phase.ltx, w.phase.path)], []);
            Inv(w.(phase := Swapping(next, w.store.manifest.retire)))
  {
    ExtendConsistent(w.store, w.phase.ltx, w.phase.path, []);
  }

  function CoalescedManifest(s: Durable, ltx: Ltx, sealedPath: string, path: string): Manifest
    requires SegmentsExist(s.bucket, s.manifest.segments)
  {
    Manifest([RefOf(MergedLtx(s, ltx), path)], PathList(s.manifest.segments) + [sealedPath])
  }

  lemma CoalesceKeeps(w: World, path: string)
    requires Inv(w) && w.phase.Sealed? && FreshPath(w.store, path)
    ensures var s := w.store;
            Inv(w.(phase := Swapping(CoalescedManifest(s, w.phase.ltx, w.phase.path, path), s.manifest.retire),
                   store := s.(bucket := s.bucket[path := MergedLtx(s, w.phase.ltx)])))
  {
    var s, ltx := w.store, w.phase.ltx;
    var next := CoalescedManifest(s, ltx, w.phase.path, path);
    var bucket := s.bucket[path := MergedLtx(s, ltx)];
    assert Consistent(s.(bucket := bucket)) by {
      ConsistentFrame(s, bucket);
    }
    assert Consistent(s.(bucket := bucket, manifest := next, covered := |s.log|)) by {
      CoalesceConsistent(s, ltx, path, next.retire);
    }
  }

  lemma DeleteKeeps(w: World, ok: bool)
    requires Inv(w) && w.phase.Swapping? && w.phase.todo != []
    ensures var w' := w.(phase := w.phase.(todo := w.phase.todo[1..]));
            var bucket := w.store.bucket - {w.phase.todo[0]};
            Inv(if ok then w'.(store := w.store.(bucket := bucket)) else w'.(tidy := false))
  {
    var s, next, todo := w.store, w.phase.next, w.phase.todo;
    assert todo[0] in todo && forall p :: p in todo[1..] ==> p in todo;
    if ok {
      var bucket := s.bucket - {todo[0]};
      ConsistentFrame(s, bucket);
      ConsistentFrame(s.(manifest := next, covered := |s.log|), bucket);
    }
  }

  lemma PublishKeeps(w: World, key: nat)
    requires Inv(w) && w.phase.Swapping? && w.phase.todo == []
    ensures Inv(w.(phase := Purging, store := w.store.(manifest := w.phase.next, covered := |w.store.log|, key := key)))
    ensures Inv(w.(phase := Purging, broken := true, tidy := false))
    ensures SegmentsExist(w.store.bucket, w.store.manifest.segments)
  {
    KeyFree(w.store.(manifest := w.phase.next, covered := |w.store.log|), key);
  }

  /** The key plays no part in what the manifest shows. */
  lemma KeyFree(s: Durable, key: nat)
    requires Consistent(s)
    ensures Consistent(s.(key := key))
  {
  }

  lemma FinishKeeps(w: World)
    requires Inv(w) && w.phase.Purging?
    ensures Inv(w.(phase := Idle))
  {
    assert !w.broken ==> w.store.log[w.store.covered..] == [];
  }

  lemma ReopenKeeps(w: World, tidy: bool)
    requires Inv(w)
    ensures var s := w.store;
            Inv(w.(image := RestoredImage(s), pending := RestoredBuilder(s), tail := RestoredTail(s),
                   phase := Idle, broken := false, tidy := tidy))
  {
    ConsistentRestores(w.store);
  }

  /** The steps of a checkpoint up to its publication. */
  lemma SealingKeeps(w: World, op: Op, limit: nat)
    requires Inv(w) && Allowed(w, op, limit)
    requires op.Begin? || op.PutSegment? || op.Extend? || op.Coalesce? || op.Delete?
    ensures Inv(Step(w, op, limit))
  {
    match op
    case Begin => BeginKeeps(w);
    case PutSegment(path) => PutSegmentKeeps(w, path);
    case Extend => ExtendKeeps(w);
    case Coalesce(path) => CoalesceKeeps(w, path);
    case Delete(ok) => DeleteKeeps(w, ok);
  }

  lemma PublishStepKeeps(w: World, key: nat, limit: nat)
    requires Inv(w) && Allowed(w, Publish(key), limit)
    ensures Inv(Step(w, Publish(key), limit))
  {
    PublishKeeps(w, key);
  }

  /** The steps behind it. */
  lemma ClosingKeeps(w: World, op: Op, limit: nat)
    requires Inv(w) && Allowed(w, op, limit) && (op.Purge? || op.Finish? || op.Abort? || op.Reopen?)
    ensures Inv(Step(w, op, limit))
  {
    match op
    case Purge(floor) => PurgeKeeps(w, floor);
    case Finish => FinishKeeps(w);
    case Abort => if w.phase.Purging? { FinishKeeps(w); }
    case Reopen => ReopenKeeps(w, w.tidy && (w.phase.Idle? || w.phase.Purging?));
  }

  lemma PurgeKeeps(w: World, floor: nat)
    requires Inv(w) && w.phase.Purging? && floor <= w.store.covered
    ensures Inv(w.(store := w.store.(floor := Max(w.store.floor, floor))))
  {
  }

  lemma StepKeeps(w: World, op: Op, limit: nat)
    requires Inv(w) && Allowed(w, op, limit)
    ensures Inv(Step(w, op, limit))
  {
    match op
    case Sync(deltas, coalesce, events) => SyncKeeps(w, deltas, coalesce, events);
    case Publish(key) => PublishStepKeeps(w, key, limit);
    case Purge(_) => ClosingKeeps(w, op, limit);
    case Finish => ClosingKeeps(w, op, limit);
    case Abort => ClosingKeeps(w, op, limit);
    case Reopen => ClosingKeeps(w, op, limit);
    case _ => SealingKeeps(w, op, limit);
  }
}
