/**
 A checkpoint that fails on a handle that stays open: its builder is gone, and the next checkpoint of the same handle
 seals only what was synced since.
 */
module SqliteFailure {
  import opened Prelude
  import opened SqliteTypes
  import opened SqliteImage
  import opened SqliteStore
  import opened SqliteCheckpoint
  import opened SqliteRuns
  import opened SqliteLoss

  // ---- what the builder of such a handle holds ----

  /** The window is `lost` and then `recent`, and the builder holds just the latter. */
  predicate Holds(w: World, lost: seq<Delta>, recent: seq<Delta>)
    requires w.store.covered <= |w.store.log|
  {
    Window(w.store) == lost + recent && w.pending == BuildAll(recent)
  }

  /** After a failed checkpoint the builder holds some last part of the window. */
  ghost predicate BuilderOk(w: World) {
    w.store.covered <= |w.store.log| && (w.phase.Idle? && w.broken ==> exists lost, recent :: Holds(w, lost, recent))
  }

  lemma WindowAfter(s: Durable, events: seq<seq<Delta>>)
    requires s.covered <= |s.log|
    ensures Window(s.(log := s.log + events)) == Window(s) + Flatten(events)
  {
    assert (s.log + events)[s.covered..] == s.log[s.covered..] + events;
    FlattenConcat(s.log[s.covered..], events);
  }

  lemma HoldsAfterSync(
    w: World, deltas: seq<Delta>, coalesce: bool, events: seq<seq<Delta>>, lost: seq<Delta>, recent: seq<Delta>)
    requires w.store.covered <= |w.store.log| && Holds(w, lost, recent) && CanSync(w.image, deltas, coalesce, events)
    ensures Holds(Synced(w, deltas, coalesce, events), lost, recent + Appended(deltas, coalesce))
  {
    WindowAfter(w.store, events);
    BuildOnAll(recent, Appended(deltas, coalesce));
    ConcatAssociates(lost, recent, Appended(deltas, coalesce));
  }

  lemma SyncBuilder(w: World, deltas: seq<Delta>, coalesce: bool, events: seq<seq<Delta>>)
    requires BuilderOk(w) && w.phase.Idle? && CanSync(w.image, deltas, coalesce, events)
    ensures BuilderOk(Synced(w, deltas, coalesce, events))
  {
    if w.broken {
      var lost, recent :| Holds(w, lost, recent);
      HoldsAfterSync(w, deltas, coalesce, events, lost, recent);
    }
  }

  lemma EmptyHolds(w: World)
    requires w.store.covered <= |w.store.log| && (w.phase.Idle? && w.broken ==> w.pending == EmptyBuilder)
    ensures BuilderOk(w)
  {
    assert Window(w.store) + [] == Window(w.store);
    assert w.broken && w.phase.Idle? ==> Holds(w, Window(w.store), []);
  }

  lemma StepBuilder(w: World, op: Op, limit: nat)
    requires Inv(w) && BuilderOk(w) && Allowed(w, op, limit)
    ensures BuilderOk(Step(w, op, limit))
  {
    match op
    case Sync(deltas, coalesce, events) => SyncBuilder(w, deltas, coalesce, events);
    case Abort => EmptyHolds(Step(w, op, limit));
    case Finish => EmptyHolds(Step(w, op, limit));
    case _ =>
  }

  /** In every run: a handle that has lost its builder has rebuilt a last part of the window, the part synced since. */
  lemma {:induction false} RunBuilder(ops: seq<Op>, limit: nat)
    requires Run(ops, limit).Some?
    ensures Inv(Run(ops, limit).value) && BuilderOk(Run(ops, limit).value)
  {
    RunInv(ops, limit);
    if ops != [] {
      RunBuilder(ops[..|ops| - 1], limit);
      StepBuilder(Run(ops[..|ops| - 1], limit).value, ops[|ops| - 1], limit);
    }
  }

  // ---- the next checkpoint of that handle ----

  /** The deletions of a checkpoint, each of which may fail. */
  function Deleted(w: World, oks: seq<bool>, limit: nat): Option<World>
    requires SegmentsExist(w.store.bucket, w.store.manifest.segments)
  {
    if oks == [] then Some(w)
    else
      var before := Deleted(w, oks[..|oks| - 1], limit);
      var op := Delete(oks[|oks| - 1]);
      if before.Some? && Feasible(before.value, op, limit)
        && SegmentsExist(before.value.store.bucket, before.value.store.manifest.segments)
      then Some(Step(before.value, op, limit)) else None
  }

  /** A whole checkpoint up to its publication under `key`; `swap` extends the manifest or coalesces it. */
  function Checkpointed(w: World, path: string, swap: Op, oks: seq<bool>, key: nat, limit: nat): Option<World>
    requires SegmentsExist(w.store.bucket, w.store.manifest.segments)
  {
    if !Feasible(w, Begin, limit) then None
    else
      var w1 := Step(w, Begin, limit);
      if !Feasible(w1, PutSegment(path), limit) then None
      else
        var w2 := Step(w1, PutSegment(path), limit);
        if !(swap.Extend? || swap.Coalesce?) || !Feasible(w2, swap, limit)
           || !SegmentsExist(w2.store.bucket, w2.store.manifest.segments) then None
        else
          var w3 := Step(w2, swap, limit);
          if !SegmentsExist(w3.store.bucket, w3.store.manifest.segments) then None
          else
            var w4 := Deleted(w3, oks, limit);
            if w4.Some? && Feasible(w4.value, Publish(key), limit)
              && SegmentsExist(w4.value.store.bucket, w4.value.store.manifest.segments)
            then Some(Step(w4.value, Publish(key), limit)) else None
  }

  /** The manifest about to be published shows `goal`, and nothing it names is on the delete list. */
  ghost predicate Poised(w: World, goal: Image) {
    && w.phase.Swapping? && w.store.floor <= |w.store.log|
    && SegmentsExist(w.store.bucket, w.phase.next.segments) && Kept(w.phase.next.segments, w.phase.todo)
    && SameView(MergeSegments(w.store.bucket, w.phase.next.segments, |w.phase.next.segments|), goal)
  }

  lemma PoisedDelete(w: World, ok: bool, goal: Image, limit: nat)
    requires Poised(w, goal) && Feasible(w, Delete(ok), limit)
             && SegmentsExist(w.store.bucket, w.store.manifest.segments)
    ensures Poised(Step(w, Delete(ok), limit), goal)
  {
    var next, todo := w.phase.next, w.phase.todo;
    var w' := Step(w, Delete(ok), limit);
    assert todo[0] in todo;
    forall i | 0 <= i < |next.segments|
      ensures Get(w'.store.bucket, next.segments[i].path) == Get(w.store.bucket, next.segments[i].path) {
      assert next.segments[i].path !in todo;
    }
    BucketFrame(w.store.bucket, w'.store.bucket, next.segments, |next.segments|);
    assert forall p :: p in todo[1..] ==> p in todo;
  }

  lemma {:induction false} PoisedDeletes(w: World, oks: seq<bool>, goal: Image, limit: nat)
    requires Poised(w, goal) && SegmentsExist(w.store.bucket, w.store.manifest.segments) && Deleted(w, oks, limit).Some?
    ensures Poised(Deleted(w, oks, limit).value, goal)
  {
    if oks != [] {
      PoisedDeletes(w, oks[..|oks| - 1], goal, limit);
      PoisedDelete(Deleted(w, oks[..|oks| - 1], limit).value, oks[|oks| - 1], goal, limit);
    }
  }

  lemma PoisedPublish(w: World, goal: Image, key: nat, limit: nat)
    requires Poised(w, goal) && Feasible(w, Publish(key), limit) && Found(w.store, key)
             && SegmentsExist(w.store.bucket, w.store.manifest.segments)
    ensures var s := Step(w, Publish(key), limit).store;
            SegmentsExist(s.bucket, s.manifest.segments) && SameView(RestoredImage(s), goal)
  {
    var s := Step(w, Publish(key), limit).store;
    assert Backlog(s) == [];
    assert Flatten(Backlog(s)) == [];
  }

  /** The state once the segment is uploaded. */
  ghost predicate Uploaded(w: World, base: Image, recent: seq<Delta>) {
    && w.phase.Sealed? && w.store.floor <= |w.store.log| && recent != []
    && SegmentsExist(w.store.bucket, w.store.manifest.segments) && BaseImage(w.store) == base
    && Kept(w.store.manifest.segments, w.store.manifest.retire)
    && w.phase.path in w.store.bucket && w.phase.path !in w.store.manifest.retire
    && BuildAll(recent).txidStart.Some? && w.phase.ltx == Seal(BuildAll(recent))
       && w.store.bucket[w.phase.path] == w.phase.ltx
  }

  lemma PoisedExtend(w: World, base: Image, recent: seq<Delta>, limit: nat)
    requires Uploaded(w, base, recent) && Feasible(w, Extend, limit)
    ensures Poised(Step(w, Extend, limit), ApplyAll(base, recent))
  {
    var prior, ref, bucket := w.store.manifest.segments, RefOf(w.phase.ltx, w.phase.path), w.store.bucket;
    assert SegmentsExist(bucket, prior + [ref]);
    MergePrefix(bucket, prior, [ref], |prior|);
    SealMerges(base, recent);
    SameViewReflexive(ApplyAll(base, recent));
  }

  lemma SingleShows(bucket: map<string, Ltx>, ref: SegmentRef, goal: Image)
    requires ref.path in bucket && ref == RefOf(bucket[ref.path], ref.path)
             && SameView(Merge(Empty, bucket[ref.path]), goal)
    ensures SegmentsExist(bucket, [ref]) && SameView(MergeSegments(bucket, [ref], 1), goal)
  {
    assert MergeSegments(bucket, [ref], 0) == Empty;
    assert MergeSegments(bucket, [ref], 1) == Merge(Empty, bucket[ref.path]);
  }

  lemma MergedShows(s: Durable, ltx: Ltx, base: Image, recent: seq<Delta>)
    requires SegmentsExist(s.bucket, s.manifest.segments) && BaseImage(s) == base && recent != []
    requires BuildAll(recent).txidStart.Some? && ltx == Seal(BuildAll(recent))
    ensures SameView(Merge(Empty, MergedLtx(s, ltx)), ApplyAll(base, recent))
  {
    SealMerges(base, recent);
    MergedLtxShows(s, ltx);
    TruncatedSameView(ApplyAll(base, recent));
  }

  lemma PoisedCoalesce(w: World, base: Image, recent: seq<Delta>, path: string, limit: nat)
    requires Uploaded(w, base, recent) && Feasible(w, Coalesce(path), limit)
    ensures Poised(Step(w, Coalesce(path), limit), ApplyAll(base, recent))
  {
    var merged := MergedLtx(w.store, w.phase.ltx);
    var ref := RefOf(merged, path);
    MergedShows(w.store, w.phase.ltx, base, recent);
    SingleShows(w.store.bucket[path := merged], ref, ApplyAll(base, recent));
    assert Step(w, Coalesce(path), limit).phase.next.segments == [ref];
  }

  lemma UploadedNow(w: World, path: string, recent: seq<Delta>, limit: nat)
    requires Inv(w) && Feasible(w, Begin, limit) && Feasible(Step(w, Begin, limit), PutSegment(path), limit)
    requires w.pending == BuildAll(recent)
    ensures Uploaded(Step(Step(w, Begin, limit), PutSegment(path), limit), BaseImage(w.store), recent)
  {
    var w2 := Step(Step(w, Begin, limit), PutSegment(path), limit);
    BuilderIsFold(Empty, recent);
    BucketFrame(w.store.bucket, w2.store.bucket, w.store.manifest.segments, |w.store.manifest.segments|);
  }

  /** `t` is `s` but for objects that its manifest does not name; nothing the manifest names is doomed. */
  ghost predicate Standing(s: Durable, t: Durable, doomed: seq<string>) {
    && t == s.(bucket := t.bucket) && SegmentsExist(s.bucket, s.manifest.segments) && Kept(s.manifest.segments, doomed)
    && forall i :: 0 <= i < |s.manifest.segments| ==>
         Get(t.bucket, s.manifest.segments[i].path) == Get(s.bucket, s.manifest.segments[i].path)
  }

  lemma StandingDelete(s: Durable, w: World, ok: bool, limit: nat)
    requires w.phase.Swapping? && Standing(s, w.store, w.phase.todo) && Feasible(w, Delete(ok), limit)
    requires SegmentsExist(w.store.bucket, w.store.manifest.segments)
    ensures Step(w, Delete(ok), limit).phase.Swapping?
    ensures Standing(s, Step(w, Delete(ok), limit).store, Step(w, Delete(ok), limit).phase.todo)
  {
    var todo := w.phase.todo;
    assert todo[0] in todo && forall p :: p in todo[1..] ==> p in todo;
  }

  lemma {:induction false} StandingDeletes(s: Durable, w: World, oks: seq<bool>, limit: nat)
    requires w.phase.Swapping? && Standing(s, w.store, w.phase.todo)
             && SegmentsExist(w.store.bucket, w.store.manifest.segments)
    requires Deleted(w, oks, limit).Some?
    ensures Deleted(w, oks, limit).value.phase.Swapping?
    ensures Standing(s, Deleted(w, oks, limit).value.store, Deleted(w, oks, limit).value.phase.todo)
  {
    if oks != [] {
      StandingDeletes(s, w, oks[..|oks| - 1], limit);
      StandingDelete(s, Deleted(w, oks[..|oks| - 1], limit).value, oks[|oks| - 1], limit);
    }
  }

  lemma StandingSwap(w: World, path: string, swap: Op, limit: nat)
    requires Inv(w) && Feasible(w, Begin, limit) && Feasible(Step(w, Begin, limit), PutSegment(path), limit)
    requires var w2 := Step(Step(w, Begin, limit), PutSegment(path), limit);
             && (swap.Extend? || swap.Coalesce?) && Feasible(w2, swap, limit)
             && SegmentsExist(w2.store.bucket, w2.store.manifest.segments)
    ensures var w3 := Step(Step(Step(w, Begin, limit), PutSegment(path), limit), swap, limit);
            w3.phase.Swapping? && Standing(w.store, w3.store, w3.phase.todo)
  {
  }

  lemma StandingRestores(s: Durable, t: Durable, doomed: seq<string>)
    requires Standing(s, t, doomed)
    ensures SegmentsExist(t.bucket, t.manifest.segments) && RestoredImage(t) == RestoredImage(s)
  {
    BucketFrame(s.bucket, t.bucket, s.manifest.segments, |s.manifest.segments|);
  }

  /** The state right before a checkpoint publishes. */
  function BeforePublish(w: World, path: string, swap: Op, oks: seq<bool>, key: nat, limit: nat): World
    requires SegmentsExist(w.store.bucket, w.store.manifest.segments)
             && Checkpointed(w, path, swap, oks, key, limit).Some?
  {
    Deleted(Step(Step(Step(w, Begin, limit), PutSegment(path), limit), swap, limit), oks, limit).value
  }

  /** Up to its publication a checkpoint changes nothing that readers see. */
  lemma StandingBefore(w: World, path: string, swap: Op, oks: seq<bool>, key: nat, limit: nat)
    requires Inv(w) && Checkpointed(w, path, swap, oks, key, limit).Some?
    ensures var w4 := BeforePublish(w, path, swap, oks, key, limit);
            w4.phase.Swapping? && Standing(w.store, w4.store, w4.phase.todo)
  {
    StandingSwap(w, path, swap, limit);
    StandingDeletes(w.store, Step(Step(Step(w, Begin, limit), PutSegment(path), limit), swap, limit), oks, limit);
  }

  /** A checkpoint that readers do not find never does. */
  lemma HiddenCheckpointShows(w: World, path: string, swap: Op, oks: seq<bool>, key: nat, limit: nat, end: World)
    requires Inv(w) && Checkpointed(w, path, swap, oks, key, limit) == Some(end) && !Found(w.store, key)
    ensures SegmentsExist(end.store.bucket, end.store.manifest.segments)
            && RestoredImage(end.store) == RestoredImage(w.store)
  {
    StandingBefore(w, path, swap, oks, key, limit);
    var w4 := BeforePublish(w, path, swap, oks, key, limit);
    assert end.store == w4.store by { PublishedHidden(w, path, swap, oks, key, limit, end); }
    StandingRestores(w.store, w4.store, w4.phase.todo);
  }

  /** The last step of such a checkpoint leaves the store alone. */
  lemma PublishedHidden(w: World, path: string, swap: Op, oks: seq<bool>, key: nat, limit: nat, end: World)
    requires SegmentsExist(w.store.bucket, w.store.manifest.segments)
    requires Checkpointed(w, path, swap, oks, key, limit) == Some(end)
    requires !Found(BeforePublish(w, path, swap, oks, key, limit).store, key)
    ensures end.store == BeforePublish(w, path, swap, oks, key, limit).store
  {
  }

  /** Whichever way the next checkpoint swaps its manifest in, a restore then shows the old manifest with the rebuilt
      part of the window on top. */
  lemma NextCheckpointShows(
    w: World, recent: seq<Delta>, path: string, swap: Op, oks: seq<bool>, key: nat, limit: nat, end: World)
    requires Inv(w) && w.pending == BuildAll(recent) && Checkpointed(w, path, swap, oks, key, limit) == Some(end)
    requires Found(w.store, key)
    ensures SegmentsExist(end.store.bucket, end.store.manifest.segments)
    ensures SameView(RestoredImage(end.store), ApplyAll(BaseImage(w.store), recent))
  {
    var goal := ApplyAll(BaseImage(w.store), recent);
    var w2 := Step(Step(w, Begin, limit), PutSegment(path), limit);
    UploadedNow(w, path, recent, limit);
    var w3 := Step(w2, swap, limit);
    if swap.Extend? {
      PoisedExtend(w2, BaseImage(w.store), recent, limit);
    } else {
      PoisedCoalesce(w2, BaseImage(w.store), recent, swap.path, limit);
    }
    StandingBefore(w, path, swap, oks, key, limit);
    PoisedDeletes(w3, oks, goal, limit);
    PoisedPublish(Deleted(w3, oks, limit).value, goal, key, limit);
  }

  /** The captured transactions, as seen from the manifest: its image, the lost part of the window, the rebuilt part. */
  lemma TruthSplits(w: World, lost: seq<Delta>, recent: seq<Delta>)
    requires Inv(w) && Window(w.store) == lost + recent && recent != []
    ensures SameView(ApplyAll(ApplyAll(BaseImage(w.store), lost), recent), ApplyAll(Empty, w.truth))
  {
    WindowFacts(w.store);
    ApplyAllConcat(BaseImage(w.store), lost, recent);
  }

  /** A failed checkpoint, exactly: when a handle that has rebuilt only the `recent` part of the window takes its next
      checkpoint, extending the manifest or coalescing it, the restore is right if and only if readers do not find that
      checkpoint, or every page that the `lost` part wrote is rewritten by the recent one, or was the same in the old
      manifest all along. */
  lemma FailedCheckpointHealsIff(
    w: World, lost: seq<Delta>, recent: seq<Delta>, path: string, swap: Op, oks: seq<bool>, key: nat, limit: nat,
      end: World)
    requires Inv(w) && Holds(w, lost, recent) && Checkpointed(w, path, swap, oks, key, limit) == Some(end)
    ensures SegmentsExist(end.store.bucket, end.store.manifest.segments)
    ensures SameView(RestoredImage(end.store), ApplyAll(Empty, w.truth))
            <==> !Found(w.store, key) || Covers(BaseImage(w.store), lost, recent)
  {
    if Found(w.store, key) {
      BuilderIsFold(Empty, recent);
      NextCheckpointShows(w, recent, path, swap, oks, key, limit, end);
      TruthSplits(w, lost, recent);
      RightIff(RestoredImage(end.store), BaseImage(w.store), lost, recent, ApplyAll(Empty, w.truth));
    } else {
      HiddenCheckpointShows(w, path, swap, oks, key, limit, end);
      ConsistentRestores(w.store);
    }
  }

  // ---- a publication that readers do not find ----

  /** The purge that follows a publication, as far as the checkpoint reached. */
  function PublishedAndPurged(w: World, key: nat, limit: nat): World
    requires Inv(w) && Feasible(w, Publish(key), limit)
  {
    PublishKeeps(w, key);
    var w1 := Step(w, Publish(key), limit);
    Step(w1, Purge(|w.store.log|), limit)
  }

  /** A checkpoint that purges what it sealed is harmless if and only if readers find it. */
  lemma PublishAndPurgeIff(w: World, key: nat, limit: nat)
    requires Inv(w) && Feasible(w, Publish(key), limit)
    ensures var s := PublishedAndPurged(w, key, limit).store;
            && SegmentsExist(s.bucket, s.manifest.segments)
            && (SameView(RestoredImage(s), ApplyAll(Empty, w.truth)) <==> Found(w.store, key))
  {
    PublishKeeps(w, key);
    var s := PublishedAndPurged(w, key, limit).store;
    assert Backlog(s) == [];
    assert Flatten(Backlog(s)) == [];
    if Found(w.store, key) {
      ConsistentRestores(w.store.(manifest := w.phase.next, covered := |w.store.log|));
    } else {
      WindowFacts(w.store);
      SizeOfImage(Empty, Flatten(w.store.log));
      BaseBehind(w.store);
    }
  }

  /** The manifest ends below the window. */
  lemma BaseBehind(s: Durable)
    requires Consistent(s) && Window(s) != []
    ensures BaseImage(s).txid < LastTxid(Flatten(s.log))
  {
    var n := |s.manifest.segments|;
    WindowFacts(s);
    assert SameView(MergeSegments(s.bucket, s.manifest.segments, n),
                    ApplyAll(Empty, UpTo(Flatten(s.log), EndOf(s.manifest.segments, n))));
    SizeOfImage(Empty, UpTo(Flatten(s.log), EndOf(s.manifest.segments, n)));
    UpToSplits(0, Flatten(s.log), EndOf(s.manifest.segments, n));
  }

  // ---- the shortest run in which it shows ----

  /** Two transactions that grow the database by a page each. */
  function FirstTx(pageSize: nat, a: Bytes): Delta { Delta(1, pageSize, 1, [Frame(1, a)]) }
  function SecondTx(pageSize: nat, b: Bytes): Delta { Delta(2, pageSize, 2, [Frame(2, b)]) }

  lemma RunSnoc(ops: seq<Op>, op: Op, limit: nat, w: World)
    requires Run(ops, limit) == Some(w) && Allowed(w, op, limit)
             && SegmentsExist(w.store.bucket, w.store.manifest.segments)
    ensures Run(ops + [op], limit) == Some(Step(w, op, limit))
  {
    assert (ops + [op])[..|ops|] == ops;
  }

  lemma OneFrame(pages: Pages, f: Frame)
    ensures PutPages(pages, [f]) == pages[f.pgno := f.data]
  {
    assert [f][..0] == [];
  }

  lemma OneDelta(img: Image, b: Builder, d: Delta)
    ensures ApplyAll(img, [d]) == Apply(img, d) && BuildOn(b, [d]) == Build(b, d)
            && BuildAll([d]) == Build(EmptyBuilder, d)
    ensures forall size :: WritesExposed(size, d) ==> Growing(size, [d])
    ensures Flatten([[d]]) == [d]
  {
    assert [d][..0] == [];
    assert [[d]][..0] == [];
    assert Flatten([[d]][..0]) == [];
    assert [] + [d] == [d];
  }

  lemma CanSyncOne(image: Image, d: Delta)
    requires d.txid > image.txid && WritesExposed(image.dbSize, d)
    ensures CanSync(image, [d], false, [[d]])
  {
    OneDelta(image, EmptyBuilder, d);
  }

  /** Sync, and a checkpoint that fails before its upload. */
  lemma FailedRunFront(pageSize: nat, a: Bytes, limit: nat) returns (ops: seq<Op>, w: World)
    ensures Run(ops, limit) == Some(w) && w.phase.Idle? && w.broken && w.pending == EmptyBuilder
    ensures w.store == Fresh.(log := [[FirstTx(pageSize, a)]]) && w.image.txid == 1 && w.image.dbSize == 1
  {
    var d1 := FirstTx(pageSize, a);
    var none: seq<Op> := [];
    assert WritesPage(d1, 1) by { assert d1.pages[0].pgno == 1; }
    CanSyncOne(Empty, d1);
    OneDelta(Empty, EmptyBuilder, d1);
    var w1 := Step(Start, Sync([d1], false, [[d1]]), limit);
    RunSnoc(none, Sync([d1], false, [[d1]]), limit, Start);
    assert w1.store == Fresh.(log := [[d1]]) by { assert [] + [[d1]] == [[d1]]; }
    RunSnoc(none + [Sync([d1], false, [[d1]])], Begin, limit, w1);
    var w2 := Step(w1, Begin, limit);
    ops := none + [Sync([d1], false, [[d1]])] + [Begin] + [Abort];
    RunSnoc(none + [Sync([d1], false, [[d1]])] + [Begin], Abort, limit, w2);
    w := Step(w2, Abort, limit);
  }

  lemma SecondSync(w: World, d1: Delta, d2: Delta)
    requires w.store == Fresh.(log := [[d1]]) && w.pending == EmptyBuilder && CanSync(w.image, [d2], false, [[d2]])
    ensures var w' := Synced(w, [d2], false, [[d2]]);
            && w'.phase == w.phase && w'.broken == w.broken
            && w'.store == Fresh.(log := [[d1]] + [[d2]]) && Holds(w', [d1], [d2])
  {
    OneDelta(w.image, EmptyBuilder, d1);
    OneDelta(w.image, EmptyBuilder, d2);
    assert [[d1]][0..] == [[d1]];
    WindowAfter(w.store, [[d2]]);
  }

  /** The same, and another sync. */
  lemma FailedRunEnds(pageSize: nat, a: Bytes, b: Bytes, limit: nat) returns (ops: seq<Op>, w: World)
    ensures Run(ops, limit) == Some(w) && w.phase.Idle?
    ensures w.store.manifest == Manifest([], []) && w.store.bucket == map[] && w.store.key == 0
    ensures w.store.covered <= |w.store.log| && Holds(w, [FirstTx(pageSize, a)], [SecondTx(pageSize, b)])
  {
    var d1, d2 := FirstTx(pageSize, a), SecondTx(pageSize, b);
    var front, w1 := FailedRunFront(pageSize, a, limit);
    assert WritesPage(d2, 2) by { assert d2.pages[0].pgno == 2; }
    CanSyncOne(w1.image, d2);
    ops := front + [Sync([d2], false, [[d2]])];
    RunSnoc(front, Sync([d2], false, [[d2]]), limit, w1);
    SecondSync(w1, d1, d2);
    w := Step(w1, Sync([d2], false, [[d2]]), limit);
  }

  lemma NotCovered(pageSize: nat, a: Bytes, b: Bytes)
    ensures !Covers(Empty, [FirstTx(pageSize, a)], [SecondTx(pageSize, b)])
  {
    var d1, d2 := FirstTx(pageSize, a), SecondTx(pageSize, b);
    OneDelta(Empty, EmptyBuilder, d1);
    OneDelta(Empty, EmptyBuilder, d2);
    OneFrame(map[], Frame(1, a));
    OneFrame(map[], Frame(2, b));
    var page: nat := 1;
    assert page in BuildAll([d1]).pages && page !in BuildAll([d2]).pages && page <= SizeAfter(0, [d2]);
  }

  /** A run from the start: sync, a failed checkpoint, another sync. The next checkpoint of the handle completes, and
      what it published restores to a database without the first transaction's page. */
  lemma FailedCheckpointLosesInRun(pageSize: nat, a: Bytes, b: Bytes, path: string, key: nat, limit: nat)
    returns (ops: seq<Op>, w: World, end: World)
    requires limit > 0
    ensures Run(ops, limit) == Some(w) && SegmentsExist(w.store.bucket, w.store.manifest.segments)
    ensures Checkpointed(w, path, Extend, [], key, limit) == Some(end)
    ensures SegmentsExist(end.store.bucket, end.store.manifest.segments)
    ensures !SameView(RestoredImage(end.store), ApplyAll(Empty, w.truth))
  {
    ops, w := FailedRunEnds(pageSize, a, b, limit);
    RunInv(ops, limit);
    end := CheckpointCompletes(w, [SecondTx(pageSize, b)], path, key, limit);
    FailedCheckpointHealsIff(w, [FirstTx(pageSize, a)], [SecondTx(pageSize, b)], path, Extend, [], key, limit, end);
    assert BaseImage(w.store) == Empty;
    NotCovered(pageSize, a, b);
  }

  lemma CheckpointCompletes(w: World, recent: seq<Delta>, path: string, key: nat, limit: nat) returns (end: World)
    requires w.phase.Idle? && w.pending == BuildAll(recent) && recent != [] && |w.store.manifest.segments| < limit
    requires SegmentsExist(w.store.bucket, w.store.manifest.segments) && w.store.manifest.retire == []
             && path !in w.store.bucket
    ensures Checkpointed(w, path, Extend, [], key, limit) == Some(end)
  {
    BuilderIsFold(Empty, recent);
    var w1 := Step(w, Begin, limit);
    var w2 := Step(w1, PutSegment(path), limit);
    var w3 := Step(w2, Extend, limit);
    assert Deleted(w3, [], limit) == Some(w3);
    end := Step(w3, Publish(key), limit);
  }
}
