/** The transaction ranges of a manifest: where each segment starts in the log, and when the ranges leave no gap. */
module SqliteRanges {
  import opened Prelude
  import opened SqliteTypes
  import opened SqliteImage
  import opened SqliteStore
  import opened SqliteCheckpoint
  import opened SqliteRuns

  // ---- segments start where the one before ends ----

  /** `end` is a position of the log, and the log goes on with transaction `start`. */
  predicate GoesOn(all: seq<Delta>, end: nat, start: nat) {
    && LastTxid(UpTo(all, end)) == end
    && |UpTo(all, end)| < |all| && all[|UpTo(all, end)|].txid == start
  }

  predicate Aligned(all: seq<Delta>, segments: seq<SegmentRef>) {
    forall i :: 0 <= i < |segments| ==>
      GoesOn(all, EndOf(segments, i), segments[i].txidStart)
        && LastTxid(UpTo(all, segments[i].txidEnd)) == segments[i].txidEnd
  }

  lemma UpToGrows(all: seq<Delta>, added: seq<Delta>, t: nat)
    requires t <= LastTxid(all) && forall i :: 0 <= i < |added| ==> added[i].txid > LastTxid(all)
    ensures UpTo(all + added, t) == UpTo(all, t)
  {
    UpToDropsTail(all, added, t);
  }

  lemma GoesOnGrows(all: seq<Delta>, added: seq<Delta>, end: nat, start: nat)
    requires GoesOn(all, end, start) && end <= LastTxid(all) && forall i :: 0 <= i < |added| ==>
               added[i].txid > LastTxid(all)
    ensures GoesOn(all + added, end, start)
  {
    UpToGrows(all, added, end);
  }

  lemma AlignedGrows(all: seq<Delta>, added: seq<Delta>, segments: seq<SegmentRef>)
    requires Aligned(all, segments) && forall i :: 0 <= i < |added| ==> added[i].txid > LastTxid(all)
    requires forall k :: 0 <= k <= |segments| ==> EndOf(segments, k) <= LastTxid(all)
    ensures Aligned(all + added, segments)
  {
    forall i | 0 <= i < |segments|
      ensures GoesOn(all + added, EndOf(segments, i), segments[i].txidStart)
      ensures LastTxid(UpTo(all + added, segments[i].txidEnd)) == segments[i].txidEnd
    {
      assert EndOf(segments, i) <= LastTxid(all) && EndOf(segments, i + 1) <= LastTxid(all);
      GoesOnGrows(all, added, EndOf(segments, i), segments[i].txidStart);
      UpToGrows(all, added, segments[i].txidEnd);
    }
  }

  /** The segments of the manifest, published or next, are aligned with the log. */
  ghost predicate RangesOk(w: World) {
    && Aligned(Flatten(w.store.log), w.store.manifest.segments)
    && (w.phase.Swapping? ==> Aligned(Flatten(w.store.log), w.phase.next.segments))
  }

  lemma SyncRanges(w: World, deltas: seq<Delta>, coalesce: bool, events: seq<seq<Delta>>)
    requires Inv(w) && RangesOk(w) && w.phase.Idle? && CanSync(w.image, deltas, coalesce, events)
    ensures RangesOk(Synced(w, deltas, coalesce, events))
  {
    var all, segments := Flatten(w.store.log), w.store.manifest.segments;
    FlattenConcat(w.store.log, events);
    ImageFacts(w);
    AppendedFacts(w.image, deltas, coalesce);
    forall k | 0 <= k <= |segments| ensures EndOf(segments, k) <= LastTxid(all) {
      assert SameView(MergeSegments(w.store.bucket, segments, k), ApplyAll(Empty, UpTo(all, EndOf(segments, k))));
    }
    AlignedGrows(all, Flatten(events), segments);
  }

  /** Where the manifest ends, the log goes on with the window. */
  lemma WindowGoesOn(s: Durable)
    requires Consistent(s) && Aligned(Flatten(s.log), s.manifest.segments) && Window(s) != []
    ensures GoesOn(Flatten(s.log), EndOf(s.manifest.segments, |s.manifest.segments|), Window(s)[0].txid)
  {
    var all, n := Flatten(s.log), |s.manifest.segments|;
    LogSplits(s);
    WindowFacts(s);
    if n == 0 {
      UpToNone(0, all);
    }
  }

  lemma AlignedExtend(all: seq<Delta>, prior: seq<SegmentRef>, ref: SegmentRef)
    requires Aligned(all, prior) && GoesOn(all, EndOf(prior, |prior|), ref.txidStart)
    requires LastTxid(UpTo(all, ref.txidEnd)) == ref.txidEnd
    ensures Aligned(all, prior + [ref])
  {
    var segments := prior + [ref];
    forall i | 0 <= i < |segments|
      ensures GoesOn(all, EndOf(segments, i), segments[i].txidStart)
      ensures LastTxid(UpTo(all, segments[i].txidEnd)) == segments[i].txidEnd
    {
      assert EndOf(segments, i) == EndOf(prior, i);
      assert i < |prior| ==> segments[i] == prior[i];
    }
  }

  lemma ExtendAligned(w: World, limit: nat)
    requires Inv(w) && RangesOk(w) && Allowed(w, Extend, limit)
    ensures RangesOk(Step(w, Extend, limit))
  {
    var s := w.store;
    WindowFacts(s);
    SealedFacts(s, w.phase.ltx);
    WindowGoesOn(s);
    AlignedExtend(Flatten(s.log), s.manifest.segments, RefOf(w.phase.ltx, w.phase.path));
  }

  lemma AlignedSingle(all: seq<Delta>, ref: SegmentRef)
    requires GoesOn(all, 0, ref.txidStart) && LastTxid(UpTo(all, ref.txidEnd)) == ref.txidEnd
    ensures Aligned(all, [ref])
  {
    assert EndOf([ref], 0) == 0;
  }

  lemma CoalesceAligned(w: World, path: string, limit: nat)
    requires Inv(w) && RangesOk(w) && Allowed(w, Coalesce(path), limit)
    ensures RangesOk(Step(w, Coalesce(path), limit))
  {
    MergedAligned(w.store, w.phase.ltx, path);
    var w' := Step(w, Coalesce(path), limit);
    assert w'.phase.next.segments == [RefOf(MergedLtx(w.store, w.phase.ltx), path)];
    assert w'.store.manifest == w.store.manifest && w'.store.log == w.store.log;
  }

  /** The merged segment stands for everything up to the end of the window. */
  lemma MergedAligned(s: Durable, ltx: Ltx, path: string)
    requires Consistent(s) && Aligned(Flatten(s.log), s.manifest.segments) && Window(s) != []
    requires BuildAll(Window(s)).txidStart.Some? && ltx == Seal(BuildAll(Window(s)))
    ensures Aligned(Flatten(s.log), [RefOf(MergedLtx(s, ltx), path)])
  {
    WindowFacts(s);
    SealedFacts(s, ltx);
    WindowGoesOn(s);
    if s.manifest.segments != [] {
      assert GoesOn(Flatten(s.log), EndOf(s.manifest.segments, 0), s.manifest.segments[0].txidStart);
    }
    AlignedSingle(Flatten(s.log), RefOf(MergedLtx(s, ltx), path));
  }

  lemma StepRanges(w: World, op: Op, limit: nat)
    requires Inv(w) && RangesOk(w) && Allowed(w, op, limit)
    ensures RangesOk(Step(w, op, limit))
  {
    match op
    case Sync(deltas, coalesce, events) => SyncRanges(w, deltas, coalesce, events);
    case Extend => ExtendAligned(w, limit);
    case Coalesce(path) => CoalesceAligned(w, path, limit);
    case _ =>
  }

  lemma {:induction false} RunRanges(ops: seq<Op>, limit: nat)
    requires Run(ops, limit).Some?
    ensures Inv(Run(ops, limit).value) && RangesOk(Run(ops, limit).value)
  {
    RunInv(ops, limit);
    if ops == [] {
      assert Flatten(Fresh.log) == [];
    } else {
      RunRanges(ops[..|ops| - 1], limit);
      StepRanges(Run(ops[..|ops| - 1], limit).value, ops[|ops| - 1], limit);
    }
  }

  // ---- gaps ----

  /** The ranges leave no gap from transaction 1 on. */
  predicate Contiguous(segments: seq<SegmentRef>) {
    forall i :: 0 <= i < |segments| ==> segments[i].txidStart == EndOf(segments, i) + 1
  }

  /** Transaction `x` of the log stands for several: the number before it does not occur. */
  predicate Jumps(all: seq<Delta>, x: nat) {
    x > 1 && forall i :: 0 <= i < |all| ==> all[i].txid != x - 1
  }

  lemma GoesOnGapless(all: seq<Delta>, end: nat, start: nat)
    requires Numbered(0, all) && GoesOn(all, end, start)
    ensures start == end + 1 <==> !Jumps(all, start)
  {
    UpToSplits(0, all, end);
    var n := |UpTo(all, end)|;
    assert 0 < n ==> all[n - 1].txid == end;
    if start == end + 1 {
      assert end == 0 || all[n - 1].txid == start - 1;
    } else if start > 1 {
      forall i | 0 <= i < |all| ensures all[i].txid != start - 1 {
        assert i < n ==> all[i].txid <= end;
        assert i > n ==> all[n].txid < all[i].txid;
      }
    }
  }

  lemma ContiguousWhenNoJump(all: seq<Delta>, segments: seq<SegmentRef>)
    requires Numbered(0, all) && Aligned(all, segments)
    ensures Contiguous(segments) <==> forall i :: 0 <= i < |segments| ==> !Jumps(all, segments[i].txidStart)
  {
    forall i | 0 <= i < |segments| ensures segments[i].txidStart == EndOf(segments, i) + 1 <==>
      !Jumps(all, segments[i].txidStart) {
      GoesOnGapless(all, EndOf(segments, i), segments[i].txidStart);
    }
  }

  // ---- which transactions jump ----

  /** Transactions numbered one after the other from behind `n`, as capture numbers them. */
  predicate OneByOne(n: nat, deltas: seq<Delta>) {
    forall i :: 0 <= i < |deltas| ==> deltas[i].txid == n + 1 + i
  }

  /** Every sync of the run captured its transactions one by one. */
  predicate Consecutive(ops: seq<Op>, limit: nat) {
    ops == [] ||
    var n := |ops| - 1;
    && Consecutive(ops[..n], limit)
    && (ops[n].Sync? && Run(ops[..n], limit).Some? ==> OneByOne(Run(ops[..n], limit).value.image.txid, ops[n].deltas))
  }

  /** A coalesced sync that folded several transactions into one that carries the last id, `x`. */
  predicate FoldsTo(op: Op, x: nat) {
    op.Sync? && op.coalesce && |op.deltas| > 1 && LastTxid(op.deltas) == x
  }

  predicate SomeFoldsTo(ops: seq<Op>, x: nat) {
    exists k :: 0 <= k < |ops| && FoldsTo(ops[k], x)
  }

  /** In the log, exactly the folded batches jump. */
  ghost predicate JumpsAreFolds(all: seq<Delta>, ops: seq<Op>) {
    && (forall i :: 0 <= i < |all| ==> (Jumps(all, all[i].txid) <==> SomeFoldsTo(ops, all[i].txid)))
    && (forall x: nat :: SomeFoldsTo(ops, x) ==> x <= LastTxid(all))
  }

  lemma FoldsSnoc(ops: seq<Op>, op: Op, x: nat)
    ensures SomeFoldsTo(ops + [op], x) <==> SomeFoldsTo(ops, x) || FoldsTo(op, x)
  {
    if SomeFoldsTo(ops, x) {
      var k :| 0 <= k < |ops| && FoldsTo(ops[k], x);
      assert (ops + [op])[k] == ops[k];
    }
    if FoldsTo(op, x) {
      assert (ops + [op])[|ops|] == op;
    }
  }

  /** Transactions from behind the last one do not change which of the earlier ones jump. */
  lemma OldJumps(all: seq<Delta>, added: seq<Delta>, x: nat)
    requires x <= LastTxid(all) && forall i :: 0 <= i < |added| ==> added[i].txid > LastTxid(all)
    ensures Jumps(all + added, x) <==> Jumps(all, x)
  {
    if Jumps(all, x) {
      forall i | 0 <= i < |all + added| ensures (all + added)[i].txid != x - 1 {
        assert i >= |all| ==> (all + added)[i] == added[i - |all|];
      }
    }
    if Jumps(all + added, x) {
      forall i | 0 <= i < |all| ensures all[i].txid != x - 1 {
        assert (all + added)[i] == all[i];
      }
    }
  }

  /** Of the transactions a sync appends, exactly a folded batch jumps. */
  lemma NewJumps(all: seq<Delta>, deltas: seq<Delta>, coalesce: bool, k: nat)
    requires Numbered(0, all) && deltas != [] && OneByOne(LastTxid(all), deltas)
    requires k < |Appended(deltas, coalesce)|
    ensures var added := Appended(deltas, coalesce);
            Jumps(all + added, added[k].txid) <==> coalesce && |deltas| > 1
  {
    var added := Appended(deltas, coalesce);
    var joined := all + added;
    if coalesce && |deltas| > 1 {
      forall i | 0 <= i < |joined| ensures joined[i].txid != added[k].txid - 1 {
        if i < |all| { assert i < |all| - 1 ==> all[i].txid < all[|all| - 1].txid; }
      }
    } else if k > 0 {
      assert joined[|all| + k - 1] == added[k - 1];
    } else if all != [] {
      assert joined[|all| - 1] == all[|all| - 1];
    }
  }

  lemma SyncJumps(all: seq<Delta>, ops: seq<Op>, op: Op)
    requires Numbered(0, all) && JumpsAreFolds(all, ops) && op.Sync? && op.deltas != []
             && OneByOne(LastTxid(all), op.deltas)
    ensures JumpsAreFolds(all + Appended(op.deltas, op.coalesce), ops + [op])
  {
    var added := Appended(op.deltas, op.coalesce);
    var joined := all + added;
    forall i | 0 <= i < |added| ensures added[i].txid > LastTxid(all) {
    }
    forall i | 0 <= i < |joined| ensures Jumps(joined, joined[i].txid) <==> SomeFoldsTo(ops + [op], joined[i].txid) {
      FoldsSnoc(ops, op, joined[i].txid);
      if i < |all| {
        assert i < |all| - 1 ==> all[i].txid < all[|all| - 1].txid;
        OldJumps(all, added, all[i].txid);
      } else {
        NewJumps(all, op.deltas, op.coalesce, i - |all|);
      }
    }
    forall x: nat | SomeFoldsTo(ops + [op], x) ensures x <= LastTxid(joined) {
      FoldsSnoc(ops, op, x);
    }
  }

  lemma {:induction false} RunJumps(ops: seq<Op>, limit: nat)
    requires Run(ops, limit).Some? && Consecutive(ops, limit)
    ensures JumpsAreFolds(Flatten(Run(ops, limit).value.store.log), ops)
  {
    if ops == [] {
      assert Flatten(Fresh.log) == [];
    } else {
      var n := |ops| - 1;
      RunJumps(ops[..n], limit);
      RunInv(ops[..n], limit);
      JumpsNext(ops[..n], ops[n], limit);
      assert ops == ops[..n] + [ops[n]];
    }
  }

  lemma JumpsNext(ops: seq<Op>, op: Op, limit: nat)
    requires Run(ops, limit).Some? && Inv(Run(ops, limit).value) && Allowed(Run(ops, limit).value, op, limit)
    requires JumpsAreFolds(Flatten(Run(ops, limit).value.store.log), ops)
    requires op.Sync? ==> OneByOne(Run(ops, limit).value.image.txid, op.deltas)
    ensures Run(ops + [op], limit).Some? && JumpsAreFolds(Flatten(Run(ops + [op], limit).value.store.log), ops + [op])
  {
    assert (ops + [op])[..|ops|] == ops;
    StepJumps(Run(ops, limit).value, ops, op, limit);
  }

  lemma StepJumps(w: World, ops: seq<Op>, op: Op, limit: nat)
    requires Inv(w) && JumpsAreFolds(Flatten(w.store.log), ops) && Allowed(w, op, limit)
    requires op.Sync? ==> OneByOne(w.image.txid, op.deltas)
    ensures JumpsAreFolds(Flatten(Step(w, op, limit).store.log), ops + [op])
  {
    var all := Flatten(w.store.log);
    if op.Sync? {
      ImageFacts(w);
      FlattenConcat(w.store.log, op.events);
      SyncJumps(all, ops, op);
    } else {
      OtherJumps(all, ops, op);
      assert Step(w, op, limit).store.log == w.store.log;
    }
  }

  lemma OtherJumps(all: seq<Delta>, ops: seq<Op>, op: Op)
    requires JumpsAreFolds(all, ops) && !op.Sync?
    ensures JumpsAreFolds(all, ops + [op])
  {
    forall x: nat ensures SomeFoldsTo(ops + [op], x) <==> SomeFoldsTo(ops, x) {
      FoldsSnoc(ops, op, x);
    }
  }

  /** Manifest ranges, exactly: over every run, the ranges are contiguous from transaction 1 on if and only if no
      segment of the manifest begins with a batch that a coalesced sync folded. */
  lemma ContiguousIff(ops: seq<Op>, limit: nat)
    requires Run(ops, limit).Some? && Consecutive(ops, limit)
    ensures var segments := Run(ops, limit).value.store.manifest.segments;
            Contiguous(segments) <==> forall i :: 0 <= i < |segments| ==> !SomeFoldsTo(ops, segments[i].txidStart)
  {
    RunRanges(ops, limit);
    RunJumps(ops, limit);
    var all, segments := Flatten(Run(ops, limit).value.store.log), Run(ops, limit).value.store.manifest.segments;
    ContiguousWhenNoJump(all, segments);
    forall i | 0 <= i < |segments| ensures Jumps(all, segments[i].txidStart) <==>
      SomeFoldsTo(ops, segments[i].txidStart) {
      assert GoesOn(all, EndOf(segments, i), segments[i].txidStart);
    }
  }

  /** So they are when no sync ever folded several transactions. */
  lemma ContiguousWithoutFolding(ops: seq<Op>, limit: nat)
    requires Run(ops, limit).Some? && Consecutive(ops, limit)
    requires forall k :: 0 <= k < |ops| && ops[k].Sync? ==> !ops[k].coalesce || |ops[k].deltas| <= 1
    ensures Contiguous(Run(ops, limit).value.store.manifest.segments)
  {
    ContiguousIff(ops, limit);
  }
}
