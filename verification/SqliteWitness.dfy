/** Runs of the replication machine, from its start, that end in a state some promise does not cover. */
module SqliteWitness {
  import opened Prelude
  import opened SqliteTypes
  import opened SqliteImage
  import opened SqliteStore
  import opened SqliteCheckpoint
  import opened SqliteRuns
  import opened SqliteRestore
  import opened SqliteFailure
  import opened SqliteLoss
  import opened SqliteRanges

  /** A handle that can take a checkpoint right away. */
  ghost predicate Ready(ops: seq<Op>, w: World, limit: nat) {
    Run(ops, limit) == Some(w) && w.phase.Idle? && !w.broken && w.pending.txidStart.Some?
      && w.store.manifest.retire == []
  }

  /** The first half of a checkpoint: the segment is uploaded. */
  lemma Upload(ops: seq<Op>, w: World, path: string, limit: nat) returns (ops': seq<Op>, w': World)
    requires Ready(ops, w, limit) && path !in w.store.bucket
    ensures Run(ops', limit) == Some(w')
    ensures w' == w.(phase := Sealed(Seal(w.pending), path), pending := EmptyBuilder,
                     store := w.store.(bucket := w.store.bucket[path := Seal(w.pending)]))
  {
    RunInv(ops, limit);
    RunSnoc(ops, Begin, limit, w);
    var w1 := Step(w, Begin, limit);
    RunSnoc(ops + [Begin], PutSegment(path), limit, w1);
    ops' := ops + [Begin] + [PutSegment(path)];
    w' := Step(w1, PutSegment(path), limit);
  }

  /** A checkpoint that extends the manifest, purges up to `floor` and finishes. */
  lemma Extended(
    ops: seq<Op>, w: World, path: string, key: nat, floor: nat, limit: nat) returns (ops': seq<Op>, w': World)
    requires Ready(ops, w, limit) && path !in w.store.bucket && |w.store.manifest.segments| < limit
             && floor <= |w.store.log|
    requires Found(w.store, key)
    ensures Run(ops', limit) == Some(w') && w'.phase.Idle? && !w'.broken && w'.pending == EmptyBuilder
            && w'.image == w.image
    ensures w'.tidy == w.tidy
    ensures w'.store == w.store.(
              bucket := w.store.bucket[path := Seal(w.pending)], covered := |w.store.log|, floor :=
                Max(w.store.floor, floor), key := key,
              manifest := Manifest(w.store.manifest.segments + [RefOf(Seal(w.pending), path)], []))
  {
    var up, w2 := Upload(ops, w, path, limit);
    RunInv(up, limit);
    RunSnoc(up, Extend, limit, w2);
    var w3 := Step(w2, Extend, limit);
    RunInv(up + [Extend], limit);
    RunSnoc(up + [Extend], Publish(key), limit, w3);
    var w4 := Step(w3, Publish(key), limit);
    RunInv(up + [Extend] + [Publish(key)], limit);
    RunSnoc(up + [Extend] + [Publish(key)], Purge(floor), limit, w4);
    var w5 := Step(w4, Purge(floor), limit);
    RunInv(up + [Extend] + [Publish(key)] + [Purge(floor)], limit);
    RunSnoc(up + [Extend] + [Publish(key)] + [Purge(floor)], Finish, limit, w5);
    ops' := up + [Extend] + [Publish(key)] + [Purge(floor)] + [Finish];
    w' := Step(w5, Finish, limit);
  }

  /** What coalescing and publishing an uploaded segment leaves. */
  ghost predicate Merged(w: World, w': World, path: string, merged: string, key: nat) {
    && w'.store.log == w.store.log && w'.store.floor == w.store.floor && w'.store.key == key
    && |w'.store.manifest.segments| == 1 && w'.store.manifest.segments[0].txidEnd == w.pending.txidEnd
    && w'.store.manifest.retire == PathList(w.store.manifest.segments) + [path]
    && w'.store.bucket.Keys == w.store.bucket.Keys + {path, merged}
    && w'.phase.Purging? && w'.tidy == w.tidy && !w'.broken && w'.image == w.image && w'.pending == EmptyBuilder
  }

  lemma MergedNow(w: World, w2: World, path: string, merged: string, key: nat, limit: nat)
    requires SegmentsExist(w2.store.bucket, w2.store.manifest.segments) && Feasible(w2, Coalesce(merged), limit)
    requires w.pending.txidStart.Some? && !w.broken && w.store.manifest.retire == [] && Found(w.store, key)
    requires w2 == w.(phase := Sealed(Seal(w.pending), path), pending := EmptyBuilder,
                      store := w.store.(bucket := w.store.bucket[path := Seal(w.pending)]))
    ensures var w3 := Step(w2, Coalesce(merged), limit);
            && Feasible(w3, Publish(key), limit)
            && (SegmentsExist(w3.store.bucket, w3.store.manifest.segments) ==>
                  Merged(w, Step(w3, Publish(key), limit), path, merged, key))
  {
  }

  /** A checkpoint that coalesces the manifest into one segment, up to its publication. */
  lemma Coalesced(
    ops: seq<Op>, w: World, path: string, merged: string, key: nat, limit: nat) returns (ops': seq<Op>, w': World)
    requires Ready(ops, w, limit) && path !in w.store.bucket && merged !in w.store.bucket && path != merged
    requires |w.store.manifest.segments| >= limit && Found(w.store, key)
    ensures Run(ops', limit) == Some(w') && Merged(w, w', path, merged, key)
  {
    var up, w2 := Upload(ops, w, path, limit);
    RunInv(up, limit);
    RunSnoc(up, Coalesce(merged), limit, w2);
    MergedNow(w, w2, path, merged, key, limit);
    var w3 := Step(w2, Coalesce(merged), limit);
    RunInv(up + [Coalesce(merged)], limit);
    RunSnoc(up + [Coalesce(merged)], Publish(key), limit, w3);
    ops' := up + [Coalesce(merged)] + [Publish(key)];
    w' := Step(w3, Publish(key), limit);
  }

  /** One transaction captured and appended. */
  lemma OneSync(ops: seq<Op>, w: World, d: Delta, limit: nat) returns (ops': seq<Op>, w': World)
    requires Run(ops, limit) == Some(w) && w.phase.Idle? && !w.broken
    requires d.txid > w.image.txid && WritesExposed(w.image.dbSize, d)
    ensures Run(ops', limit) == Some(w') && w'.phase.Idle? && !w'.broken
    ensures w'.image.txid == d.txid && w'.image.dbSize == d.dbSize && w'.tidy == w.tidy
    ensures w'.store == w.store.(log := w.store.log + [[d]]) && w'.pending == Build(w.pending, d)
  {
    RunInv(ops, limit);
    CanSyncOne(w.image, d);
    OneDelta(w.image, w.pending, d);
    RunSnoc(ops, Sync([d], false, [[d]]), limit, w);
    ops' := ops + [Sync([d], false, [[d]])];
    w' := Step(w, Sync([d], false, [[d]]), limit);
  }

  // ---- a point-in-time restore that answers with the wrong image ----

  function ThirdTx(pageSize: nat, c: Bytes): Delta { Delta(3, pageSize, 2, [Frame(2, c)]) }

  lemma Started(limit: nat)
    ensures Run([], limit) == Some(Start)
  {
  }

  /** The first transaction, captured. */
  lemma FirstSynced(pageSize: nat, a: Bytes, limit: nat) returns (ops: seq<Op>, w: World)
    ensures Run(ops, limit) == Some(w) && w.phase.Idle? && !w.broken && w.image.txid == 1 && w.image.dbSize == 1
            && w.tidy
    ensures w.store == Fresh.(log := [[FirstTx(pageSize, a)]]) && w.pending == Build(EmptyBuilder, FirstTx(pageSize, a))
  {
    var d1 := FirstTx(pageSize, a);
    assert WritesPage(d1, 1) by { assert d1.pages[0].pgno == 1; }
    Started(limit);
    ops, w := OneSync([], Start, d1, limit);
    assert Fresh.log + [[d1]] == [[d1]];
  }

  /** The same, sealed and purged. */
  lemma FirstPurged(pageSize: nat, a: Bytes, path: string, key: nat) returns (ops: seq<Op>, w: World)
    ensures Run(ops, 1) == Some(w) && w.phase.Idle? && !w.broken && w.image.txid == 1 && w.image.dbSize == 1
    ensures w.store.log == [[FirstTx(pageSize, a)]] && w.store.floor == 1 && w.store.key == key
            && w.pending == EmptyBuilder
    ensures |w.store.manifest.segments| == 1 && w.store.manifest.retire == [] && w.store.bucket.Keys == {path}
  {
    var o1, w1 := FirstSynced(pageSize, a, 1);
    ops, w := Extended(o1, w1, path, key, 1, 1);
  }

  lemma TwoMore(ops: seq<Op>, w: World, x: Delta, y: Delta, limit: nat) returns (ops': seq<Op>, w': World)
    requires Run(ops, limit) == Some(w) && w.phase.Idle? && !w.broken && w.pending == EmptyBuilder
    requires w.image.txid < x.txid < y.txid && WritesExposed(w.image.dbSize, x) && WritesExposed(x.dbSize, y)
    ensures Run(ops', limit) == Some(w') && w'.phase.Idle? && !w'.broken
    ensures w'.store == w.store.(log := w.store.log + [[x]] + [[y]])
    ensures w'.pending.txidStart.Some? && w'.pending.txidEnd == y.txid
  {
    var o1, w1 := OneSync(ops, w, x, limit);
    ops', w' := OneSync(o1, w1, y, limit);
  }

  /** One transaction, a checkpoint that purges it, two more, and a checkpoint that coalesces. */
  lemma MisleadingRun(
    pageSize: nat, a: Bytes, b: Bytes, c: Bytes, p: string, q: string, r: string, key: nat)
    returns (ops: seq<Op>, w: World)
    requires p != q && p != r && q != r
    ensures Run(ops, 1) == Some(w)
    ensures w.store.log == [[FirstTx(pageSize, a)]] + [[SecondTx(pageSize, b)]] + [[ThirdTx(pageSize, c)]]
            && w.store.floor == 1
    ensures |w.store.manifest.segments| == 1 && w.store.manifest.segments[0].txidEnd == 3
  {
    var d2, d3 := SecondTx(pageSize, b), ThirdTx(pageSize, c);
    assert WritesPage(d2, 2) by { assert d2.pages[0].pgno == 2; }
    var o2, w2 := FirstPurged(pageSize, a, p, key);
    var o4, w4 := TwoMore(o2, w2, d2, d3, 1);
    ops, w := Coalesced(o4, w4, q, r, key, 1);
  }

  lemma ThreeEvents(d1: Delta, d2: Delta, d3: Delta)
    ensures Flatten([[d1]] + [[d2]] + [[d3]]) == [d1] + [d2] + [d3]
    ensures ([[d1]] + [[d2]] + [[d3]])[..1] == [[d1]] && Flatten([[d1]]) == [d1]
  {
    OneDelta(Empty, EmptyBuilder, d1);
    OneDelta(Empty, EmptyBuilder, d2);
    OneDelta(Empty, EmptyBuilder, d3);
    FlattenConcat([[d1]], [[d2]]);
    FlattenConcat([[d1]] + [[d2]], [[d3]]);
  }

  /** After that run a restore to transaction 2 answers, and its answer lacks the page that transaction 1 wrote. */
  lemma RestoreAtWrongInRun(pageSize: nat, a: Bytes, b: Bytes, c: Bytes, p: string, q: string, r: string, key: nat)
    returns (ops: seq<Op>, w: World)
    requires p != q && p != r && q != r
    ensures Run(ops, 1) == Some(w) && SegmentsExist(w.store.bucket, w.store.manifest.segments) && Wrong(w.store, 2)
  {
    var d1, d2, d3 := FirstTx(pageSize, a), SecondTx(pageSize, b), ThirdTx(pageSize, c);
    ops, w := MisleadingRun(pageSize, a, b, c, p, q, r, key);
    RunInv(ops, 1);
    ThreeEvents(d1, d2, d3);
    NotCovered(pageSize, a, b);
    CoalescedAfterPurgeMisleads(w.store, [d1], [d2], [d3]);
  }

  // ---- a checkpoint that readers do not find ----

  /** Transaction 3 rewrites the first page only. */
  function RewriteTx(pageSize: nat, c: Bytes): Delta { Delta(3, pageSize, 2, [Frame(1, c)]) }

  /** A checkpoint published under a key that is too small: readers keep what they had, and the builder is gone. */
  lemma Hidden(ops: seq<Op>, w: World, path: string, key: nat, limit: nat) returns (ops': seq<Op>, w': World)
    requires Ready(ops, w, limit) && path !in w.store.bucket && |w.store.manifest.segments| < limit
             && !Found(w.store, key)
    ensures Run(ops', limit) == Some(w') && w'.phase.Idle? && w'.broken && w'.pending == EmptyBuilder
            && w'.image == w.image
    ensures w'.store == w.store.(bucket := w.store.bucket[path := Seal(w.pending)])
  {
    var up, w2 := Upload(ops, w, path, limit);
    RunInv(up, limit);
    RunSnoc(up, Extend, limit, w2);
    var w3 := Step(w2, Extend, limit);
    RunInv(up + [Extend], limit);
    RunSnoc(up + [Extend], Publish(key), limit, w3);
    var w4 := Step(w3, Publish(key), limit);
    RunInv(up + [Extend] + [Publish(key)], limit);
    RunSnoc(up + [Extend] + [Publish(key)], Finish, limit, w4);
    ops' := up + [Extend] + [Publish(key)] + [Finish];
    w' := Step(w4, Finish, limit);
  }

  /** One more transaction on a handle that has lost its builder. */
  lemma BrokenSync(ops: seq<Op>, w: World, lost: seq<Delta>, d: Delta, limit: nat) returns (ops': seq<Op>, w': World)
    requires Run(ops, limit) == Some(w) && w.phase.Idle? && w.store.covered <= |w.store.log| && Holds(w, lost, [])
    requires d.txid > w.image.txid && WritesExposed(w.image.dbSize, d)
    ensures Run(ops', limit) == Some(w') && w'.phase.Idle?
    ensures w'.store == w.store.(log := w.store.log + [[d]]) && Holds(w', lost, [d])
  {
    RunInv(ops, limit);
    CanSyncOne(w.image, d);
    RunSnoc(ops, Sync([d], false, [[d]]), limit, w);
    HoldsAfterSync(w, [d], false, [[d]], lost, []);
    assert [] + [d] == [d];
    ops' := ops + [Sync([d], false, [[d]])];
    w' := Step(w, Sync([d], false, [[d]]), limit);
  }

  /** Two checkpoints, the second under a smaller key, and another transaction. */
  lemma HidingFront(pageSize: nat, a: Bytes, b: Bytes, p: string, q: string, first: nat, second: nat, limit: nat)
    returns (ops: seq<Op>, w: World)
    requires p != q && second < first && limit > 1
    ensures Run(ops, limit) == Some(w) && w.phase.Idle? && w.image.txid == 2 && w.image.dbSize == 2
    ensures w.store.covered <= |w.store.log| && Holds(w, [SecondTx(pageSize, b)], [])
    ensures w.store.manifest == Manifest([RefOf(Seal(Build(EmptyBuilder, FirstTx(pageSize, a))), p)], [])
            && w.store.key == first
    ensures w.store.bucket.Keys == {p, q} && w.store.bucket[p] == Seal(Build(EmptyBuilder, FirstTx(pageSize, a)))
  {
    var d1, d2 := FirstTx(pageSize, a), SecondTx(pageSize, b);
    assert WritesPage(d2, 2) by { assert d2.pages[0].pgno == 2; }
    var o1, w1 := FirstSynced(pageSize, a, limit);
    var o2, w2 := Extended(o1, w1, p, first, 0, limit);
    var o3, w3 := OneSync(o2, w2, d2, limit);
    ops, w := Hidden(o3, w3, q, second, limit);
    OneDelta(Empty, EmptyBuilder, d2);
    assert w.store.log[1..] == [[d2]];
    assert [d2] + [] == [d2];
  }

  lemma RewriteNotCovered(pageSize: nat, a: Bytes, b: Bytes, c: Bytes, base: Image)
    requires base.pages == map[1 := a]
    ensures !Covers(base, [SecondTx(pageSize, b)], [RewriteTx(pageSize, c)])
  {
    var d2, d3 := SecondTx(pageSize, b), RewriteTx(pageSize, c);
    OneDelta(base, EmptyBuilder, d2);
    OneDelta(base, EmptyBuilder, d3);
    OneFrame(map[], Frame(2, b));
    OneFrame(map[], Frame(1, c));
    var page: nat := 2;
    assert page in BuildAll([d2]).pages && page !in BuildAll([d3]).pages && page <= SizeAfter(base.dbSize, [d3]);
    assert Get(base.pages, page) == None;
  }

  lemma FirstBase(pageSize: nat, a: Bytes, bucket: map<string, Ltx>, p: string)
    requires p in bucket && bucket[p] == Seal(Build(EmptyBuilder, FirstTx(pageSize, a)))
    ensures var refs := [RefOf(bucket[p], p)];
            SegmentsExist(bucket, refs) && MergeSegments(bucket, refs, 1).pages == map[1 := a]
  {
    var refs := [RefOf(bucket[p], p)];
    assert SegmentsExist(bucket, refs);
    assert MergeSegments(bucket, refs, 0) == Empty;
    OneDelta(Empty, EmptyBuilder, FirstTx(pageSize, a));
    OneFrame(map[], Frame(1, a));
    SealMerges(Empty, [FirstTx(pageSize, a)]);
  }

  /** A run from the start: a checkpoint under one key, a transaction, a checkpoint under a smaller key, another
      transaction. The next checkpoint that readers find restores to a database without the page of the transaction in
      between. */
  lemma HiddenCheckpointLosesInRun(
    pageSize: nat, a: Bytes, b: Bytes, c: Bytes, p: string, q: string, r: string, first: nat, second: nat, third: nat,
      limit: nat)
    returns (ops: seq<Op>, w: World, end: World)
    requires p != q && p != r && q != r && second < first <= third && limit > 1
    ensures Run(ops, limit) == Some(w) && SegmentsExist(w.store.bucket, w.store.manifest.segments)
    ensures Checkpointed(w, r, Extend, [], third, limit) == Some(end)
    ensures SegmentsExist(end.store.bucket, end.store.manifest.segments)
    ensures !SameView(RestoredImage(end.store), ApplyAll(Empty, w.truth))
  {
    var d2, d3 := SecondTx(pageSize, b), RewriteTx(pageSize, c);
    var front, w1 := HidingFront(pageSize, a, b, p, q, first, second, limit);
    ops, w := BrokenSync(front, w1, [d2], d3, limit);
    RunInv(ops, limit);
    end := CheckpointCompletes(w, [d3], r, third, limit);
    FailedCheckpointHealsIff(w, [d2], [d3], r, Extend, [], third, limit, end);
    FirstBase(pageSize, a, w.store.bucket, p);
    RewriteNotCovered(pageSize, a, b, c, BaseImage(w.store));
  }

  // ---- retired objects that are gone before a newer manifest is durable ----

  /** A transaction, a checkpoint, and another transaction. */
  lemma OneSegment(pageSize: nat, a: Bytes, b: Bytes, p: string, key: nat) returns (ops: seq<Op>, w: World)
    ensures Ready(ops, w, 1) && w.tidy && w.image.txid == 2 && w.image.dbSize == 2
    ensures PathList(w.store.manifest.segments) == [p] && w.store.bucket.Keys == {p} && w.store.key == key
  {
    var d2 := SecondTx(pageSize, b);
    assert WritesPage(d2, 2) by { assert d2.pages[0].pgno == 2; }
    var o1, w1 := FirstSynced(pageSize, a, 1);
    var o2, w2 := Extended(o1, w1, p, key, 0, 1);
    ops, w := OneSync(o2, w2, d2, 1);
  }

  /** The same, and a checkpoint that coalesces both. */
  lemma RetiringFront(
    pageSize: nat, a: Bytes, b: Bytes, p: string, q: string, r: string, key: nat) returns (ops: seq<Op>, w: World)
    requires p != q && p != r && q != r
    ensures Run(ops, 1) == Some(w) && w.phase.Idle? && !w.broken && w.tidy && w.image.txid == 2 && w.image.dbSize == 2
    ensures |w.store.manifest.segments| == 1 && w.store.manifest.retire == [p, q] && w.store.bucket.Keys == {p, q, r}
    ensures w.pending == EmptyBuilder
  {
    var o3, w3 := OneSegment(pageSize, a, b, p, key);
    assert |PathList(w3.store.manifest.segments)| == 1;
    var o4, w4 := Coalesced(o3, w3, q, r, key, 1);
    RunInv(o4, 1);
    RunSnoc(o4, Finish, 1, w4);
    ops, w := o4 + [Finish], Step(w4, Finish, 1);
    assert [p] + [q] == [p, q];
  }

  /** The next checkpoint, up to its first deletion. */
  lemma NextSwap(ops: seq<Op>, w: World, path: string, merged: string) returns (ops': seq<Op>, w': World)
    requires Run(ops, 1) == Some(w) && w.phase.Idle? && !w.broken && w.tidy && w.pending.txidStart.Some?
    requires |w.store.manifest.segments| == 1 && FreshPath(w.store, path) && FreshPath(w.store, merged)
             && path != merged
    ensures Run(ops', 1) == Some(w') && w'.phase.Swapping? && w'.phase.todo == w.store.manifest.retire && w'.tidy
    ensures w'.store.manifest == w.store.manifest
  {
    RunInv(ops, 1);
    RunSnoc(ops, Begin, 1, w);
    var w1 := Step(w, Begin, 1);
    RunSnoc(ops + [Begin], PutSegment(path), 1, w1);
    var w2 := Step(w1, PutSegment(path), 1);
    RunInv(ops + [Begin] + [PutSegment(path)], 1);
    RunSnoc(ops + [Begin] + [PutSegment(path)], Coalesce(merged), 1, w2);
    ops', w' := ops + [Begin] + [PutSegment(path)] + [Coalesce(merged)], Step(w2, Coalesce(merged), 1);
  }

  /** Both deletions succeed. */
  lemma TwoDeleted(ops: seq<Op>, w: World, p: string, q: string) returns (ops': seq<Op>, w': World)
    requires Run(ops, 1) == Some(w) && w.phase.Swapping? && w.phase.todo == [p, q] && w.tidy
    ensures Run(ops', 1) == Some(w') && w'.phase.Swapping? && w'.phase.todo == [] && w'.tidy
            && w'.store.manifest == w.store.manifest
  {
    RunInv(ops, 1);
    RunSnoc(ops, Delete(true), 1, w);
    var w1 := Step(w, Delete(true), 1);
    assert w1.phase.todo == [q];
    RunInv(ops + [Delete(true)], 1);
    RunSnoc(ops + [Delete(true)], Delete(true), 1, w1);
    ops', w' := ops + [Delete(true)] + [Delete(true)], Step(w1, Delete(true), 1);
  }

  /** A run without failures: the manifest that readers find retires two objects, no newer manifest has been published,
      and both objects are gone. */
  lemma RetiredGoneInRun(
    pageSize: nat, a: Bytes, b: Bytes, c: Bytes, p: string, q: string, r: string, x: string, y: string, key: nat)
    returns (ops: seq<Op>, w: World)
    requires p != q && p != r && q != r && x !in {p, q, r} && y !in {p, q, r} && x != y
    ensures Run(ops, 1) == Some(w) && w.tidy && Allowed(w, Publish(key), 1)
    ensures w.store.manifest.retire == [p, q] && p !in w.store.bucket && q !in w.store.bucket
  {
    var front, w0 := RetiringFront(pageSize, a, b, p, q, r, key);
    var o1, w1 := OneSync(front, w0, ThirdTx(pageSize, c), 1);
    var o2, w2 := NextSwap(o1, w1, x, y);
    ops, w := TwoDeleted(o2, w2, p, q);
    RetiredGoneBeforeSuccessor(ops, key, 1, p);
    RetiredGoneBeforeSuccessor(ops, key, 1, q);
  }

  // ---- gaps between ranges, and folds that leave none ----

  lemma FoldSync(ops: seq<Op>, w: World, x: Delta, y: Delta, limit: nat) returns (ops': seq<Op>, w': World)
    requires Run(ops, limit) == Some(w) && w.phase.Idle? && !w.broken
    requires Numbered(w.image.txid, [x, y]) && Growing(w.image.dbSize, [x, y])
    ensures ops' == ops + [Sync([x, y], true, [[FoldBatch([x, y])]])]
    ensures Run(ops', limit) == Some(w') && w'.phase.Idle? && !w'.broken
    ensures w'.store == w.store.(log := w.store.log + [[FoldBatch([x, y])]])
            && w'.pending == Build(w.pending, FoldBatch([x, y]))
  {
    var d := FoldBatch([x, y]);
    RunInv(ops, limit);
    OneDelta(w.image, w.pending, d);
    RunSnoc(ops, Sync([x, y], true, [[d]]), limit, w);
    ops' := ops + [Sync([x, y], true, [[d]])];
    w' := Step(w, Sync([x, y], true, [[d]]), limit);
  }

  lemma TwoGrow(size: nat, x: Delta, y: Delta)
    requires WritesExposed(size, x) && WritesExposed(x.dbSize, y)
    ensures Growing(size, [x, y])
  {
    assert [x, y][..1] == [x];
    OneDelta(Empty, EmptyBuilder, x);
  }

  /** A single coalesced sync of two transactions and a checkpoint: the first segment starts at 2. */
  lemma FoldedFirstLeavesGap(
    pageSize: nat, a: Bytes, b: Bytes, path: string, limit: nat) returns (ops: seq<Op>, w: World)
    requires limit > 0
    ensures Run(ops, limit) == Some(w)
    ensures |w.store.manifest.segments| == 1 && w.store.manifest.segments[0].txidStart == 2
            && !Contiguous(w.store.manifest.segments)
  {
    var d1, d2 := FirstTx(pageSize, a), SecondTx(pageSize, b);
    assert WritesPage(d1, 1) by { assert d1.pages[0].pgno == 1; }
    assert WritesPage(d2, 2) by { assert d2.pages[0].pgno == 2; }
    TwoGrow(0, d1, d2);
    Started(limit);
    var o1, w1 := FoldSync([], Start, d1, d2, limit);
    ops, w := Extended(o1, w1, path, 0, 0, limit);
  }

  /** The same fold behind another transaction leaves no gap: folding several transactions is not by itself enough. */
  lemma FoldedLaterLeavesNone(
    pageSize: nat, a: Bytes, b: Bytes, c: Bytes, path: string, limit: nat) returns (ops: seq<Op>, w: World)
    requires limit > 0
    ensures Run(ops, limit) == Some(w) && SomeFoldsTo(ops, 3)
    ensures |w.store.manifest.segments| == 1 && w.store.manifest.segments[0].txidEnd == 3
            && Contiguous(w.store.manifest.segments)
  {
    var o2, w2 := FoldedBehind(pageSize, a, b, c, limit);
    ops, w := ExtendedKeepsFolds(o2, w2, path, 0, limit);
  }

  lemma FoldedBehind(pageSize: nat, a: Bytes, b: Bytes, c: Bytes, limit: nat) returns (ops: seq<Op>, w: World)
    ensures Ready(ops, w, limit) && SomeFoldsTo(ops, 3)
    ensures w.store.manifest.segments == [] && w.store.bucket == map[] && w.store.key == 0
    ensures w.pending.txidStart == Some(1) && w.pending.txidEnd == 3
  {
    var d2, d3 := SecondTx(pageSize, b), ThirdTx(pageSize, c);
    assert WritesPage(d2, 2) by { assert d2.pages[0].pgno == 2; }
    var o1, w1 := FirstSynced(pageSize, a, limit);
    TwoGrow(1, d2, d3);
    ops, w := FoldSync(o1, w1, d2, d3, limit);
    var fold := Sync([d2, d3], true, [[FoldBatch([d2, d3])]]);
    assert FoldsTo(fold, 3);
    FoldsSnoc(o1, fold, 3);
  }

  lemma ExtendedKeepsFolds(
    ops: seq<Op>, w: World, path: string, key: nat, limit: nat) returns (ops': seq<Op>, w': World)
    requires Ready(ops, w, limit) && path !in w.store.bucket && |w.store.manifest.segments| < limit
             && Found(w.store, key)
    ensures Run(ops', limit) == Some(w')
    ensures w'.store.manifest.segments == w.store.manifest.segments + [RefOf(Seal(w.pending), path)]
    ensures forall x: nat :: SomeFoldsTo(ops, x) ==> SomeFoldsTo(ops', x)
  {
    RunInv(ops, limit);
    RunSnoc(ops, Begin, limit, w);
    var w1 := Step(w, Begin, limit);
    RunSnoc(ops + [Begin], PutSegment(path), limit, w1);
    var w2 := Step(w1, PutSegment(path), limit);
    RunInv(ops + [Begin] + [PutSegment(path)], limit);
    RunSnoc(ops + [Begin] + [PutSegment(path)], Extend, limit, w2);
    var w3 := Step(w2, Extend, limit);
    RunInv(ops + [Begin] + [PutSegment(path)] + [Extend], limit);
    RunSnoc(ops + [Begin] + [PutSegment(path)] + [Extend], Publish(key), limit, w3);
    ops' := ops + [Begin] + [PutSegment(path)] + [Extend] + [Publish(key)];
    w' := Step(w3, Publish(key), limit);
    forall x: nat | SomeFoldsTo(ops, x) ensures SomeFoldsTo(ops', x) {
      FoldsSnoc(ops, Begin, x);
      FoldsSnoc(ops + [Begin], PutSegment(path), x);
      FoldsSnoc(ops + [Begin] + [PutSegment(path)], Extend, x);
      FoldsSnoc(ops + [Begin] + [PutSegment(path)] + [Extend], Publish(key), x);
    }
  }
}
