/** What holds over whole runs of the replication machine: restores, point by point, and garbage collection. */
module SqliteRuns {
  import opened Prelude
  import opened SqliteImage
  import opened SqliteFile
  import opened SqliteStore
  import opened SqliteCheckpoint

  /** The world after a run of steps; `None` when one of them could not happen. */
  function Run(ops: seq<Op>, limit: nat): Option<World> {
    if ops == [] then Some(Start)
    else
      var before := Run(ops[..|ops| - 1], limit);
      var op := ops[|ops| - 1];
      if before.Some? && SegmentsExist(before.value.store.bucket, before.value.store.manifest.segments)
         && Allowed(before.value, op, limit)
      then Some(Step(before.value, op, limit)) else None
  }

  lemma StartInv()
    ensures Inv(Start) && Tidy(Start) && Bounded(Start, 0)
  {
    assert Flatten(Fresh.log) == [];
    assert Start.store.log[0..] == [];
    assert Paths([]) == {} && Elements([]) == {};
  }

  lemma {:induction false} RunInv(ops: seq<Op>, limit: nat)
    requires Run(ops, limit).Some?
    ensures Inv(Run(ops, limit).value) && Tidy(Run(ops, limit).value) && Bounded(Run(ops, limit).value, limit)
  {
    if ops == [] {
      StartInv();
    } else {
      RunInv(ops[..|ops| - 1], limit);
      var w, op := Run(ops[..|ops| - 1], limit).value, ops[|ops| - 1];
      StepKeeps(w, op, limit);
      StepTidy(w, op, limit);
      StepBounded(w, op, limit);
    }
  }

  /** Restore equals replay byte for byte: in every state of every run, in the middle of a checkpoint too, all segments
      of the manifest that readers find exist, whatever keys the checkpoints were published under, and the restored
      image serializes to the file of folding every transaction ever captured, although coalescing has dropped pages and
      retention has purged events. */
  lemma RestoreEqualsReplay(ops: seq<Op>, limit: nat)
    requires Run(ops, limit).Some?
    ensures var w := Run(ops, limit).value;
            && SegmentsExist(w.store.bucket, w.store.manifest.segments)
            && RestoredImage(w.store).txid == ApplyAll(Empty, w.truth).txid
            && FileBytes(RestoredImage(w.store)) == FileBytes(ApplyAll(Empty, w.truth))
  {
    RunInv(ops, limit);
    var w := Run(ops, limit).value;
    ConsistentRestores(w.store);
    SameViewSameFile(ApplyAll(Empty, w.truth), RestoredImage(w.store));
  }

  // ---- garbage collection ----

  /** The object paths a state accounts for, each as often as it is listed. */
  function Names(w: World): multiset<string> {
    var m := w.store.manifest;
    match w.phase
    case Sealed(_, path) => multiset(PathList(m.segments)) + multiset(m.retire) + multiset{path}
    case Swapping(next, todo) => multiset(PathList(next.segments)) + multiset(next.retire) + multiset(todo)
    case _ => multiset(PathList(m.segments)) + multiset(m.retire)
  }

  /** While nothing has crashed or failed, the bucket holds exactly the manifest's segments and its retire list, plus
      what the running checkpoint has added and not yet deleted, and no path is listed twice. */
  predicate Tidy(w: World) {
    w.tidy ==> multiset(w.store.bucket.Keys) == Names(w)
  }

  /** The manifest never holds more segments than the coalescing threshold, or one. */
  predicate Bounded(w: World, limit: nat) {
    && |w.store.manifest.segments| <= Max(limit, 1)
    && (w.phase.Swapping? ==> |w.phase.next.segments| <= Max(limit, 1))
  }

  lemma StepBounded(w: World, op: Op, limit: nat)
    requires Bounded(w, limit) && SegmentsExist(w.store.bucket, w.store.manifest.segments) && Allowed(w, op, limit)
    ensures Bounded(Step(w, op, limit), limit)
  {
  }

  lemma PutKeys(bucket: map<string, Ltx>, path: string, l: Ltx)
    requires path !in bucket
    ensures multiset(bucket[path := l].Keys) == multiset(bucket.Keys) + multiset{path}
  {
    assert bucket[path := l].Keys == bucket.Keys + {path};
  }

  lemma DeleteKeys(bucket: map<string, Ltx>, path: string, rest: multiset<string>)
    requires multiset(bucket.Keys) == rest + multiset{path}
    ensures multiset((bucket - {path}).Keys) == rest
  {
    assert (bucket - {path}).Keys == bucket.Keys - {path};
    assert forall p :: rest[p] == multiset(bucket.Keys)[p] - multiset{path}[p];
  }

  lemma ExtendTidy(w: World, limit: nat)
    requires Tidy(w) && Allowed(w, Extend, limit) && SegmentsExist(w.store.bucket, w.store.manifest.segments)
    ensures Tidy(Step(w, Extend, limit))
  {
    var m, ref := w.store.manifest, RefOf(w.phase.ltx, w.phase.path);
    assert PathList(m.segments + [ref]) == PathList(m.segments) + [w.phase.path];
  }

  lemma CoalesceTidy(w: World, path: string, limit: nat)
    requires Tidy(w) && Allowed(w, Coalesce(path), limit) && SegmentsExist(w.store.bucket, w.store.manifest.segments)
    ensures Tidy(Step(w, Coalesce(path), limit))
  {
    CoalesceNames(w, path, limit);
    PutKeys(w.store.bucket, path, MergedLtx(w.store, w.phase.ltx));
  }

  lemma CoalesceNames(w: World, path: string, limit: nat)
    requires Allowed(w, Coalesce(path), limit) && SegmentsExist(w.store.bucket, w.store.manifest.segments)
    ensures var w' := Step(w, Coalesce(path), limit);
            && w'.tidy == w.tidy && w'.store.bucket == w.store.bucket[path := MergedLtx(w.store, w.phase.ltx)]
            && Names(w') == Names(w) + multiset{path}
  {
    var ref := RefOf(MergedLtx(w.store, w.phase.ltx), path);
    SwappingNames(w, Step(w, Coalesce(path), limit), ref);
  }

  lemma SwappingNames(w: World, w': World, ref: SegmentRef)
    requires w.phase.Sealed?
    requires w'.phase
             == Swapping(Manifest([ref], PathList(w.store.manifest.segments) + [w.phase.path]), w.store.manifest.retire)
    ensures Names(w') == Names(w) + multiset{ref.path}
  {
    var m := w.store.manifest;
    CoalescedNames(ref, PathList(m.segments), w.phase.path, m.retire);
  }

  /** The merged segment, the retired ones and what is still to delete. */
  lemma CoalescedNames(ref: SegmentRef, paths: seq<string>, sealed: string, todo: seq<string>)
    ensures multiset(PathList([ref])) + multiset(paths + [sealed]) + multiset(todo)
         == multiset(paths) + multiset(todo) + multiset{sealed} + multiset{ref.path}
  {
    assert PathList([ref]) == [ref.path];
  }

  lemma DeleteTidy(w: World, limit: nat)
    requires Tidy(w) && Allowed(w, Delete(true), limit) && SegmentsExist(w.store.bucket, w.store.manifest.segments)
    ensures Tidy(Step(w, Delete(true), limit))
  {
    var next, todo := w.phase.next, w.phase.todo;
    assert todo == [todo[0]] + todo[1..];
    if w.tidy {
      DeleteKeys(w.store.bucket, todo[0],
                 multiset(PathList(next.segments)) + multiset(next.retire) + multiset(todo[1..]));
    }
  }

  lemma StepTidy(w: World, op: Op, limit: nat)
    requires Tidy(w) && Allowed(w, op, limit) && SegmentsExist(w.store.bucket, w.store.manifest.segments)
    ensures Tidy(Step(w, op, limit))
  {
    match op
    case PutSegment(path) => PutTidy(w, path, limit);
    case Extend => ExtendTidy(w, limit);
    case Coalesce(path) => CoalesceTidy(w, path, limit);
    case Delete(ok) => if ok { DeleteTidy(w, limit); }
    case Publish(key) => PublishTidy(w, key, limit);
    case _ => QuietTidy(w, op, limit);
  }

  lemma PublishTidy(w: World, key: nat, limit: nat)
    requires Tidy(w) && Allowed(w, Publish(key), limit) && SegmentsExist(w.store.bucket, w.store.manifest.segments)
    ensures Tidy(Step(w, Publish(key), limit))
  {
    var none: seq<string> := [];
    assert multiset(none) == multiset{};
  }

  /** Steps that touch neither objects nor manifests. */
  lemma QuietTidy(w: World, op: Op, limit: nat)
    requires Tidy(w) && Allowed(w, op, limit) && SegmentsExist(w.store.bucket, w.store.manifest.segments)
    requires op.Sync? || op.Begin? || op.Purge? || op.Finish? || op.Abort? || op.Reopen?
    ensures Tidy(Step(w, op, limit))
  {
    var w' := Step(w, op, limit);
    assert w'.store.bucket == w.store.bucket && w'.store.manifest == w.store.manifest;
    assert w'.tidy ==> w.tidy && Names(w') == Names(w);
  }

  lemma PutTidy(w: World, path: string, limit: nat)
    requires Tidy(w) && Allowed(w, PutSegment(path), limit) && SegmentsExist(w.store.bucket, w.store.manifest.segments)
    ensures Tidy(Step(w, PutSegment(path), limit))
  {
    PutKeys(w.store.bucket, path, w.phase.ltx);
  }

  /** Generational collection: at every point of every run, crashes and failures included, each segment of the published
      manifest is in the bucket and the manifest is within its bound with ordered, disjoint transaction ranges; and when
      nothing has gone wrong and no checkpoint is running, nothing else is in the bucket but the retire list. */
  lemma CollectionSafe(ops: seq<Op>, limit: nat)
    requires Run(ops, limit).Some?
    ensures var w := Run(ops, limit).value;
            && SegmentsExist(w.store.bucket, w.store.manifest.segments)
            && |w.store.manifest.segments| <= Max(limit, 1)
            && OrderedRanges(w.store.manifest.segments)
            && (w.tidy && w.phase.Idle? ==>
                  multiset(w.store.bucket.Keys)
                    == multiset(PathList(w.store.manifest.segments)) + multiset(w.store.manifest.retire))
  {
    RunInv(ops, limit);
  }

  // ---- how long a replaced manifest can still be restored from ----

  predicate Deletes(op: Op) { op.Delete? && op.ok }

  lemma RunLast(front: seq<Op>, mid: seq<Op>, limit: nat)
    requires mid != [] && Run(front + mid, limit).Some?
    ensures var n := |mid| - 1;
            && Run(front + mid[..n], limit).Some?
            && SegmentsExist(Run(front + mid[..n], limit).value.store.bucket,
                             Run(front + mid[..n], limit).value.store.manifest.segments)
            && Allowed(Run(front + mid[..n], limit).value, mid[n], limit)
            && Run(front + mid, limit) == Some(Step(Run(front + mid[..n], limit).value, mid[n], limit))
  {
    var ops, op := front + mid[..|mid| - 1], mid[|mid| - 1];
    assert front + mid == ops + [op];
    RunUnsnoc(ops, op, limit);
  }

  lemma RunUnsnoc(ops: seq<Op>, op: Op, limit: nat)
    requires Run(ops + [op], limit).Some?
    ensures Run(ops, limit).Some? && Allowed(Run(ops, limit).value, op, limit)
    ensures SegmentsExist(Run(ops, limit).value.store.bucket, Run(ops, limit).value.store.manifest.segments)
    ensures Run(ops + [op], limit) == Some(Step(Run(ops, limit).value, op, limit))
  {
    assert (ops + [op])[..|ops|] == ops;
  }

  /** Nothing but a successful deletion takes an object from the bucket or changes it. */
  lemma StepKeepsObjects(w: World, op: Op, limit: nat, segments: seq<SegmentRef>)
    requires Allowed(w, op, limit) && SegmentsExist(w.store.bucket, w.store.manifest.segments) && !Deletes(op)
    requires SegmentsExist(w.store.bucket, segments)
    ensures SegmentsExist(Step(w, op, limit).store.bucket, segments)
  {
  }

  lemma {:induction false} ObjectsStay(front: seq<Op>, mid: seq<Op>, limit: nat, segments: seq<SegmentRef>)
    requires Run(front, limit).Some? && Run(front + mid, limit).Some? && forall i :: 0 <= i < |mid| ==> !Deletes(mid[i])
    requires SegmentsExist(Run(front, limit).value.store.bucket, segments)
    ensures SegmentsExist(Run(front + mid, limit).value.store.bucket, segments)
    decreases |mid|
  {
    if mid == [] {
      assert front + mid == front;
    } else {
      RunLast(front, mid, limit);
      ObjectsStay(front, mid[..|mid| - 1], limit, segments);
      StepKeepsObjects(Run(front + mid[..|mid| - 1], limit).value, mid[|mid| - 1], limit, segments);
    }
  }

  /** Generations: from the publication that replaces a manifest until the first deletion that succeeds, through any
      number of syncs, failures, crashes and reopenings, every segment of the replaced manifest is still there. */
  lemma PredecessorSurvives(front: seq<Op>, mid: seq<Op>, key: nat, limit: nat)
    requires Run(front, limit).Some? && Run(front + [Publish(key)] + mid, limit).Some?
    requires forall i :: 0 <= i < |mid| ==> !Deletes(mid[i])
    ensures SegmentsExist(Run(front + [Publish(key)] + mid, limit).value.store.bucket,
                          Run(front, limit).value.store.manifest.segments)
  {
    RunInv(front, limit);
    assert front + [Publish(key)] + mid == front + ([Publish(key)] + mid);
    ObjectsStay(front, [Publish(key)] + mid, limit, Run(front, limit).value.store.manifest.segments);
  }

  /** The part of the retire list that is gone, and the part still to be deleted. */
  predicate Drained(w: World, gone: seq<string>) {
    && w.phase.Swapping? && w.store.manifest.retire == gone + w.phase.todo
    && forall q :: q in gone ==> q !in w.store.bucket
  }

  ghost predicate Draining(w: World) {
    w.tidy && w.phase.Swapping? ==> exists gone :: Drained(w, gone)
  }

  lemma DeleteDrains(w: World, limit: nat, gone: seq<string>)
    requires Drained(w, gone) && Allowed(w, Delete(true), limit)
             && SegmentsExist(w.store.bucket, w.store.manifest.segments)
    ensures Drained(Step(w, Delete(true), limit), gone + [w.phase.todo[0]])
  {
    var todo := w.phase.todo;
    assert todo == [todo[0]] + todo[1..];
    assert gone + todo == (gone + [todo[0]]) + todo[1..];
  }

  lemma StepDrains(w: World, op: Op, limit: nat)
    requires Draining(w) && Allowed(w, op, limit) && SegmentsExist(w.store.bucket, w.store.manifest.segments)
    ensures Draining(Step(w, op, limit))
  {
    var w' := Step(w, op, limit);
    if w'.tidy && w'.phase.Swapping? {
      if op.Delete? {
        var gone :| Drained(w, gone);
        DeleteDrains(w, limit, gone);
      } else {
        assert [] + w'.phase.todo == w'.phase.todo;
        assert Drained(w', []);
      }
    }
  }

  lemma {:induction false} RunDrains(ops: seq<Op>, limit: nat)
    requires Run(ops, limit).Some?
    ensures Draining(Run(ops, limit).value)
  {
    if ops != [] {
      RunDrains(ops[..|ops| - 1], limit);
      StepDrains(Run(ops[..|ops| - 1], limit).value, ops[|ops| - 1], limit);
    }
  }

  /** When that ends: a checkpoint deletes the retired objects before it publishes. In every run without failures, at
      the moment before a publication, everything the published manifest retired is gone, although that manifest has no
      successor yet. */
  lemma RetiredGoneBeforeSuccessor(ops: seq<Op>, key: nat, limit: nat, path: string)
    requires Run(ops, limit).Some? && Allowed(Run(ops, limit).value, Publish(key), limit) && Run(ops, limit).value.tidy
    requires path in Run(ops, limit).value.store.manifest.retire
    ensures path !in Run(ops, limit).value.store.bucket
  {
    RunDrains(ops, limit);
    var w := Run(ops, limit).value;
    var gone :| Drained(w, gone);
    assert gone + [] == gone;
  }
}
