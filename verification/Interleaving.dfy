/**
 Every interleaving of optimistic transactions: a transaction works on the snapshot it began with and commits only
 if no key it read or wrote under conflict detection was written since. The global sequence counter is left out of
 conflict detection.
 */
module Interleaving {
  import opened Prelude
  import opened Transactions

  /** `sequenced` transactions (appends, cross-stream commits and publications) also stamp the global counter. */
  datatype Txn = Txn(ops: seq<Op>, sequenced: bool, begun: nat, snapshot: Db)

  /** `stamps` holds the commit that last wrote each key. */
  datatype System = System(db: Db, stamps: map<Key, nat>, clock: nat, open: map<nat, Txn>)

  const Initial := System(map[], map[], 0, map[])

  datatype Step = Begin(id: nat, ops: seq<Op>, sequenced: bool) | Finish(id: nat)

  function Outcome(t: Txn): Result<Effect, Error> {
    ExecuteAll(t.snapshot, SeqOf(t.snapshot), t.ops)
  }

  /** Some key the transaction read or wrote has been written since it began. */
  predicate Conflicts(s: System, t: Txn, e: Effect) {
    exists k :: k in AllReads(t.ops) + e.writes.Keys && k in s.stamps && s.stamps[k] > t.begun
  }

  predicate Commits(s: System, t: Txn) {
    Outcome(t).Ok? && !Conflicts(s, t, Outcome(t).value)
  }

  /** What a commit puts into the store. */
  function Committed(db: Db, t: Txn, e: Effect): Db {
    Patched(db, if t.sequenced then e.writes[SeqKey := Some(SeqV(e.seqNo))] else e.writes)
  }

  predicate Allowed(s: System, step: Step) {
    match step
    case Begin(id, _, _) => id !in s.open
    case Finish(id) => id in s.open
  }

  function Next(s: System, step: Step): System
    requires Allowed(s, step)
  {
    match step
    case Begin(id, ops, sequenced) => s.(open := s.open[id := Txn(ops, sequenced, s.clock, s.db)])
    case Finish(id) =>
      var t := s.open[id];
      var s' := s.(open := s.open - {id});
      if !Commits(s, t) then s'
      else
        var e := Outcome(t).value;
        s'.(db := Committed(s.db, t, e), clock := s.clock + 1,
            stamps := s.stamps + map k | k in e.writes.Keys :: s.clock + 1)
  }

  // ---- commits are atomic ----

  /** A key not written since a transaction began still has the value the transaction saw. */
  ghost predicate Snapshots(s: System) {
    forall id :: id in s.open ==> SeesUnwritten(s, s.open[id])
  }

  ghost predicate SeesUnwritten(s: System, t: Txn) {
    && t.begun <= s.clock
    && forall k :: k != SeqKey && (k in s.stamps ==> s.stamps[k] <= t.begun) ==> Get(s.db, k) == Get(t.snapshot, k)
  }

  lemma {:induction false} ReadsNoCounter(ops: seq<Op>)
    ensures SeqKey !in AllReads(ops)
  {
    if ops != [] {
      ReadsNoCounter(ops[..|ops| - 1]);
    }
  }

  /** A transaction that commits has the effect of running whole, at the moment it commits, on the store as it then is;
      only the sequence numbers it hands out come from its snapshot. */
  lemma CommitIsAtomic(s: System, t: Txn)
    requires SeesUnwritten(s, t) && Commits(s, t)
    ensures ExecuteAll(s.db, SeqOf(t.snapshot), t.ops) == Outcome(t)
  {
    ReadsNoCounter(t.ops);
    forall k | k in AllReads(t.ops) ensures Get(s.db, k) == Get(t.snapshot, k) {
      assert k in AllReads(t.ops) + Outcome(t).value.writes.Keys;
    }
    ExecuteAllIsLocal(s.db, t.snapshot, SeqOf(t.snapshot), t.ops);
  }

  lemma NextSnapshots(s: System, step: Step)
    requires Snapshots(s) && Allowed(s, step)
    ensures Snapshots(Next(s, step))
  {
    var s' := Next(s, step);
    forall id | id in s'.open ensures SeesUnwritten(s', s'.open[id]) {
      if step.Begin? && id == step.id {
        assert s'.open[id].snapshot == s.db;
      } else {
        assert s'.open[id] == s.open[id] && SeesUnwritten(s, s.open[id]);
      }
    }
  }

  // ---- streams stay contiguous ----

  function StartOf(db: Db, stream: string): nat {
    if ForkKey(stream) in db && db[ForkKey(stream)].ForkV? then db[ForkKey(stream)].at + 1 else 0
  }

  /** A stream holds exactly the versions from its start to its tail, with timestamps that never move back; a stream
      without a tail holds nothing. */
  ghost predicate StreamOk(db: Db, stream: string) {
    match Get(db, TailKey(stream))
    case None => ForkKey(stream) !in db && forall v: nat :: RecordKey(stream, v) !in db
    case Some(t) =>
      && t.TailV? && StartOf(db, stream) <= t.version + 1
      && (forall v: nat :: RecordKey(stream, v) in db <==> StartOf(db, stream) <= v <= t.version)
      && (forall v: nat :: RecordKey(stream, v) in db ==> RecordOk(db[RecordKey(stream, v)], v, t.ts))
      && (forall v: nat, w: nat :: v < w && RecordKey(stream, v) in db && RecordKey(stream, w) in db ==>
            db[RecordKey(stream, v)].ts <= db[RecordKey(stream, w)].ts)
  }

  predicate RecordOk(r: Value, v: nat, tailTs: nat) {
    r.RecordV? && r.version == v && r.ts <= tailTs
  }

  ghost predicate DbOk(db: Db) {
    forall stream :: StreamOk(db, stream)
  }

  lemma {:induction false} TsMonotone(last: nat, events: seq<NewEvent>, i: nat, j: nat)
    requires i <= j <= |events|
    ensures last <= TsAfter(last, events, i) <= TsAfter(last, events, j)
    decreases j
  {
    if j > 0 {
      TsMonotone(last, events, Min(i, j - 1), j - 1);
    }
  }

  lemma {:induction false} EventWritesAt(
    stream: string, first: nat, startSeq: nat, lastTs: nat, events: seq<NewEvent>, indexed: bool, n: nat)
    requires n <= |events|
    ensures var w := EventWrites(stream, first, startSeq, lastTs, events, indexed, n);
            && (forall s, v: nat :: RecordKey(s, v) in w <==> s == stream && first <= v < first + n)
            && (forall v: nat :: first <= v < first + n ==>
                  w[RecordKey(stream, v)] == Some(RecordAt(events, first, startSeq, lastTs, v - first)))
            && (forall k :: k in w ==> k.RecordKey? || k.IndexKey?)
  {
    if n > 0 {
      EventWritesAt(stream, first, startSeq, lastTs, events, indexed, n - 1);
    }
  }

  /** Operations on other streams leave a stream as it was. */
  lemma StreamFrame(a: Db, b: Db, stream: string)
    requires StreamOk(a, stream)
    requires Get(a, TailKey(stream)) == Get(b, TailKey(stream)) && Get(a, ForkKey(stream)) == Get(b, ForkKey(stream))
    requires forall v: nat :: Get(a, RecordKey(stream, v)) == Get(b, RecordKey(stream, v))
    ensures StreamOk(b, stream)
  {
    forall v: nat ensures RecordKey(stream, v) in a <==> RecordKey(stream, v) in b {
      assert Get(a, RecordKey(stream, v)) == Get(b, RecordKey(stream, v));
    }
    forall v: nat | RecordKey(stream, v) in b ensures a[RecordKey(stream, v)] == b[RecordKey(stream, v)] {
      assert Get(a, RecordKey(stream, v)) == Get(b, RecordKey(stream, v));
    }
  }

  function LastTs(db: Db, stream: string): nat {
    if TailOf(db, stream).Some? then TailOf(db, stream).value.ts else 0
  }

  /** The appended stream: old records, then the batch. */
  lemma AppendedRecord(db: Db, seqNo: nat, stream: string, events: seq<NewEvent>, indexed: bool, v: nat)
    requires StreamOk(db, stream) && events != []
    ensures var first := FirstVersion(db, stream);
            && (first <= v < first + |events| ==> RecordKey(stream, v) !in db)
            && Get(Patched(db, AppendEffect(db, seqNo, stream, events, indexed).writes), RecordKey(stream, v))
               == if first <= v < first + |events|
                 then Some(RecordAt(events, first, seqNo + 1, LastTs(db, stream), v - first))
                  else Get(db, RecordKey(stream, v))
  {
    EventWritesAt(stream, FirstVersion(db, stream), seqNo + 1, LastTs(db, stream), events, indexed, |events|);
  }

  lemma AppendedMeta(db: Db, seqNo: nat, stream: string, events: seq<NewEvent>, indexed: bool)
    requires events != []
    ensures var db' := Patched(db, AppendEffect(db, seqNo, stream, events, indexed).writes);
            && Get(db', TailKey(stream))
               == Some(TailV(FirstVersion(db, stream) + |events| - 1, TsAfter(LastTs(db, stream), events, |events|)))
            && Get(db', ForkKey(stream)) == Get(db, ForkKey(stream))
  {
    var w := AppendEffect(db, seqNo, stream, events, indexed).writes;
    assert TailKey(stream) in w && ForkKey(stream) !in w by {
      EventWritesAt(stream, FirstVersion(db, stream), seqNo + 1, LastTs(db, stream), events, indexed, |events|);
    }
    PatchedAt(db, w, TailKey(stream));
    PatchedAt(db, w, ForkKey(stream));
  }

  lemma PatchedAt(db: Db, w: Writes, k: Key)
    ensures Get(Patched(db, w), k) == if k in w then w[k] else Get(db, k)
  {
  }

  /** Each version of the grown stream is there, says so, and is not ahead of the tail's clock. */
  lemma AppendedVersion(db: Db, seqNo: nat, stream: string, events: seq<NewEvent>, indexed: bool, v: nat)
    requires StreamOk(db, stream) && events != []
    ensures var db' := Patched(db, AppendEffect(db, seqNo, stream, events, indexed).writes);
            && (RecordKey(stream, v) in db' <==> StartOf(db, stream) <= v <= FirstVersion(db, stream) + |events| - 1)
            && (RecordKey(stream, v) in db' ==>
                  RecordOk(db'[RecordKey(stream, v)], v, TsAfter(LastTs(db, stream), events, |events|)))
  {
    AppendedRecord(db, seqNo, stream, events, indexed, v);
    var first, ts := FirstVersion(db, stream), LastTs(db, stream);
    TsMonotone(ts, events, 0, |events|);
    if first <= v < first + |events| { TsMonotone(ts, events, v - first + 1, |events|); }
  }

  lemma AppendedOrder(db: Db, seqNo: nat, stream: string, events: seq<NewEvent>, indexed: bool, v: nat, w: nat)
    requires StreamOk(db, stream) && events != [] && v < w
    ensures var db' := Patched(db, AppendEffect(db, seqNo, stream, events, indexed).writes);
            RecordKey(stream, v) in db' && RecordKey(stream, w) in db' ==>
              db'[RecordKey(stream, v)].RecordV? && db'[RecordKey(stream, w)].RecordV?
              && db'[RecordKey(stream, v)].ts <= db'[RecordKey(stream, w)].ts
  {
    AppendedRecord(db, seqNo, stream, events, indexed, v);
    AppendedRecord(db, seqNo, stream, events, indexed, w);
    var first, ts := FirstVersion(db, stream), LastTs(db, stream);
    if first <= w < first + |events| {
      TsMonotone(ts, events, if v < first then 0 else v - first + 1, w - first + 1);
    }
  }

  lemma AppendKeeps(db: Db, seqNo: nat, stream: string, events: seq<NewEvent>, indexed: bool)
    requires StreamOk(db, stream) && events != []
    ensures StreamOk(Patched(db, AppendEffect(db, seqNo, stream, events, indexed).writes), stream)
  {
    var db' := Patched(db, AppendEffect(db, seqNo, stream, events, indexed).writes);
    AppendedMeta(db, seqNo, stream, events, indexed);
    assert StartOf(db', stream) == StartOf(db, stream);
    forall v: nat
      ensures RecordKey(stream, v) in db' <==> StartOf(db, stream) <= v <= FirstVersion(db, stream) + |events| - 1
      ensures RecordKey(stream, v) in db' ==>
                RecordOk(db'[RecordKey(stream, v)], v, TsAfter(LastTs(db, stream), events, |events|))
    {
      AppendedVersion(db, seqNo, stream, events, indexed, v);
    }
    forall v: nat, w: nat | v < w && RecordKey(stream, v) in db' && RecordKey(stream, w) in db'
      ensures db'[RecordKey(stream, v)].ts <= db'[RecordKey(stream, w)].ts
    {
      AppendedOrder(db, seqNo, stream, events, indexed, v, w);
    }
  }

  lemma AppendOpKeeps(db: Db, seqNo: nat, stream: string, events: seq<NewEvent>, indexed: bool)
    requires DbOk(db) && events != []
    ensures DbOk(Patched(db, AppendEffect(db, seqNo, stream, events, indexed).writes))
    ensures forall s, v: nat :: RecordKey(s, v) in AppendEffect(db, seqNo, stream, events, indexed).writes ==>
              RecordKey(s, v) !in db
  {
    var db' := Patched(db, AppendEffect(db, seqNo, stream, events, indexed).writes);
    var tail := TailOf(db, stream);
    EventWritesAt(stream, if tail.Some? then tail.value.version + 1 else 0, seqNo + 1,
                  if tail.Some? then tail.value.ts else 0, events, indexed, |events|);
    assert StreamOk(db, stream);
    forall s ensures StreamOk(db', s) {
      if s == stream {
        AppendKeeps(db, seqNo, stream, events, indexed);
      } else {
        assert StreamOk(db, s);
        StreamFrame(db, db', s);
      }
    }
  }

  lemma ForkOpKeeps(db: Db, seqNo: nat, parent: string, at: nat, child: string)
    requires DbOk(db) && Execute(db, seqNo, Fork(parent, at, child)).Ok?
    ensures DbOk(Patched(db, Execute(db, seqNo, Fork(parent, at, child)).value.writes))
  {
    var db' := Patched(db, Execute(db, seqNo, Fork(parent, at, child)).value.writes);
    assert StreamOk(db, child) && StreamOk(db, parent);
    forall s ensures StreamOk(db', s) {
      if s == child {
        assert Get(db', ForkKey(child)) == Some(ForkV(parent, at));
        assert Get(db', TailKey(child)) == Some(TailV(at, TailOf(db, parent).value.ts));
        assert forall v: nat :: Get(db', RecordKey(child, v)) == Get(db, RecordKey(child, v)) == None;
      } else {
        assert StreamOk(db, s);
        StreamFrame(db, db', s);
      }
    }
  }

  lemma MarkOpKeeps(db: Db, w: Writes)
    requires DbOk(db) && forall k :: k in w ==> k.FenceKey? || k.DeletedKey? || k.SnapKey?
    ensures DbOk(Patched(db, w))
  {
    forall s ensures StreamOk(Patched(db, w), s) {
      assert StreamOk(db, s);
      StreamFrame(db, Patched(db, w), s);
    }
  }

  lemma ExecuteKeeps(db: Db, seqNo: nat, op: Op)
    requires DbOk(db) && Execute(db, seqNo, op).Ok?
    ensures DbOk(Patched(db, Execute(db, seqNo, op).value.writes))
    ensures forall s, v: nat :: RecordKey(s, v) in Execute(db, seqNo, op).value.writes ==> RecordKey(s, v) !in db
  {
    match op
    case Append(stream, _, _, events, indexed) => AppendOpKeeps(db, seqNo, stream, events, indexed);
    case Fork(parent, at, child) => ForkOpKeeps(db, seqNo, parent, at, child);
    case _ => MarkOpKeeps(db, Execute(db, seqNo, op).value.writes);
  }

  lemma {:induction false} ExecuteAllKeeps(db: Db, seqNo: nat, ops: seq<Op>)
    requires DbOk(db) && ExecuteAll(db, seqNo, ops).Ok?
    ensures DbOk(Patched(db, ExecuteAll(db, seqNo, ops).value.writes))
    ensures forall s, v: nat :: RecordKey(s, v) in ExecuteAll(db, seqNo, ops).value.writes ==> RecordKey(s, v) !in db
  {
    if ops == [] {
      GetExtensional(Patched(db, map[]), db);
    } else {
      var n := |ops| - 1;
      ExecuteAllKeeps(db, seqNo, ops[..n]);
      var before := ExecuteAll(db, seqNo, ops[..n]).value;
      var view := Patched(db, before.writes);
      ExecuteKeeps(view, before.seqNo, ops[n]);
      var last := Execute(view, before.seqNo, ops[n]).value;
      PatchedTwice(db, before.writes, last.writes);
      forall s, v: nat | RecordKey(s, v) in before.writes + last.writes ensures RecordKey(s, v) !in db {
        if RecordKey(s, v) !in before.writes {
          assert Get(view, RecordKey(s, v)) == Get(db, RecordKey(s, v));
        }
      }
    }
  }

  /** Stamping the counter does not touch streams. */
  lemma CommittedKeeps(db: Db, t: Txn, e: Effect)
    requires DbOk(Patched(db, e.writes))
    requires forall s, v: nat :: RecordKey(s, v) in e.writes ==> RecordKey(s, v) !in db
    ensures DbOk(Committed(db, t, e))
    ensures forall s, v: nat :: RecordKey(s, v) in db ==>
              Get(Committed(db, t, e), RecordKey(s, v)) == Get(db, RecordKey(s, v))
  {
    var plain, full := Patched(db, e.writes), Committed(db, t, e);
    forall s ensures StreamOk(full, s) {
      assert StreamOk(plain, s);
      StreamFrame(plain, full, s);
    }
  }

  // ---- runs ----

  function Run(steps: seq<Step>): Option<System> {
    if steps == [] then Some(Initial)
    else
      var before := Run(steps[..|steps| - 1]);
      if before.Some? && Allowed(before.value, steps[|steps| - 1]) then Some(Next(before.value, steps[|steps| - 1]))
        else None
  }

  lemma NextKeeps(s: System, step: Step)
    requires Snapshots(s) && DbOk(s.db) && Allowed(s, step)
    ensures Snapshots(Next(s, step)) && DbOk(Next(s, step).db)
    ensures forall st, v: nat :: RecordKey(st, v) in s.db ==>
              Get(Next(s, step).db, RecordKey(st, v)) == Get(s.db, RecordKey(st, v))
  {
    NextSnapshots(s, step);
    if step.Finish? && Commits(s, s.open[step.id]) {
      var t := s.open[step.id];
      assert SeesUnwritten(s, t);
      CommitIsAtomic(s, t);
      ExecuteAllKeeps(s.db, SeqOf(t.snapshot), t.ops);
      CommittedKeeps(s.db, t, Outcome(t).value);
    }
  }

  lemma {:induction false} RunKeeps(steps: seq<Step>)
    requires Run(steps).Some?
    ensures Snapshots(Run(steps).value) && DbOk(Run(steps).value.db)
  {
    if steps != [] {
      RunKeeps(steps[..|steps| - 1]);
      NextKeeps(Run(steps[..|steps| - 1]).value, steps[|steps| - 1]);
    }
  }

  /** Appends under interleaving: after every interleaving of transactions, retried or not, each stream holds exactly
      the versions from its start to its tail, in timestamp order, and a version once written is never written again. */
  lemma StreamsStayContiguous(steps: seq<Step>, step: Step, stream: string)
    requires Run(steps).Some? && Allowed(Run(steps).value, step)
    ensures StreamOk(Run(steps).value.db, stream)
    ensures forall v: nat :: RecordKey(stream, v) in Run(steps).value.db ==>
              Get(Next(Run(steps).value, step).db, RecordKey(stream, v))
                == Get(Run(steps).value.db, RecordKey(stream, v))
  {
    RunKeeps(steps);
    NextKeeps(Run(steps).value, step);
  }

  // ---- one operation of a committed transaction ----

  /** The store and the counter part-way through a transaction. */
  datatype Point = Point(db: Db, seqNo: nat)

  /** Where one operation leads. */
  function Advance(p: Point, op: Op): Option<Point> {
    var e := Execute(p.db, p.seqNo, op);
    if e.Err? then None else Some(Point(Patched(p.db, e.value.writes), e.value.seqNo))
  }

  function After(p: Point, ops: seq<Op>): Option<Point> {
    if ops == [] then Some(p)
    else
      var before := After(p, ops[..|ops| - 1]);
      if before.None? then None else Advance(before.value, ops[|ops| - 1])
  }

  /** Buffered writes and stepwise execution say the same. */
  lemma {:induction false} AfterIsExecuteAll(db: Db, seqNo: nat, ops: seq<Op>)
    ensures var e := ExecuteAll(db, seqNo, ops);
            After(Point(db, seqNo), ops) == if e.Err? then None
              else Some(Point(Patched(db, e.value.writes), e.value.seqNo))
  {
    if ops == [] {
      GetExtensional(Patched(db, map[]), db);
    } else {
      var n := |ops| - 1;
      AfterIsExecuteAll(db, seqNo, ops[..n]);
      var before := ExecuteAll(db, seqNo, ops[..n]);
      if before.Ok? {
        var last := Execute(Patched(db, before.value.writes), before.value.seqNo, ops[n]);
        if last.Ok? { PatchedTwice(db, before.value.writes, last.value.writes); }
      }
    }
  }

  lemma {:induction false} AfterConcat(p: Point, a: seq<Op>, b: seq<Op>)
    ensures After(p, a + b) == if After(p, a).None? then None else After(After(p, a).value, b)
    decreases |b|
  {
    if b == [] {
      assert a + b == a;
    } else {
      assert (a + b)[..|a + b| - 1] == a + b[..|b| - 1];
      AfterConcat(p, a, b[..|b| - 1]);
    }
  }

  /** A transaction taken apart at one of its operations. */
  lemma AfterAt(p: Point, a: seq<Op>, op: Op, b: seq<Op>)
    requires After(p, a + [op] + b).Some?
    ensures After(p, a).Some? && Advance(After(p, a).value, op).Some?
    ensures After(Advance(After(p, a).value, op).value, b) == After(p, a + [op] + b)
  {
    AfterConcat(p, a + [op], b);
    assert (a + [op])[..|a|] == a;
  }

  /** The number of events the operations append to `stream`. */
  function EventsTo(ops: seq<Op>, stream: string): nat {
    if ops == [] then 0
    else
      var last := ops[|ops| - 1];
      EventsTo(ops[..|ops| - 1], stream) + if last.Append? && last.stream == stream then |last.events| else 0
  }

  /** Appends to the stream or creates it as a fork. */
  predicate Extends(op: Op, stream: string) {
    (op.Append? && op.stream == stream) || (op.Fork? && op.child == stream)
  }

  predicate Refences(op: Op, stream: string) {
    op.SetFence? && op.stream == stream
  }

  /** What one operation does to the tail and the fence of a stream. */
  lemma AdvanceTail(p: Point, op: Op, stream: string)
    requires Advance(p, op).Some?
    ensures var q := Advance(p, op).value;
            && (!Extends(op, stream) ==> VersionOf(q.db, stream) == VersionOf(p.db, stream))
            && (op.Append? && op.stream == stream ==>
                VersionOf(q.db, stream) == Some(FirstVersion(p.db, stream) + |op.events| - 1))
            && (op.Fork? && op.child == stream ==> VersionOf(p.db, stream).None?)
            && (!Refences(op, stream) ==> FenceOf(q.db, stream) == FenceOf(p.db, stream))
  {
    if op.Append? {
      AppendTail(p.db, p.seqNo, op.stream, op.events, op.indexed, stream);
    } else {
      var w := Execute(p.db, p.seqNo, op).value.writes;
      PatchedAt(p.db, w, TailKey(stream));
      PatchedAt(p.db, w, FenceKey(stream));
    }
  }

  lemma AppendTail(db: Db, seqNo: nat, target: string, events: seq<NewEvent>, indexed: bool, stream: string)
    requires events != []
    ensures var q := Patched(db, AppendEffect(db, seqNo, target, events, indexed).writes);
            && (target != stream ==> VersionOf(q, stream) == VersionOf(db, stream))
            && (target == stream ==> VersionOf(q, stream) == Some(FirstVersion(db, stream) + |events| - 1))
            && FenceOf(q, stream) == FenceOf(db, stream)
  {
    var w := AppendEffect(db, seqNo, target, events, indexed).writes;
    EventWritesAt(target, FirstVersion(db, target), seqNo + 1, LastTs(db, target), events, indexed, |events|);
    PatchedAt(db, w, TailKey(stream));
    PatchedAt(db, w, FenceKey(stream));
  }

  /** An existing stream's tail moves by exactly the events appended to it, whatever else the transaction does. */
  lemma {:induction false} TailMoves(p: Point, ops: seq<Op>, stream: string)
    requires After(p, ops).Some? && VersionOf(p.db, stream).Some?
    ensures VersionOf(After(p, ops).value.db, stream) == Some(VersionOf(p.db, stream).value + EventsTo(ops, stream))
  {
    if ops != [] {
      TailMoves(p, ops[..|ops| - 1], stream);
      AdvanceTail(After(p, ops[..|ops| - 1]).value, ops[|ops| - 1], stream);
    }
  }

  /** A stream no operation extends keeps its tail. */
  lemma {:induction false} TailUntouched(p: Point, ops: seq<Op>, stream: string)
    requires After(p, ops).Some? && forall j :: 0 <= j < |ops| ==> !Extends(ops[j], stream)
    ensures VersionOf(After(p, ops).value.db, stream) == VersionOf(p.db, stream)
  {
    if ops != [] {
      TailUntouched(p, ops[..|ops| - 1], stream);
      AdvanceTail(After(p, ops[..|ops| - 1]).value, ops[|ops| - 1], stream);
    }
  }

  /** A stream no operation fences keeps its fence. */
  lemma {:induction false} FenceUntouched(p: Point, ops: seq<Op>, stream: string)
    requires After(p, ops).Some? && forall j :: 0 <= j < |ops| ==> !Refences(ops[j], stream)
    ensures FenceOf(After(p, ops).value.db, stream) == FenceOf(p.db, stream)
  {
    if ops != [] {
      FenceUntouched(p, ops[..|ops| - 1], stream);
      AdvanceTail(After(p, ops[..|ops| - 1]).value, ops[|ops| - 1], stream);
    }
  }

  /** Stamping the counter changes no tail. */
  lemma CommittedTail(db: Db, t: Txn, e: Effect, stream: string)
    ensures VersionOf(Committed(db, t, e), stream) == VersionOf(Patched(db, e.writes), stream)
  {
    assert Get(Committed(db, t, e), TailKey(stream)) == Get(Patched(db, e.writes), TailKey(stream));
  }

  /** The operations before, at and behind position `i`. */
  predicate Parted(ops: seq<Op>, before: seq<Op>, op: Op, behind: seq<Op>) {
    ops == before + [op] + behind
  }

  /** What an accepted conditional append found. */
  lemma ExactAppendFound(p: Point, before: seq<Op>, op: Op, behind: seq<Op>)
    requires After(p, before + [op] + behind).Some? && op.Append? && op.expected.Exact?
    ensures VersionOf(p.db, op.stream).Some? ==>
              op.expected.version == VersionOf(p.db, op.stream).value + EventsTo(before, op.stream)
    ensures (forall j :: 0 <= j < |before| ==> !Extends(before[j], op.stream)) ==>
              VersionOf(p.db, op.stream) == Some(op.expected.version)
    ensures (forall j :: 0 <= j < |before| ==> !Refences(before[j], op.stream)) && op.token.Some?
            && FenceOf(p.db, op.stream).Some? ==>
              FenceOf(p.db, op.stream) == op.token
  {
    AfterAt(p, before, op, behind);
    if forall j :: 0 <= j < |before| ==> !Extends(before[j], op.stream) { TailUntouched(p, before, op.stream); }
    if forall j :: 0 <= j < |before| ==> !Refences(before[j], op.stream) { FenceUntouched(p, before, op.stream); }
    if VersionOf(p.db, op.stream).Some? { TailMoves(p, before, op.stream); }
  }

  lemma ExactAdvance(p: Point, op: Op)
    requires Advance(p, op).Some? && op.Append? && op.expected.Exact?
    ensures VersionOf(p.db, op.stream) == Some(op.expected.version)
    ensures VersionOf(Advance(p, op).value.db, op.stream) == Some(op.expected.version + |op.events|)
  {
    AdvanceTail(p, op, op.stream);
  }

  /** Where the transaction leaves the tail. */
  lemma ExactAppendLeaves(p: Point, before: seq<Op>, op: Op, behind: seq<Op>, end: Option<Point>)
    requires After(p, before + [op] + behind) == end && end.Some? && op.Append? && op.expected.Exact?
    ensures VersionOf(end.value.db, op.stream) == Some(op.expected.version + |op.events| + EventsTo(behind, op.stream))
  {
    AfterAt(p, before, op, behind);
    ExactAppendThen(After(p, before).value, op, behind, end);
  }

  lemma ExactAppendThen(p: Point, op: Op, behind: seq<Op>, end: Option<Point>)
    requires Advance(p, op).Some? && op.Append? && op.expected.Exact? && end.Some?
             && After(Advance(p, op).value, behind) == end
    ensures VersionOf(end.value.db, op.stream) == Some(op.expected.version + |op.events| + EventsTo(behind, op.stream))
  {
    ExactAdvance(p, op);
    TailMoves(Advance(p, op).value, behind, op.stream);
  }

  /** Conditional appends, in transactions of any number of operations over any streams: one that commits found, at the
      moment of the commit, the tail it expected (moved on by what the same transaction had appended before it), under
      the fence it presented; and the tail ends behind exactly the events appended. */
  lemma ExactCommitExtendsTail(s: System, t: Txn, before: seq<Op>, op: Op, behind: seq<Op>)
    requires SeesUnwritten(s, t) && Commits(s, t)
    requires Parted(t.ops, before, op, behind) && op.Append? && op.expected.Exact?
    ensures VersionOf(s.db, op.stream).Some? ==>
              op.expected.version == VersionOf(s.db, op.stream).value + EventsTo(before, op.stream)
    ensures (forall j :: 0 <= j < |before| ==> !Extends(before[j], op.stream)) ==>
              VersionOf(s.db, op.stream) == Some(op.expected.version)
    ensures (forall j :: 0 <= j < |before| ==> !Refences(before[j], op.stream)) && op.token.Some?
            && FenceOf(s.db, op.stream).Some? ==>
              FenceOf(s.db, op.stream) == op.token
    ensures VersionOf(Committed(s.db, t, Outcome(t).value), op.stream)
         == Some(op.expected.version + |op.events| + EventsTo(behind, op.stream))
  {
    var p := Point(s.db, SeqOf(t.snapshot));
    CommitIsAtomic(s, t);
    AfterIsExecuteAll(s.db, SeqOf(t.snapshot), t.ops);
    ExactAppendFound(p, before, op, behind);
    ExactAppendLeaves(p, before, op, behind, After(p, t.ops));
    CommittedTail(s.db, t, Outcome(t).value, op.stream);
  }

  // ---- aborted transactions leave no trace ----

  function Forgotten(s: System, id: nat): System { s.(open := s.open - {id}) }

  /** Other transactions do not notice one that is open. */
  lemma NextForgets(s: System, id: nat, step: Step)
    requires Allowed(s, step) && step.id != id
    ensures Allowed(Forgotten(s, id), step) && Next(Forgotten(s, id), step) == Forgotten(Next(s, step), id)
  {
    var s' := Forgotten(s, id);
    match step
    case Begin(k, ops, sequenced) =>
      assert s'.open[k := Txn(ops, sequenced, s.clock, s.db)] == s.open[k := Txn(ops, sequenced, s.clock, s.db)] - {id};
    case Finish(k) =>
      assert s'.open[k] == s.open[k];
      assert s'.open - {k} == (s.open - {k}) - {id};
      assert Commits(s', s'.open[k]) <==> Commits(s, s.open[k]);
  }

  lemma BegunForgotten(s: System, step: Step)
    requires step.Begin? && Allowed(s, step)
    ensures Forgotten(Next(s, step), step.id) == s
  {
    assert Next(s, step).open - {step.id} == s.open;
  }

  lemma RunSnoc(steps: seq<Step>, step: Step)
    ensures Run(steps + [step])
         == if Run(steps).Some? && Allowed(Run(steps).value, step) then Some(Next(Run(steps).value, step)) else None
  {
    assert (steps + [step])[..|steps|] == steps;
  }

  lemma RunLast(front: seq<Step>, mid: seq<Step>)
    requires mid != []
    ensures var n := |mid| - 1;
            Run(front + mid)
            == if Run(front + mid[..n]).Some? && Allowed(Run(front + mid[..n]).value, mid[n])
               then Some(Next(Run(front + mid[..n]).value, mid[n])) else None
  {
    RunSnoc(front + mid[..|mid| - 1], mid[|mid| - 1]);
    assert front + mid == (front + mid[..|mid| - 1]) + [mid[|mid| - 1]];
  }

  /** While a transaction is open, the run without it is one transaction short. */
  lemma {:induction false} OpenForgotten(front: seq<Step>, begin: Step, mid: seq<Step>)
    requires begin.Begin? && Run(front + [begin] + mid).Some? && forall m :: 0 <= m < |mid| ==> mid[m].id != begin.id
    ensures Run(front + mid) == Some(Forgotten(Run(front + [begin] + mid).value, begin.id))
    decreases |mid|
  {
    if mid == [] {
      assert front + [begin] + mid == front + [begin] && front + mid == front;
      RunSnoc(front, begin);
      BegunForgotten(Run(front).value, begin);
    } else {
      var n := |mid| - 1;
      RunLast(front + [begin], mid);
      RunLast(front, mid);
      OpenForgotten(front, begin, mid[..n]);
      NextForgets(Run(front + [begin] + mid[..n]).value, begin.id, mid[n]);
    }
  }

  lemma {:induction false} SameFromThere(a: seq<Step>, b: seq<Step>, rest: seq<Step>)
    requires Run(a) == Run(b)
    ensures Run(a + rest) == Run(b + rest)
    decreases |rest|
  {
    if rest == [] {
      assert a + rest == a && b + rest == b;
    } else {
      RunLast(a, rest);
      RunLast(b, rest);
      SameFromThere(a, b, rest[..|rest| - 1]);
    }
  }

  /** Erasing the begin and the end of an aborted transaction from a run leaves a run to the very same state: nothing of
      it remains, and no other transaction was affected by it. */
  lemma AbortLeavesNothing(front: seq<Step>, begin: Step, mid: seq<Step>, rest: seq<Step>)
    requires begin.Begin? && forall m :: 0 <= m < |mid| ==> mid[m].id != begin.id
    requires Run(front + [begin] + mid).Some? && begin.id in Run(front + [begin] + mid).value.open
    requires var s := Run(front + [begin] + mid).value; !Commits(s, s.open[begin.id])
    ensures Run(front + mid + rest) == Run(front + [begin] + mid + [Finish(begin.id)] + rest)
  {
    OpenForgotten(front, begin, mid);
    RunSnoc(front + [begin] + mid, Finish(begin.id));
    SameFromThere(front + mid, front + [begin] + mid + [Finish(begin.id)], rest);
  }
}
