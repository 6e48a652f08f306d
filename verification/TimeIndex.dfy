/**
 The time index over every interleaving of transactions: a stream that is only ever appended to with indexing on has
 exactly one index entry for each of its records, under that record's timestamp, and the search by timestamp finds the
 right one.
 */
module TimeIndex {
  import opened Prelude
  import opened Keys
  import opened Transactions
  import opened Interleaving
  import Retention

  // ---- the invariant ----

  /** The timestamp of a record, if the version exists. */
  function TsAt(db: Db, stream: string, v: nat): Option<nat> {
    var r := Get(db, RecordKey(stream, v));
    if r.Some? && r.value.RecordV? then Some(r.value.ts) else None
  }

  /** An index entry for every record, under its timestamp, and no other. */
  ghost predicate IndexOk(db: Db, stream: string) {
    forall v: nat, ts: nat :: IndexKey(stream, ts, v) in db <==> TsAt(db, stream, v) == Some(ts)
  }

  /** Appends to the stream ask for the index. */
  predicate Indexing(op: Op, stream: string) {
    op.Append? && op.stream == stream ==> op.indexed
  }

  predicate AllIndexing(ops: seq<Op>, stream: string) {
    forall i :: 0 <= i < |ops| ==> Indexing(ops[i], stream)
  }

  lemma {:induction false} EventWritesIndex(
    stream: string, first: nat, startSeq: nat, lastTs: nat, events: seq<NewEvent>, n: nat)
    requires n <= |events|
    ensures var w := EventWrites(stream, first, startSeq, lastTs, events, true, n);
            && (forall s, ts: nat, v: nat :: IndexKey(s, ts, v) in w
                  <==> s == stream && first <= v < first + n && ts == TsAfter(lastTs, events, v - first + 1))
            && (forall k :: k in w ==> w[k].Some?)
  {
    if n > 0 {
      EventWritesIndex(stream, first, startSeq, lastTs, events, n - 1);
    }
  }

  lemma {:induction false} EventWritesOther(
    stream: string, first: nat, startSeq: nat, lastTs: nat, events: seq<NewEvent>, indexed: bool, n: nat)
    requires n <= |events|
    ensures forall k :: k in EventWrites(stream, first, startSeq, lastTs, events, indexed, n) ==>
              k != SeqKey && k.stream == stream
  {
    if n > 0 {
      EventWritesOther(stream, first, startSeq, lastTs, events, indexed, n - 1);
    }
  }

  /** Where an append puts timestamps and index entries. */
  lemma AppendedAt(db: Db, seqNo: nat, stream: string, events: seq<NewEvent>, v: nat, ts: nat)
    requires StreamOk(db, stream) && events != []
    ensures var first, db' := FirstVersion(db, stream),
            Patched(db, AppendEffect(db, seqNo, stream, events, true).writes);
            && (first <= v < first + |events| ==> TsAt(db, stream, v) == None)
            && TsAt(db', stream, v)
               == (if first <= v < first + |events| then Some(TsAfter(LastTs(db, stream), events, v - first + 1))
                   else TsAt(db, stream, v))
            && (IndexKey(stream, ts, v) in db' <==>
                  || IndexKey(stream, ts, v) in db
                  || (first <= v < first + |events| && ts == TsAfter(LastTs(db, stream), events, v - first + 1)))
  {
    AppendedRecord(db, seqNo, stream, events, true, v);
    EventWritesIndex(stream, FirstVersion(db, stream), seqNo + 1, LastTs(db, stream), events, |events|);
    PatchedAt(db, AppendEffect(db, seqNo, stream, events, true).writes, IndexKey(stream, ts, v));
  }

  lemma AppendIndexes(db: Db, seqNo: nat, stream: string, events: seq<NewEvent>)
    requires StreamOk(db, stream) && IndexOk(db, stream) && events != []
    ensures IndexOk(Patched(db, AppendEffect(db, seqNo, stream, events, true).writes), stream)
  {
    var db' := Patched(db, AppendEffect(db, seqNo, stream, events, true).writes);
    forall v: nat, ts: nat ensures IndexKey(stream, ts, v) in db' <==> TsAt(db', stream, v) == Some(ts) {
      AppendedAt(db, seqNo, stream, events, v, ts);
      assert IndexKey(stream, ts, v) in db <==> TsAt(db, stream, v) == Some(ts);
    }
  }

  /** Whatever else happens leaves the stream's records and index entries alone. */
  lemma OtherWrites(db: Db, seqNo: nat, op: Op, stream: string, v: nat, ts: nat)
    requires Execute(db, seqNo, op).Ok? && !(op.Append? && op.stream == stream)
    ensures var w := Execute(db, seqNo, op).value.writes;
            RecordKey(stream, v) !in w && IndexKey(stream, ts, v) !in w
  {
    if op.Append? {
      EventWritesOther(op.stream, FirstVersion(db, op.stream), seqNo + 1, LastTs(db, op.stream), op.events, op.indexed,
                       |op.events|);
    }
  }

  lemma SameIndex(a: Db, b: Db, stream: string)
    requires IndexOk(a, stream)
    requires forall v: nat, ts: nat :: Get(b, IndexKey(stream, ts, v)) == Get(a, IndexKey(stream, ts, v))
    requires forall v: nat :: Get(b, RecordKey(stream, v)) == Get(a, RecordKey(stream, v))
    ensures IndexOk(b, stream)
  {
    forall v: nat, ts: nat ensures IndexKey(stream, ts, v) in b <==> TsAt(b, stream, v) == Some(ts) {
      assert Get(b, IndexKey(stream, ts, v)) == Get(a, IndexKey(stream, ts, v));
      assert Get(b, RecordKey(stream, v)) == Get(a, RecordKey(stream, v));
      assert IndexKey(stream, ts, v) in a <==> TsAt(a, stream, v) == Some(ts);
    }
  }

  lemma AdvanceIndexes(p: Point, op: Op, stream: string)
    requires DbOk(p.db) && IndexOk(p.db, stream) && Indexing(op, stream) && Advance(p, op).Some?
    ensures IndexOk(Advance(p, op).value.db, stream)
  {
    assert StreamOk(p.db, stream);
    if op.Append? && op.stream == stream {
      AppendIndexes(p.db, p.seqNo, stream, op.events);
    } else {
      var w := Execute(p.db, p.seqNo, op).value.writes;
      forall v: nat, ts: nat
        ensures Get(Patched(p.db, w), IndexKey(stream, ts, v)) == Get(p.db, IndexKey(stream, ts, v))
        ensures Get(Patched(p.db, w), RecordKey(stream, v)) == Get(p.db, RecordKey(stream, v))
      {
        OtherWrites(p.db, p.seqNo, op, stream, v, ts);
        PatchedAt(p.db, w, IndexKey(stream, ts, v));
        PatchedAt(p.db, w, RecordKey(stream, v));
      }
      forall v: nat ensures Get(Patched(p.db, w), RecordKey(stream, v)) == Get(p.db, RecordKey(stream, v)) {
        OtherWrites(p.db, p.seqNo, op, stream, v, 0);
      }
      SameIndex(p.db, Patched(p.db, w), stream);
    }
  }

  lemma {:induction false} AfterIndexes(p: Point, ops: seq<Op>, stream: string)
    requires DbOk(p.db) && IndexOk(p.db, stream) && AllIndexing(ops, stream) && After(p, ops).Some?
    ensures DbOk(After(p, ops).value.db) && IndexOk(After(p, ops).value.db, stream)
  {
    if ops != [] {
      var n := |ops| - 1;
      AfterIndexes(p, ops[..n], stream);
      var q := After(p, ops[..n]).value;
      assert Indexing(ops[n], stream);
      AdvanceIndexes(q, ops[n], stream);
      ExecuteKeeps(q.db, q.seqNo, ops[n]);
    }
  }

  /** What holds of a system in which only indexed appends to the stream are under way. */
  ghost predicate Indexed(s: System, stream: string) {
    IndexOk(s.db, stream) && forall id :: id in s.open ==> AllIndexing(s.open[id].ops, stream)
  }

  lemma CommitIndexes(s: System, t: Txn, stream: string)
    requires DbOk(s.db) && IndexOk(s.db, stream) && SeesUnwritten(s, t) && Commits(s, t) && AllIndexing(t.ops, stream)
    ensures IndexOk(Committed(s.db, t, Outcome(t).value), stream)
  {
    var e := Outcome(t).value;
    CommitIsAtomic(s, t);
    AfterIsExecuteAll(s.db, SeqOf(t.snapshot), t.ops);
    AfterIndexes(Point(s.db, SeqOf(t.snapshot)), t.ops, stream);
    SameIndex(Patched(s.db, e.writes), Committed(s.db, t, e), stream);
  }

  lemma NextIndexes(s: System, step: Step, stream: string)
    requires Snapshots(s) && DbOk(s.db) && Indexed(s, stream) && Allowed(s, step)
    requires step.Begin? ==> AllIndexing(step.ops, stream)
    ensures Indexed(Next(s, step), stream)
  {
    if step.Finish? && Commits(s, s.open[step.id]) {
      assert SeesUnwritten(s, s.open[step.id]);
      CommitIndexes(s, s.open[step.id], stream);
    }
  }

  /** Over every interleaving in which appends to the stream ask for the index, it holds exactly one entry per record.
      */
  lemma {:induction false} IndexFollowsRecords(steps: seq<Step>, stream: string)
    requires Run(steps).Some? && forall i :: 0 <= i < |steps| && steps[i].Begin? ==> AllIndexing(steps[i].ops, stream)
    ensures Indexed(Run(steps).value, stream)
  {
    if steps != [] {
      var n := |steps| - 1;
      IndexFollowsRecords(steps[..n], stream);
      RunKeeps(steps[..n]);
      NextIndexes(Run(steps[..n]).value, steps[n], stream);
    }
  }

  // ---- the search ----

  /** The key layout. */
  function Encode(k: Key): string {
    match k
    case TailKey(s) => "m/" + s + "/tail"
    case FenceKey(s) => "m/" + s + "/fence"
    case RecordKey(s, v) => Retention.RecordKey(Retention.RecordPrefix(s), v)
    case IndexKey(s, ts, v) => Retention.IndexKey(s, ts, v)
    case ForkKey(s) => "m/" + s + "/fork"
    case PinKey(s, child) => "m/" + s + "/forks/" + child
    case DeletedKey(s) => "m/" + s + "/deleted"
    case SnapKey(s, n) => "snap/" + s + "/" + Key16(n)
    case SeqKey => "g/seq"
  }

  function EncodedKeys(db: Db): set<string> { set k | k in db :: Encode(k) }

  function Versions(db: Db, stream: string): set<nat> {
    set k | k in db && k.RecordKey? && k.stream == stream && db[k].RecordV? :: k.version
  }

  /** The timestamps of the stream's own records. */
  function Timestamps(db: Db, stream: string): (r: map<nat, nat>)
    ensures forall v: nat :: (v in r <==> TsAt(db, stream, v).Some?) && (v in r ==> TsAt(db, stream, v) == Some(r[v]))
  {
    map v | v in Versions(db, stream) :: db[RecordKey(stream, v)].ts
  }

  /** Names without separators; versions and timestamps of the stream that fit a key. */
  ghost predicate Fits(db: Db, stream: string) {
    && Retention.SlashFree(stream)
    && (forall s, ts: nat, v: nat :: IndexKey(s, ts, v) in db ==> Retention.SlashFree(s))
    && (forall v: nat :: TsAt(db, stream, v).Some? ==> v < Pow10(WIDTH) && TsAt(db, stream, v).value < Pow10(WIDTH))
  }

  /** Only index entries of the stream lie under its index prefix. */
  lemma UnderPrefix(k: Key, stream: string)
    requires Retention.IndexPrefix(stream) <= Encode(k) && Retention.SlashFree(stream)
    requires k.IndexKey? ==> Retention.SlashFree(k.stream)
    ensures k.IndexKey? && k.stream == stream
  {
    assert Retention.IndexPrefix(stream)[0] == 'i';
    assert Encode(k)[0] == 'i';
    if k.IndexKey? {
      Retention.PrefixDecides("i/", stream, k.stream, Retention.IndexSuffix(k.ts, k.version));
      assert Encode(k) == "i/" + k.stream + "/" + Retention.IndexSuffix(k.ts, k.version);
    }
  }

  lemma EncodedIndex(db: Db, stream: string)
    requires IndexOk(db, stream) && Fits(db, stream)
    ensures Retention.Indexed(EncodedKeys(db), stream, Timestamps(db, stream))
  {
    var keys, ts := EncodedKeys(db), Timestamps(db, stream);
    forall v | v in ts ensures Retention.IndexKey(stream, ts[v], v) in keys {
      assert IndexKey(stream, ts[v], v) in db;
      assert Encode(IndexKey(stream, ts[v], v)) in keys;
    }
    forall k | k in keys && Retention.IndexPrefix(stream) <= k ensures exists v ::
      v in ts && k == Retention.IndexKey(stream, ts[v], v) {
      var key :| key in db && Encode(key) == k;
      if key.IndexKey? {
        assert IndexKey(key.stream, key.ts, key.version) in db;
      }
      UnderPrefix(key, stream);
      assert key == IndexKey(stream, key.ts, key.version);
      assert key.version in ts && ts[key.version] == key.ts;
    }
  }

  lemma StreamMonotone(db: Db, stream: string)
    requires StreamOk(db, stream) && Fits(db, stream)
    ensures Retention.Monotone(Timestamps(db, stream))
  {
    var ts := Timestamps(db, stream);
    forall u, v | u in ts && v in ts && u < v ensures ts[u] <= ts[v] {
      assert RecordKey(stream, u) in db && RecordKey(stream, v) in db;
    }
  }

  /** Searching the store by timestamp after any run with indexed appends: the first of the stream's own records at or
      after the target, or none when there is none. */
  method SeekAfterRun(ghost steps: seq<Step>, db: Db, stream: string, target: nat) returns (r: Option<nat>)
    requires Run(steps).Some? && db == Run(steps).value.db && Fits(db, stream) && target < Pow10(WIDTH)
    requires forall i :: 0 <= i < |steps| && steps[i].Begin? ==> AllIndexing(steps[i].ops, stream)
    ensures r.Some? ==> TsAt(db, stream, r.value).Some? && TsAt(db, stream, r.value).value >= target
    ensures r.Some? ==> forall u: nat :: u < r.value && TsAt(db, stream, u).Some? ==> TsAt(db, stream, u).value < target
    ensures r.None? ==> forall u: nat :: TsAt(db, stream, u).Some? ==> TsAt(db, stream, u).value < target
  {
    RunKeeps(steps);
    assert StreamOk(db, stream);
    IndexFollowsRecords(steps, stream);
    EncodedIndex(db, stream);
    StreamMonotone(db, stream);
    ghost var ts := Timestamps(db, stream);
    r := Retention.SeekTimestamp(EncodedKeys(db), stream, target, ts);
    forall u: nat | TsAt(db, stream, u).Some? ensures u in ts && ts[u] == TsAt(db, stream, u).value {
    }
  }
}
