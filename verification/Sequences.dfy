/** The global sequence counter, which is left out of conflict detection, and the sequence numbers it hands out. */
module Sequences {
  import opened Prelude
  import opened Transactions
  import opened Interleaving

  /** The sequence numbers an operation draws: one for every event and one for a publication. */
  function Draws(op: Op): nat {
    match op
    case Append(_, _, _, events, _) => |events|
    case Publish(_, _, _) => 1
    case _ => 0
  }

  function Drawn(ops: seq<Op>): nat {
    if ops == [] then 0 else Drawn(ops[..|ops| - 1]) + Draws(ops[|ops| - 1])
  }

  lemma {:induction false} CounterCounts(p: Point, ops: seq<Op>)
    requires After(p, ops).Some?
    ensures After(p, ops).value.seqNo == p.seqNo + Drawn(ops)
  {
    if ops != [] {
      CounterCounts(p, ops[..|ops| - 1]);
    }
  }

  /** A transaction's counter ends as many above its snapshot's as it draws numbers. */
  lemma OutcomeCounts(t: Txn)
    requires Outcome(t).Ok?
    ensures Outcome(t).value.seqNo == SeqOf(t.snapshot) + Drawn(t.ops)
  {
    AfterIsExecuteAll(t.snapshot, SeqOf(t.snapshot), t.ops);
    CounterCounts(Point(t.snapshot, SeqOf(t.snapshot)), t.ops);
  }

  /** A commit sets the counter to its snapshot's, moved on by the numbers it draws. */
  lemma CommitSetsCounter(s: System, id: nat)
    requires id in s.open && s.open[id].sequenced && Commits(s, s.open[id])
    ensures SeqOf(Next(s, Finish(id)).db) == SeqOf(s.open[id].snapshot) + Drawn(s.open[id].ops)
  {
    var t := s.open[id];
    OutcomeCounts(t);
    assert Get(Committed(s.db, t, Outcome(t).value), SeqKey) == Some(SeqV(Outcome(t).value.seqNo));
  }

  /** A commit moves the counter back exactly when the numbers it draws do not make up for what others have counted
      since its snapshot. */
  lemma CounterMovesBackIff(s: System, id: nat)
    requires id in s.open && s.open[id].sequenced && Commits(s, s.open[id])
    ensures SeqOf(Next(s, Finish(id)).db) < SeqOf(s.db)
            <==> SeqOf(s.open[id].snapshot) + Drawn(s.open[id].ops) < SeqOf(s.db)
  {
    CommitSetsCounter(s, id);
  }

  // ---- sequence numbers of records ----

  /** The sequence number of a record, if the version exists. */
  function SeqNoAt(db: Db, stream: string, v: nat): Option<nat> {
    var r := Get(db, RecordKey(stream, v));
    if r.Some? && r.value.RecordV? then Some(r.value.seqNo) else None
  }

  lemma AdvanceOk(p: Point, op: Op)
    requires DbOk(p.db) && Advance(p, op).Some?
    ensures DbOk(Advance(p, op).value.db)
  {
    ExecuteKeeps(p.db, p.seqNo, op);
  }

  lemma AdvanceKeepsSeq(p: Point, op: Op, stream: string, v: nat)
    requires DbOk(p.db) && Advance(p, op).Some? && SeqNoAt(p.db, stream, v).Some?
    ensures SeqNoAt(Advance(p, op).value.db, stream, v) == SeqNoAt(p.db, stream, v)
  {
    ExecuteKeeps(p.db, p.seqNo, op);
    PatchedAt(p.db, Execute(p.db, p.seqNo, op).value.writes, RecordKey(stream, v));
  }

  lemma {:induction false} AfterOk(p: Point, ops: seq<Op>)
    requires DbOk(p.db) && After(p, ops).Some?
    ensures DbOk(After(p, ops).value.db)
  {
    if ops != [] {
      AfterOk(p, ops[..|ops| - 1]);
      AdvanceOk(After(p, ops[..|ops| - 1]).value, ops[|ops| - 1]);
    }
  }

  lemma {:induction false} AfterKeepsSeq(p: Point, ops: seq<Op>, stream: string, v: nat)
    requires DbOk(p.db) && After(p, ops).Some? && SeqNoAt(p.db, stream, v).Some?
    ensures SeqNoAt(After(p, ops).value.db, stream, v) == SeqNoAt(p.db, stream, v)
  {
    if ops != [] {
      var n := |ops| - 1;
      AfterOk(p, ops[..n]);
      AfterKeepsSeq(p, ops[..n], stream, v);
      AdvanceKeepsSeq(After(p, ops[..n]).value, ops[n], stream, v);
    }
  }

  /** A record of the batch an append has just written. */
  lemma AppendedSeq(p: Point, op: Op, i: nat)
    requires DbOk(p.db) && op.Append? && Advance(p, op).Some? && i < |op.events|
    ensures SeqNoAt(Advance(p, op).value.db, op.stream, FirstVersion(p.db, op.stream) + i) == Some(p.seqNo + 1 + i)
  {
    assert StreamOk(p.db, op.stream);
    AppendedRecord(p.db, p.seqNo, op.stream, op.events, op.indexed, FirstVersion(p.db, op.stream) + i);
  }

  lemma SameTail(a: Db, b: Db, stream: string)
    requires VersionOf(a, stream) == VersionOf(b, stream)
    ensures FirstVersion(a, stream) == FirstVersion(b, stream)
  {
  }

  lemma SeqThen(p: Point, op: Op, behind: seq<Op>, i: nat, end: Option<Point>, v: nat, n: nat)
    requires DbOk(p.db) && op.Append? && Advance(p, op).Some? && i < |op.events|
    requires After(Advance(p, op).value, behind) == end && end.Some?
    requires v == FirstVersion(p.db, op.stream) + i && n == p.seqNo + 1 + i
    ensures SeqNoAt(end.value.db, op.stream, v) == Some(n)
  {
    AppendedSeq(p, op, i);
    AdvanceOk(p, op);
    AfterKeepsSeq(Advance(p, op).value, behind, op.stream, v);
  }

  lemma ViewBefore(p: Point, before: seq<Op>, stream: string)
    requires DbOk(p.db) && After(p, before).Some? && forall j :: 0 <= j < |before| ==> !Extends(before[j], stream)
    ensures var view := After(p, before).value;
            DbOk(view.db) && FirstVersion(view.db, stream) == FirstVersion(p.db, stream)
              && view.seqNo == p.seqNo + Drawn(before)
  {
    AfterOk(p, before);
    CounterCounts(p, before);
    TailUntouched(p, before, stream);
    SameTail(After(p, before).value.db, p.db, stream);
  }

  lemma BatchSeqAfter(p: Point, before: seq<Op>, op: Op, behind: seq<Op>, i: nat, end: Option<Point>, v: nat, n: nat)
    requires DbOk(p.db) && After(p, before + [op] + behind) == end && end.Some? && op.Append? && i < |op.events|
    requires forall j :: 0 <= j < |before| ==> !Extends(before[j], op.stream)
    requires v == FirstVersion(p.db, op.stream) + i && n == p.seqNo + Drawn(before) + 1 + i
    ensures SeqNoAt(end.value.db, op.stream, v) == Some(n)
  {
    AfterAt(p, before, op, behind);
    ViewBefore(p, before, op.stream);
    SeqThen(After(p, before).value, op, behind, i, end, v, n);
  }

  /** Stamping the counter changes no record. */
  lemma CommittedSeqNo(db: Db, t: Txn, e: Effect, stream: string, v: nat)
    ensures SeqNoAt(Committed(db, t, e), stream, v) == SeqNoAt(Patched(db, e.writes), stream, v)
  {
    var k := RecordKey(stream, v);
    assert Get(Committed(db, t, e), k) == Get(Patched(db, e.writes), k);
  }

  /** The transaction `t` would commit as, with the operations `ops`, and its effect. */
  ghost predicate CommitsAs(s: System, t: Txn, ops: seq<Op>, e: Effect) {
    var t' := t.(ops := ops);
    SeesUnwritten(s, t') && Commits(s, t') && Outcome(t') == Ok(e)
  }

  /** A committed transaction, run step by step on the store it commits to. */
  lemma CommittedPoint(s: System, t: Txn, ops: seq<Op>, e: Effect)
    requires CommitsAs(s, t, ops, e)
    ensures After(Point(s.db, SeqOf(t.snapshot)), ops) == Some(Point(Patched(s.db, e.writes), e.seqNo))
  {
    CommitIsAtomic(s, t.(ops := ops));
    AfterIsExecuteAll(s.db, SeqOf(t.snapshot), ops);
  }

  /** The same, for the sequence numbers of the committed store. */
  lemma SeqCommitted(
    db: Db, t: Txn, e: Effect, before: seq<Op>, op: Op, behind: seq<Op>, i: nat, start: nat, v: nat, n: nat)
    requires DbOk(db) && op.Append? && i < |op.events| && forall j :: 0 <= j < |before| ==>
               !Extends(before[j], op.stream)
    requires After(Point(db, start), before + [op] + behind) == Some(Point(Patched(db, e.writes), e.seqNo))
    requires v == FirstVersion(db, op.stream) + i && n == start + Drawn(before) + 1 + i
    ensures SeqNoAt(Committed(db, t, e), op.stream, v) == Some(n)
  {
    BatchSeqAfter(Point(db, start), before, op, behind, i, Some(Point(Patched(db, e.writes), e.seqNo)), v, n);
    CommittedSeqNo(db, t, e, op.stream, v);
  }

  /** The records a committed transaction's first append to a stream writes: numbered from its snapshot's counter on. */
  lemma CommittedSeq(s: System, t: Txn, e: Effect, before: seq<Op>, op: Op, behind: seq<Op>, i: nat, v: nat, n: nat)
    requires CommitsAs(s, t, before + [op] + behind, e)
    requires DbOk(s.db) && op.Append? && i < |op.events|
    requires forall j :: 0 <= j < |before| ==> !Extends(before[j], op.stream)
    requires v == FirstVersion(s.db, op.stream) + i && n == SeqOf(t.snapshot) + Drawn(before) + 1 + i
    ensures SeqNoAt(Committed(s.db, t, e), op.stream, v) == Some(n)
  {
    CommittedPoint(s, t, before + [op] + behind, e);
    SeqCommitted(s.db, t, e, before, op, behind, i, SeqOf(t.snapshot), v, n);
  }

  /** Sequence numbers within one stream: the first record a transaction of any operations appends to a stream continues
      above the stream's last record exactly when the counter of its snapshot, moved on by the operations before, had
      not fallen below that record's number. */
  lemma SequenceContinuesIff(s: System, t: Txn, e: Effect, before: seq<Op>, op: Op, behind: seq<Op>, v: nat, last: nat)
    requires CommitsAs(s, t, before + [op] + behind, e)
    requires DbOk(s.db) && op.Append? && op.events != []
    requires forall j :: 0 <= j < |before| ==> !Extends(before[j], op.stream)
    requires VersionOf(s.db, op.stream) == Some(v) && SeqNoAt(s.db, op.stream, v) == Some(last)
    ensures var next := SeqNoAt(Committed(s.db, t, e), op.stream, v + 1);
            next.Some? && (next.value > last <==> SeqOf(t.snapshot) + Drawn(before) >= last)
  {
    TailFirst(s.db, op.stream, v);
    CommittedSeq(s, t, e, before, op, behind, 0, v + 1, SeqOf(t.snapshot) + Drawn(before) + 1);
  }

  lemma TailFirst(db: Db, stream: string, v: nat)
    requires VersionOf(db, stream) == Some(v)
    ensures FirstVersion(db, stream) == v + 1
  {
  }

  // ---- runs in which they move back ----

  /** A plain append in a transaction of its own. */
  function One(stream: string, events: seq<NewEvent>): seq<Op> {
    [Append(stream, Any, None, events, false)]
  }

  predicate Good(events: seq<NewEvent>) { events != [] && BatchFits(DataSize, events) }

  predicate OfStream(k: Key, stream: string) { k != SeqKey && k.stream == stream }

  lemma OneRuns(db: Db, seqNo: nat, stream: string, events: seq<NewEvent>)
    requires Good(events)
    ensures ExecuteAll(db, seqNo, One(stream, events)) == Ok(AppendEffect(db, seqNo, stream, events, false))
  {
    var ops := One(stream, events);
    assert ops[..0] == [];
    assert ExecuteAll(db, seqNo, ops[..0]) == Ok(Effect(map[], seqNo));
    GetExtensional(Patched(db, map[]), db);
    var e := AppendEffect(db, seqNo, stream, events, false);
    assert map[] + e.writes == e.writes;
  }

  lemma WritesOwn(db: Db, seqNo: nat, stream: string, events: seq<NewEvent>)
    requires events != []
    ensures forall k :: k in AppendEffect(db, seqNo, stream, events, false).writes ==> OfStream(k, stream)
  {
    EventWritesOwn(stream, FirstVersion(db, stream), seqNo + 1, LastTs(db, stream), events, |events|);
  }

  lemma {:induction false} EventWritesOwn(
    stream: string, first: nat, startSeq: nat, lastTs: nat, events: seq<NewEvent>, n: nat)
    requires n <= |events|
    ensures forall k :: k in EventWrites(stream, first, startSeq, lastTs, events, false, n) ==> OfStream(k, stream)
  {
    if n > 0 {
      EventWritesOwn(stream, first, startSeq, lastTs, events, n - 1);
    }
  }

  /** No key of the stream was written since the transaction began. */
  predicate Undisturbed(s: System, t: Txn, stream: string) {
    forall k :: OfStream(k, stream) && k in s.stamps ==> s.stamps[k] <= t.begun
  }

  lemma OneCommits(s: System, id: nat, stream: string, events: seq<NewEvent>)
    requires id in s.open && s.open[id].ops == One(stream, events) && s.open[id].sequenced && Good(events)
    requires Undisturbed(s, s.open[id], stream)
    ensures Commits(s, s.open[id])
    ensures var s' := Next(s, Finish(id));
            && s'.open == s.open - {id} && s'.clock == s.clock + 1
            && SeqOf(s'.db) == SeqOf(s.open[id].snapshot) + |events|
            && (forall k :: k in s'.stamps ==>
                  (k in s.stamps && s'.stamps[k] == s.stamps[k]) || (OfStream(k, stream) && s'.stamps[k] == s'.clock))
  {
    var t := s.open[id];
    OneRuns(t.snapshot, SeqOf(t.snapshot), stream, events);
    WritesOwn(t.snapshot, SeqOf(t.snapshot), stream, events);
    var ops := One(stream, events);
    assert ops[..0] == [];
    assert AllReads(ops) == AllReads(ops[..0]) + Reads(ops[0]) == {TailKey(stream)};
    CommitSetsCounter(s, id);
    assert Drawn(ops) == Drawn(ops[..0]) + |events|;
  }

  predicate Clocked(s: System) { forall k :: k in s.stamps ==> s.stamps[k] <= s.clock }

  lemma RunSteps(s: System, steps: seq<Step>, step: Step)
    requires Run(steps) == Some(s) && Allowed(s, step)
    ensures Run(steps + [step]) == Some(Next(s, step))
  {
    RunSnoc(steps, step);
  }

  /** Two appends begun together, the second finishing first. */
  function Overlap(a: string, xs: seq<NewEvent>, b: string, ys: seq<NewEvent>): seq<Step> {
    [Begin(0, One(b, ys), true)] + [Begin(1, One(a, xs), true)] + [Finish(1)]
  }

  /** The state after that, with the first append still open. */
  lemma OverlapRuns(a: string, xs: seq<NewEvent>, b: string, ys: seq<NewEvent>)
    requires a != b && Good(xs) && Good(ys)
    ensures Run(Overlap(a, xs, b, ys)).Some?
    ensures var s := Run(Overlap(a, xs, b, ys)).value;
            && s.open == map[0 := Txn(One(b, ys), true, 0, map[])]
            && SeqOf(s.db) == |xs| && s.clock == 1 && Clocked(s)
            && Undisturbed(s, s.open[0], b)
            && s.db == Committed(map[], Txn(One(a, xs), true, 0, map[]), AppendEffect(map[], 0, a, xs, false))
  {
    var none: Db := map[];
    var s1 := Next(Initial, Begin(0, One(b, ys), true));
    var s2 := Next(s1, Begin(1, One(a, xs), true));
    RunSteps(Initial, [], Begin(0, One(b, ys), true));
    assert [] + [Begin(0, One(b, ys), true)] == [Begin(0, One(b, ys), true)];
    RunSteps(s1, [Begin(0, One(b, ys), true)], Begin(1, One(a, xs), true));
    RunSteps(s2, [Begin(0, One(b, ys), true)] + [Begin(1, One(a, xs), true)], Finish(1));
    OneCommits(s2, 1, a, xs);
    OneRuns(none, 0, a, xs);
    assert s2.open - {1} == map[0 := Txn(One(b, ys), true, 0, map[])];
  }

  /** The counter moves back in a run: an append of fewer events, begun before the other and finished after it. */
  lemma CounterMovesBackInRun(a: string, xs: seq<NewEvent>, b: string, ys: seq<NewEvent>)
    requires a != b && Good(xs) && Good(ys) && |ys| < |xs|
    ensures var before, after := Run(Overlap(a, xs, b, ys)), Run(Overlap(a, xs, b, ys) + [Finish(0)]);
            before.Some? && after.Some? && SeqOf(after.value.db) < SeqOf(before.value.db)
  {
    OverlapRuns(a, xs, b, ys);
    var s := Run(Overlap(a, xs, b, ys)).value;
    RunSteps(s, Overlap(a, xs, b, ys), Finish(0));
    OneCommits(s, 0, b, ys);
  }

  /** An append in a transaction of its own leaves the keys of other streams alone. */
  lemma OneKeepsOthers(s: System, id: nat, stream: string, events: seq<NewEvent>, k: Key)
    requires id in s.open && s.open[id].ops == One(stream, events) && Good(events) && k != SeqKey
             && !OfStream(k, stream)
    requires Commits(s, s.open[id])
    ensures Get(Next(s, Finish(id)).db, k) == Get(s.db, k)
  {
    var t := s.open[id];
    OneRuns(t.snapshot, SeqOf(t.snapshot), stream, events);
    WritesOwn(t.snapshot, SeqOf(t.snapshot), stream, events);
    assert k !in Outcome(t).value.writes;
  }

  /** The records and the tail of a stream begun by one append. */
  lemma FirstAppend(t: Txn, stream: string, xs: seq<NewEvent>)
    requires Good(xs)
    ensures var db := Committed(map[], t, AppendEffect(map[], 0, stream, xs, false));
            VersionOf(db, stream) == Some(|xs| - 1) && SeqNoAt(db, stream, |xs| - 1) == Some(|xs|)
  {
    var none: Db := map[];
    var e := AppendEffect(none, 0, stream, xs, false);
    assert StreamOk(none, stream);
    AppendedRecord(none, 0, stream, xs, false, |xs| - 1);
    AppendTail(none, 0, stream, xs, false, stream);
    CommittedTail(none, t, e, stream);
    CommittedSeqNo(none, t, e, stream, |xs| - 1);
  }

  lemma SameSeqNo(a: Db, b: Db, stream: string, v: nat)
    requires Get(a, RecordKey(stream, v)) == Get(b, RecordKey(stream, v))
             && Get(a, TailKey(stream)) == Get(b, TailKey(stream))
    ensures SeqNoAt(a, stream, v) == SeqNoAt(b, stream, v) && VersionOf(a, stream) == VersionOf(b, stream)
  {
  }

  /** The state once both appends have finished. */
  lemma OverlapEnds(a: string, xs: seq<NewEvent>, b: string, ys: seq<NewEvent>)
    requires a != b && Good(xs) && Good(ys)
    ensures Run(Overlap(a, xs, b, ys) + [Finish(0)]).Some?
    ensures var s := Run(Overlap(a, xs, b, ys) + [Finish(0)]).value;
            && s.open == map[] && SeqOf(s.db) == |ys| && Clocked(s)
            && VersionOf(s.db, a) == Some(|xs| - 1) && SeqNoAt(s.db, a, |xs| - 1) == Some(|xs|)
  {
    OverlapRuns(a, xs, b, ys);
    var s := Run(Overlap(a, xs, b, ys)).value;
    RunSteps(s, Overlap(a, xs, b, ys), Finish(0));
    OneCommits(s, 0, b, ys);
    FirstAppend(Txn(One(a, xs), true, 0, map[]), a, xs);
    OneKeepsOthers(s, 0, b, ys, RecordKey(a, |xs| - 1));
    OneKeepsOthers(s, 0, b, ys, TailKey(a));
    SameSeqNo(Next(s, Finish(0)).db, s.db, a, |xs| - 1);
    assert s.open - {0} == map[];
  }

  /** A run followed by one more append to `a`, begun and finished on its own. */
  function Sequel(steps: seq<Step>, a: string, zs: seq<NewEvent>): seq<Step> {
    steps + [Begin(1, One(a, zs), true)] + [Finish(1)]
  }

  /** The store after it. */
  function SequelDb(s: System, a: string, zs: seq<NewEvent>): Db
    requires Good(zs)
  {
    Committed(s.db, Txn(One(a, zs), true, s.clock, s.db), AppendEffect(s.db, SeqOf(s.db), a, zs, false))
  }

  lemma SequelCommits(s: System, a: string, zs: seq<NewEvent>)
    requires s.open == map[] && Clocked(s) && Good(zs)
    ensures var s' := Next(s, Begin(1, One(a, zs), true));
            && CommitsAs(s', Txn(One(a, zs), true, s.clock, s.db), [] + [Append(a, Any, None, zs, false)] + [],
                         AppendEffect(s.db, SeqOf(s.db), a, zs, false))
            && Next(s', Finish(1)).db == SequelDb(s, a, zs)
  {
    var s' := Next(s, Begin(1, One(a, zs), true));
    assert [] + [Append(a, Any, None, zs, false)] + [] == One(a, zs);
    OneCommits(s', 1, a, zs);
    OneRuns(s.db, SeqOf(s.db), a, zs);
  }

  lemma SequelRuns(s: System, steps: seq<Step>, a: string, zs: seq<NewEvent>)
    requires Run(steps) == Some(s) && s.open == map[] && Clocked(s) && Good(zs)
    ensures var end := Run(Sequel(steps, a, zs));
            end.Some? && end.value.db == SequelDb(s, a, zs)
  {
    RunSteps(s, steps, Begin(1, One(a, zs), true));
    RunSteps(Next(s, Begin(1, One(a, zs), true)), steps + [Begin(1, One(a, zs), true)], Finish(1));
    SequelCommits(s, a, zs);
  }

  lemma SequelNumbers(s: System, s1: System, a: string, zs: seq<NewEvent>, v: nat, last: nat, n: nat)
    requires Good(zs) && DbOk(s.db) && s1.db == s.db && n == SeqOf(s.db) + 1
    requires CommitsAs(s1, Txn(One(a, zs), true, s.clock, s.db), [] + [Append(a, Any, None, zs, false)] + [],
                       AppendEffect(s.db, SeqOf(s.db), a, zs, false))
    requires VersionOf(s.db, a) == Some(v) && SeqNoAt(s.db, a, v) == Some(last)
    ensures SeqNoAt(SequelDb(s, a, zs), a, v + 1) == Some(n) && SeqNoAt(SequelDb(s, a, zs), a, v) == Some(last)
  {
    var t, e := Txn(One(a, zs), true, s.clock, s.db), AppendEffect(s.db, SeqOf(s.db), a, zs, false);
    NextNumber(s1, t, e, a, zs, v, SeqOf(s.db));
    RecordStays(s, a, zs, v, t, e);
  }

  lemma SequelEnd(
    s: System, steps: seq<Step>, a: string, zs: seq<NewEvent>, v: nat, last: nat, n: nat) returns (end: System)
    requires Run(steps) == Some(s) && s.open == map[] && Clocked(s) && Good(zs) && DbOk(s.db) && n == SeqOf(s.db) + 1
    requires VersionOf(s.db, a) == Some(v) && SeqNoAt(s.db, a, v) == Some(last)
    ensures Run(Sequel(steps, a, zs)) == Some(end)
    ensures SeqNoAt(end.db, a, v + 1) == Some(n) && SeqNoAt(end.db, a, v) == Some(last)
  {
    SequelRuns(s, steps, a, zs);
    SequelCommits(s, a, zs);
    SequelNumbers(s, Next(s, Begin(1, One(a, zs), true)), a, zs, v, last, n);
    end := Run(Sequel(steps, a, zs)).value;
  }

  lemma OverlapState(a: string, xs: seq<NewEvent>, b: string, ys: seq<NewEvent>) returns (steps: seq<Step>, s: System)
    requires a != b && Good(xs) && Good(ys)
    ensures Run(steps) == Some(s)
    ensures s.open == map[] && SeqOf(s.db) == |ys| && Clocked(s) && DbOk(s.db)
    ensures VersionOf(s.db, a) == Some(|xs| - 1) && SeqNoAt(s.db, a, |xs| - 1) == Some(|xs|)
  {
    OverlapEnds(a, xs, b, ys);
    steps := Overlap(a, xs, b, ys) + [Finish(0)];
    RunKeeps(steps);
    s := Run(steps).value;
  }

  /** Sequence numbers are not monotone within a stream: after the counter has moved back, the next record of `a`,
      written by a transaction that overlaps with nothing, has a smaller number than the record before it. */
  lemma SequenceMovesBackInRun(a: string, xs: seq<NewEvent>, b: string, ys: seq<NewEvent>, zs: seq<NewEvent>)
    returns (steps: seq<Step>, end: System)
    requires a != b && Good(xs) && Good(ys) && Good(zs) && |ys| + 1 < |xs|
    ensures Run(steps) == Some(end)
    ensures SeqNoAt(end.db, a, |xs| - 1) == Some(|xs|) && SeqNoAt(end.db, a, |xs|) == Some(|ys| + 1)
  {
    var front, s := OverlapState(a, xs, b, ys);
    end := SequelEnd(s, front, a, zs, |xs| - 1, |xs|, |ys| + 1);
    steps := Sequel(front, a, zs);
  }

  lemma NextNumber(s: System, t: Txn, e: Effect, a: string, zs: seq<NewEvent>, v: nat, counter: nat)
    requires DbOk(s.db) && Good(zs) && SeqOf(t.snapshot) == counter && VersionOf(s.db, a) == Some(v)
    requires CommitsAs(s, t, [] + [Append(a, Any, None, zs, false)] + [], e)
    ensures SeqNoAt(Committed(s.db, t, e), a, v + 1) == Some(counter + 1)
  {
    TailFirst(s.db, a, v);
    CommittedSeq(s, t, e, [], Append(a, Any, None, zs, false), [], 0, v + 1, counter + 1);
  }

  lemma RecordStays(s: System, a: string, zs: seq<NewEvent>, v: nat, t: Txn, e: Effect)
    requires Good(zs) && DbOk(s.db) && SeqNoAt(s.db, a, v).Some? && e == AppendEffect(s.db, SeqOf(s.db), a, zs, false)
    ensures SeqNoAt(Committed(s.db, t, e), a, v) == SeqNoAt(s.db, a, v)
  {
    assert StreamOk(s.db, a);
    AppendedRecord(s.db, SeqOf(s.db), a, zs, false, v);
    CommittedSeqNo(s.db, t, e, a, v);
  }

  // ---- serial runs ----

  /** A transaction as the store issues it: whatever draws numbers also stamps the counter. */
  datatype Job = Job(ops: seq<Op>, sequenced: bool)

  predicate Stamped(job: Job) { job.sequenced || Drawn(job.ops) == 0 }

  /** Each transaction begins when the one before has finished. */
  function Serial(jobs: seq<Job>): seq<Step> {
    if jobs == [] then []
    else
      var last := jobs[|jobs| - 1];
      Serial(jobs[..|jobs| - 1]) + [Begin(0, last.ops, last.sequenced)] + [Finish(0)]
  }

  /** No number above `n`, those in snapshot keys included, and numbers strictly increase along each stream. */
  ghost predicate SeqOk(db: Db, n: nat) {
    && (forall stream, k: nat :: SnapKey(stream, k) in db ==> k <= n)
    && (forall stream, v: nat :: SeqNoAt(db, stream, v).Some? ==> SeqNoAt(db, stream, v).value <= n)
    && (forall stream, v: nat, w: nat :: v < w && SeqNoAt(db, stream, v).Some? && SeqNoAt(db, stream, w).Some? ==>
          SeqNoAt(db, stream, v).value < SeqNoAt(db, stream, w).value)
  }

  lemma AdvanceSeqAt(p: Point, op: Op, stream: string, v: nat)
    requires DbOk(p.db) && Advance(p, op).Some?
    ensures var first := FirstVersion(p.db, stream);
            SeqNoAt(Advance(p, op).value.db, stream, v)
            == if op.Append? && op.stream == stream && first <= v < first + |op.events|
              then Some(p.seqNo + 1 + (v - first))
               else SeqNoAt(p.db, stream, v)
  {
    assert StreamOk(p.db, stream);
    if op.Append? && op.stream == stream {
      AppendedRecord(p.db, p.seqNo, stream, op.events, op.indexed, v);
    } else {
      OtherRecords(p.db, p.seqNo, op, stream, v);
    }
  }

  lemma OtherRecords(db: Db, seqNo: nat, op: Op, stream: string, v: nat)
    requires Execute(db, seqNo, op).Ok? && !(op.Append? && op.stream == stream)
    ensures Get(Patched(db, Execute(db, seqNo, op).value.writes), RecordKey(stream, v)) == Get(db, RecordKey(stream, v))
  {
    if op.Append? {
      EventWritesAt(op.stream, FirstVersion(db, op.stream), seqNo + 1, LastTs(db, op.stream), op.events, op.indexed,
                    |op.events|);
    }
    PatchedAt(db, Execute(db, seqNo, op).value.writes, RecordKey(stream, v));
  }

  /** Records lie below the version the next append takes. */
  lemma RecordsBelow(db: Db, stream: string, v: nat)
    requires DbOk(db) && SeqNoAt(db, stream, v).Some?
    ensures v < FirstVersion(db, stream)
  {
    assert StreamOk(db, stream);
  }

  lemma AdvanceSnaps(p: Point, op: Op, stream: string, k: nat)
    requires Advance(p, op).Some?
    ensures Get(Advance(p, op).value.db, SnapKey(stream, k))
         == if op.Publish? && op.stream == stream && k == p.seqNo + 1 then Some(SnapV(op.through, op.state))
            else Get(p.db, SnapKey(stream, k))
  {
    if op.Append? {
      EventWritesAt(op.stream, FirstVersion(p.db, op.stream), p.seqNo + 1, LastTs(p.db, op.stream), op.events,
                    op.indexed, |op.events|);
    }
    PatchedAt(p.db, Execute(p.db, p.seqNo, op).value.writes, SnapKey(stream, k));
  }

  lemma AdvanceSeqOk(p: Point, op: Op)
    requires DbOk(p.db) && SeqOk(p.db, p.seqNo) && Advance(p, op).Some?
    ensures SeqOk(Advance(p, op).value.db, Advance(p, op).value.seqNo)
  {
    var q := Advance(p, op).value;
    forall stream, k: nat | SnapKey(stream, k) in q.db ensures k <= q.seqNo {
      AdvanceSnaps(p, op, stream, k);
    }
    forall stream, v: nat | SeqNoAt(q.db, stream, v).Some? ensures SeqNoAt(q.db, stream, v).value <= q.seqNo {
      AdvanceSeqAt(p, op, stream, v);
    }
    forall stream, v: nat, w: nat | v < w && SeqNoAt(q.db, stream, v).Some? && SeqNoAt(q.db, stream, w).Some?
      ensures SeqNoAt(q.db, stream, v).value < SeqNoAt(q.db, stream, w).value
    {
      AdvanceSeqAt(p, op, stream, v);
      AdvanceSeqAt(p, op, stream, w);
      if SeqNoAt(p.db, stream, w).Some? { RecordsBelow(p.db, stream, w); }
    }
  }

  lemma {:induction false} AfterSeqOk(p: Point, ops: seq<Op>)
    requires DbOk(p.db) && SeqOk(p.db, p.seqNo) && After(p, ops).Some?
    ensures SeqOk(After(p, ops).value.db, After(p, ops).value.seqNo)
  {
    if ops != [] {
      AfterOk(p, ops[..|ops| - 1]);
      AfterSeqOk(p, ops[..|ops| - 1]);
      AdvanceSeqOk(After(p, ops[..|ops| - 1]).value, ops[|ops| - 1]);
    }
  }

  /** The state between two transactions of a serial run. */
  ghost predicate Settled(s: System) {
    s.open == map[] && Clocked(s) && DbOk(s.db) && SeqOk(s.db, SeqOf(s.db))
  }

  lemma CommittedSeqOk(db: Db, t: Txn, e: Effect)
    requires SeqOk(Patched(db, e.writes), e.seqNo) && SeqKey !in e.writes
    requires !t.sequenced ==> e.seqNo == SeqOf(db)
    ensures SeqOk(Committed(db, t, e), SeqOf(Committed(db, t, e)))
  {
    var db' := Committed(db, t, e);
    assert SeqOf(db') == e.seqNo by {
      assert Get(db', SeqKey) == if t.sequenced then Some(SeqV(e.seqNo)) else Get(db, SeqKey);
    }
    forall stream, v: nat ensures SeqNoAt(db', stream, v) == SeqNoAt(Patched(db, e.writes), stream, v) {
      CommittedSeqNo(db, t, e, stream, v);
    }
    forall stream, k: nat | SnapKey(stream, k) in db' ensures k <= e.seqNo {
      assert Get(db', SnapKey(stream, k)) == Get(Patched(db, e.writes), SnapKey(stream, k));
    }
  }

  lemma NoCounterInOp(db: Db, seqNo: nat, op: Op)
    requires Execute(db, seqNo, op).Ok?
    ensures SeqKey !in Execute(db, seqNo, op).value.writes
  {
    if op.Append? {
      EventWritesAt(op.stream, FirstVersion(db, op.stream), seqNo + 1, LastTs(db, op.stream), op.events, op.indexed,
                    |op.events|);
    }
  }

  lemma {:induction false} NoCounterWritten(db: Db, seqNo: nat, ops: seq<Op>)
    requires ExecuteAll(db, seqNo, ops).Ok?
    ensures SeqKey !in ExecuteAll(db, seqNo, ops).value.writes
  {
    if ops != [] {
      NoCounterWritten(db, seqNo, ops[..|ops| - 1]);
      var before := ExecuteAll(db, seqNo, ops[..|ops| - 1]).value;
      NoCounterInOp(Patched(db, before.writes), before.seqNo, ops[|ops| - 1]);
    }
  }

  /** What one transaction running alone leaves: its effect, if it is accepted. */
  lemma AloneCommits(s: System, job: Job)
    requires s.open == map[] && Clocked(s)
    ensures var s1 := Next(s, Begin(0, job.ops, job.sequenced));
            var s2 := Next(s1, Finish(0));
            var t, r := Txn(job.ops, job.sequenced, s.clock, s.db), ExecuteAll(s.db, SeqOf(s.db), job.ops);
            && s2.open == map[] && Clocked(s2)
            && s2.db == if r.Err? then s.db else Committed(s.db, t, r.value)
  {
    var s1 := Next(s, Begin(0, job.ops, job.sequenced));
    assert s1.open == map[0 := Txn(job.ops, job.sequenced, s.clock, s.db)];
    assert s1.open - {0} == map[];
  }

  lemma SettledStep(s: System, job: Job)
    requires Settled(s) && Stamped(job)
    ensures Settled(Next(Next(s, Begin(0, job.ops, job.sequenced)), Finish(0)))
  {
    AloneCommits(s, job);
    var r := ExecuteAll(s.db, SeqOf(s.db), job.ops);
    if r.Ok? {
      SettledDb(s.db, Txn(job.ops, job.sequenced, s.clock, s.db), r.value);
    }
  }

  lemma SettledDb(db: Db, t: Txn, e: Effect)
    requires DbOk(db) && SeqOk(db, SeqOf(db)) && ExecuteAll(db, SeqOf(db), t.ops) == Ok(e)
             && (t.sequenced || Drawn(t.ops) == 0)
    ensures DbOk(Committed(db, t, e)) && SeqOk(Committed(db, t, e), SeqOf(Committed(db, t, e)))
  {
    ExecuteAllKeeps(db, SeqOf(db), t.ops);
    CommittedKeeps(db, t, e);
    NoCounterWritten(db, SeqOf(db), t.ops);
    AfterIsExecuteAll(db, SeqOf(db), t.ops);
    CounterCounts(Point(db, SeqOf(db)), t.ops);
    AfterSeqOk(Point(db, SeqOf(db)), t.ops);
    CommittedSeqOk(db, t, e);
  }

  lemma {:induction false} SerialSettled(jobs: seq<Job>)
    requires forall i :: 0 <= i < |jobs| ==> Stamped(jobs[i])
    ensures Run(Serial(jobs)).Some? && Settled(Run(Serial(jobs)).value)
  {
    if jobs != [] {
      var n := |jobs| - 1;
      SerialSettled(jobs[..n]);
      var s, job := Run(Serial(jobs[..n])).value, jobs[n];
      RunSteps(s, Serial(jobs[..n]), Begin(0, job.ops, job.sequenced));
      RunSteps(Next(s, Begin(0, job.ops, job.sequenced)), Serial(jobs[..n]) + [Begin(0, job.ops, job.sequenced)],
               Finish(0));
      SettledStep(s, job);
    }
  }

  /** In every serial run sequence numbers strictly increase along each stream, and the counter is above them all. */
  lemma SerialSequencesIncrease(jobs: seq<Job>, stream: string, v: nat, w: nat)
    requires forall i :: 0 <= i < |jobs| ==> Stamped(jobs[i])
    requires v < w
    ensures Run(Serial(jobs)).Some?
    ensures var db := Run(Serial(jobs)).value.db;
            var a, b := SeqNoAt(db, stream, v), SeqNoAt(db, stream, w);
            a.Some? && b.Some? ==> a.value < b.value <= SeqOf(db)
  {
    SerialSettled(jobs);
  }
}
