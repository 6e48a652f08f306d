/**
 What a stream holds: over every interleaving, the records from its start to its tail carry, one by one and in order,
 the payloads of the appends that were committed to it.
 */
module Payloads {
  import opened Prelude
  import opened Transactions
  import opened Interleaving
  import Effects

  function DataOf(events: seq<NewEvent>): (r: seq<Bytes>)
    ensures |r| == |events| && forall i :: 0 <= i < |r| ==> r[i] == events[i].data
  {
    seq(|events|, i requires 0 <= i < |events| => events[i].data)
  }

  /** The payloads an operation appends to the stream. */
  function OpData(op: Op, stream: string): seq<Bytes> {
    if op.Append? && op.stream == stream then DataOf(op.events) else []
  }

  function OpsData(ops: seq<Op>, stream: string): seq<Bytes> {
    if ops == [] then [] else OpsData(ops[..|ops| - 1], stream) + OpData(ops[|ops| - 1], stream)
  }

  /** The payloads committed to the stream in a run. */
  function Committed(steps: seq<Step>, stream: string): seq<Bytes> {
    if steps == [] then []
    else
      var n := |steps| - 1;
      Committed(steps[..n], stream)
      + match Run(steps[..n])
        case None => []
        case Some(s) =>
          if steps[n].Finish? && steps[n].id in s.open && Commits(s, s.open[steps[n].id])
          then OpsData(s.open[steps[n].id].ops, stream) else []
  }

  /** The stream's own records, from its start to its tail, carry exactly these payloads. */
  ghost predicate Carries(db: Db, stream: string, log: seq<Bytes>) {
    match Get(db, TailKey(stream))
    case None => log == []
    case Some(t) =>
      && t.TailV? && t.version + 1 == StartOf(db, stream) + |log|
      && forall i :: 0 <= i < |log| ==> Holds(db, stream, StartOf(db, stream) + i, log[i])
  }

  ghost predicate Holds(db: Db, stream: string, v: nat, data: Bytes) {
    var r := Get(db, RecordKey(stream, v));
    r.Some? && r.value.RecordV? && r.value.data == data
  }

  lemma SameCarries(a: Db, b: Db, stream: string, log: seq<Bytes>)
    requires Carries(a, stream, log)
    requires Get(b, TailKey(stream)) == Get(a, TailKey(stream)) && Get(b, ForkKey(stream)) == Get(a, ForkKey(stream))
    requires forall v: nat :: Get(b, RecordKey(stream, v)) == Get(a, RecordKey(stream, v))
    ensures Carries(b, stream, log)
  {
    assert StartOf(b, stream) == StartOf(a, stream);
    forall i | 0 <= i < |log| ensures Holds(b, stream, StartOf(b, stream) + i, log[i]) {
      assert Holds(a, stream, StartOf(a, stream) + i, log[i]);
    }
  }

  lemma AppendCarries(db: Db, seqNo: nat, op: Op, log: seq<Bytes>)
    requires op.Append? && Execute(db, seqNo, op).Ok? && StreamOk(db, op.stream) && Carries(db, op.stream, log)
    ensures Carries(Effects.Done(db, seqNo, op), op.stream, log + DataOf(op.events))
  {
    var after, start, all := Effects.Done(db, seqNo, op), StartOf(db, op.stream), log + DataOf(op.events);
    AppendedTail(db, seqNo, op, log);
    forall i | 0 <= i < |all| ensures Holds(after, op.stream, start + i, all[i]) {
      AppendedHolds(db, seqNo, op, log, i);
    }
  }

  lemma AppendedTail(db: Db, seqNo: nat, op: Op, log: seq<Bytes>)
    requires op.Append? && Execute(db, seqNo, op).Ok? && StreamOk(db, op.stream) && Carries(db, op.stream, log)
    ensures FirstVersion(db, op.stream) == StartOf(db, op.stream) + |log|
    ensures var after := Effects.Done(db, seqNo, op);
            && StartOf(after, op.stream) == StartOf(db, op.stream)
            && Get(after, TailKey(op.stream)).Some? && after[TailKey(op.stream)].TailV?
            && after[TailKey(op.stream)].version + 1 == StartOf(db, op.stream) + |log| + |op.events|
  {
    var after, next := Effects.Done(db, seqNo, op), FirstVersion(db, op.stream);
    Effects.AppendMovesTail(db, seqNo, op, next, LastTs(db, op.stream));
    Effects.AppendElsewhere(db, seqNo, op, next, LastTs(db, op.stream));
    assert Get(after, ForkKey(op.stream)) == Get(db, ForkKey(op.stream));
  }

  lemma AppendedHolds(db: Db, seqNo: nat, op: Op, log: seq<Bytes>, i: nat)
    requires op.Append? && Execute(db, seqNo, op).Ok? && StreamOk(db, op.stream) && Carries(db, op.stream, log)
    requires i < |log| + |op.events|
    ensures Holds(Effects.Done(db, seqNo, op), op.stream, StartOf(db, op.stream) + i, (log + DataOf(op.events))[i])
  {
    var next := FirstVersion(db, op.stream);
    AppendedTail(db, seqNo, op, log);
    if i < |log| {
      assert Holds(db, op.stream, StartOf(db, op.stream) + i, log[i]);
      Effects.AppendElsewhere(db, seqNo, op, next, LastTs(db, op.stream));
    } else {
      Effects.AppendRecorded(db, seqNo, op, next, LastTs(db, op.stream), i - |log|);
    }
  }

  lemma ForkCarries(db: Db, seqNo: nat, op: Op, stream: string, log: seq<Bytes>)
    requires op.Fork? && Execute(db, seqNo, op).Ok? && StreamOk(db, stream) && Carries(db, stream, log)
    ensures Carries(Effects.Done(db, seqNo, op), stream, log)
  {
    Effects.ForkMeans(db, seqNo, op.parent, op.at, op.child);
    var after := Effects.Done(db, seqNo, op);
    if stream == op.child {
      assert Get(after, ForkKey(stream)) == Some(ForkV(op.parent, op.at));
    } else {
      SameCarries(db, after, stream, log);
    }
  }

  lemma StepCarries(p: Point, op: Op, stream: string, log: seq<Bytes>)
    requires DbOk(p.db) && Carries(p.db, stream, log) && Advance(p, op).Some?
    ensures Carries(Advance(p, op).value.db, stream, log + OpData(op, stream))
  {
    assert StreamOk(p.db, stream);
    assert log + [] == log;
    if op.Append? && op.stream == stream {
      AppendCarries(p.db, p.seqNo, op, log);
    } else if op.Fork? {
      ForkCarries(p.db, p.seqNo, op, stream, log);
    } else {
      OtherCarries(p.db, p.seqNo, op, stream, log);
    }
  }

  lemma OtherCarries(db: Db, seqNo: nat, op: Op, stream: string, log: seq<Bytes>)
    requires Execute(db, seqNo, op).Ok? && Carries(db, stream, log) && !op.Fork? && !(op.Append? && op.stream == stream)
    ensures Carries(Effects.Done(db, seqNo, op), stream, log)
  {
    match op
    case Append(target, expected, token, events, indexed) =>
      Effects.AppendElsewhere(db, seqNo, op, FirstVersion(db, target), LastTs(db, target));
    case SetFence(target, token) => Effects.SetFenceMeans(db, seqNo, target, token);
    case Delete(target) => Effects.DeleteMeans(db, seqNo, target);
    case Publish(target, through, state) => Effects.PublishMeans(db, seqNo, target, through, state);
    SameCarries(db, Effects.Done(db, seqNo, op), stream, log);
  }

  lemma {:induction false} AfterCarries(p: Point, ops: seq<Op>, stream: string, log: seq<Bytes>)
    requires DbOk(p.db) && Carries(p.db, stream, log) && After(p, ops).Some?
    ensures DbOk(After(p, ops).value.db) && Carries(After(p, ops).value.db, stream, log + OpsData(ops, stream))
  {
    if ops == [] {
      assert log + [] == log;
    } else {
      var n := |ops| - 1;
      AfterCarries(p, ops[..n], stream, log);
      var q := After(p, ops[..n]).value;
      StepCarries(q, ops[n], stream, log + OpsData(ops[..n], stream));
      ExecuteKeeps(q.db, q.seqNo, ops[n]);
      ConcatAssociates(log, OpsData(ops[..n], stream), OpData(ops[n], stream));
    }
  }

  lemma CommitCarries(s: System, t: Txn, stream: string, log: seq<Bytes>)
    requires DbOk(s.db) && Carries(s.db, stream, log) && SeesUnwritten(s, t) && Commits(s, t)
    ensures Carries(Interleaving.Committed(s.db, t, Outcome(t).value), stream, log + OpsData(t.ops, stream))
  {
    var e := Outcome(t).value;
    assert After(Point(s.db, SeqOf(t.snapshot)), t.ops) == Some(Point(Patched(s.db, e.writes), e.seqNo)) by {
      CommitIsAtomic(s, t);
      AfterIsExecuteAll(s.db, SeqOf(t.snapshot), t.ops);
    }
    AfterCarries(Point(s.db, SeqOf(t.snapshot)), t.ops, stream, log);
    StampCarries(s.db, t, e, stream, log + OpsData(t.ops, stream));
  }

  /** Stamping the counter touches no stream. */
  lemma StampCarries(db: Db, t: Txn, e: Effect, stream: string, log: seq<Bytes>)
    requires Carries(Patched(db, e.writes), stream, log)
    ensures Carries(Interleaving.Committed(db, t, e), stream, log)
  {
    SameCarries(Patched(db, e.writes), Interleaving.Committed(db, t, e), stream, log);
  }

  /** Over every interleaving: the records of a stream, from its start to its tail, carry in order the payloads of its
      committed appends, each of them once. */
  lemma {:induction false} RecordsCarryPayloads(steps: seq<Step>, stream: string)
    requires Run(steps).Some?
    ensures Carries(Run(steps).value.db, stream, Committed(steps, stream))
  {
    if steps != [] {
      var n := |steps| - 1;
      RecordsCarryPayloads(steps[..n], stream);
      RunKeeps(steps[..n]);
      StepRunCarries(Run(steps[..n]).value, steps[n], stream, Committed(steps[..n], stream));
    }
  }

  lemma StepRunCarries(s: System, step: Step, stream: string, log: seq<Bytes>)
    requires Snapshots(s) && DbOk(s.db) && Allowed(s, step) && Carries(s.db, stream, log)
    ensures Carries(Next(s, step).db, stream,
                    log + if step.Finish? && Commits(s, s.open[step.id]) then OpsData(s.open[step.id].ops, stream)
                      else [])
  {
    assert log + [] == log;
    if step.Finish? && Commits(s, s.open[step.id]) {
      assert SeesUnwritten(s, s.open[step.id]);
      CommitCarries(s, s.open[step.id], stream, log);
    }
  }
}
