/** What each operation of a transaction does to the store, key by key: the reading that its execution is held to. */
module Effects {
  import opened Prelude
  import opened Transactions
  import opened Interleaving

  /** The store after an accepted operation. */
  function Done(db: Db, seqNo: nat, op: Op): Db
    requires Execute(db, seqNo, op).Ok?
  {
    Patched(db, Execute(db, seqNo, op).value.writes)
  }

  /** Nothing but these keys changes. */
  ghost predicate OnlyKeys(before: Db, after: Db, keys: iset<Key>) {
    forall k :: k !in keys ==> Get(after, k) == Get(before, k)
  }

  // ---- appends ----

  /** The latest of the stream's last timestamp and the clocks of the first `n` events. */
  predicate Latest(ts: nat, last: nat, events: seq<NewEvent>, n: nat)
    requires n <= |events|
  {
    && last <= ts && (forall j :: 0 <= j < n ==> events[j].now <= ts)
    && (ts == last || exists j :: 0 <= j < n && events[j].now == ts)
  }

  lemma {:induction false} TsAfterMeans(last: nat, events: seq<NewEvent>, n: nat)
    requires n <= |events|
    ensures Latest(TsAfter(last, events, n), last, events, n)
  {
    if n > 0 {
      TsAfterMeans(last, events, n - 1);
    }
  }

  /** Where the stream ends: the version behind its tail, and its last timestamp. */
  predicate Ends(db: Db, stream: string, next: nat, last: nat) {
    if TailKey(stream) in db && db[TailKey(stream)].TailV? then
      next == db[TailKey(stream)].version + 1 && last == db[TailKey(stream)].ts
    else next == 0 && last == 0
  }

  /** The record of the `i`th event of a batch: its own version, sequence number and payload, and a timestamp that never
      moves back. */
  ghost predicate Recorded(db: Db, stream: string, next: nat, seqNo: nat, last: nat, events: seq<NewEvent>, i: nat)
    requires i < |events|
  {
    var r := Get(db, RecordKey(stream, next + i));
    && r.Some? && r.value.RecordV? && r.value.version == next + i && r.value.seqNo == seqNo + 1 + i
    && r.value.data == events[i].data && Latest(r.value.ts, last, events, i + 1)
  }

  /** `after` is `before` with the records of a batch, from version `first` on, and a tail. */
  ghost predicate Wrote(
    before: Db, after: Db, stream: string, first: nat, seqNo: nat, last: nat, events: seq<NewEvent>, indexed: bool,
    tail: Value)
  {
    after == Patched(before, EventWrites(stream, first, seqNo + 1, last, events, indexed, |events|)[TailKey(stream) :=
                               Some(tail)])
  }

  lemma RecordWritten(
    before: Db, after: Db, stream: string, first: nat, seqNo: nat, last: nat, events: seq<NewEvent>, indexed: bool,
    tail: Value, i: nat)
    requires Wrote(before, after, stream, first, seqNo, last, events, indexed, tail) && i < |events|
    ensures Recorded(after, stream, first, seqNo, last, events, i)
    ensures Get(after, RecordKey(stream, first + i)).value.ts == TsAfter(last, events, i + 1)
  {
    var w := EventWrites(stream, first, seqNo + 1, last, events, indexed, |events|);
    EventWritesAt(stream, first, seqNo + 1, last, events, indexed, |events|);
    TsAfterMeans(last, events, i + 1);
    assert w[RecordKey(stream, first + i)] == Some(RecordAt(events, first, seqNo + 1, last, i));
  }

  /** Nothing changes but the stream's tail, its records from `first` to before `end` and, if `indexed`, the index. */
  ghost predicate Untouched(before: Db, after: Db, stream: string, first: nat, end: nat, indexed: bool) {
    && OnlyKeys(before, after, iset k: Key | k.TailKey? || k.RecordKey? || (indexed && k.IndexKey?))
    && (forall s :: s != stream ==> Get(after, TailKey(s)) == Get(before, TailKey(s)))
    && (forall s, v: nat :: s != stream || v < first || v >= end ==>
          Get(after, RecordKey(s, v)) == Get(before, RecordKey(s, v)))
  }

  lemma WroteElsewhere(
    before: Db, after: Db, stream: string, first: nat, seqNo: nat, last: nat, events: seq<NewEvent>, indexed: bool,
    tail: Value)
    requires Wrote(before, after, stream, first, seqNo, last, events, indexed, tail)
    ensures Untouched(before, after, stream, first, first + |events|, indexed)
  {
    EventWritesAt(stream, first, seqNo + 1, last, events, indexed, |events|);
    if !indexed {
      PlainWrites(stream, first, seqNo + 1, last, events, |events|);
    }
  }

  /** What an append of events writes. */
  lemma AppendWrites(db: Db, seqNo: nat, op: Op, next: nat, last: nat) returns (tail: Value)
    requires op.Append? && Execute(db, seqNo, op).Ok? && Ends(db, op.stream, next, last)
    ensures op.events != [] && Execute(db, seqNo, op).value.seqNo == seqNo + |op.events|
    ensures tail == TailV(next + |op.events| - 1, TsAfter(last, op.events, |op.events|))
    ensures Wrote(db, Done(db, seqNo, op), op.stream, next, seqNo, last, op.events, op.indexed, tail)
  {
    tail := TailV(next + |op.events| - 1, TsAfter(last, op.events, |op.events|));
  }

  lemma AppendRecorded(db: Db, seqNo: nat, op: Op, next: nat, last: nat, i: nat)
    requires op.Append? && Execute(db, seqNo, op).Ok? && Ends(db, op.stream, next, last) && i < |op.events|
    ensures Recorded(Done(db, seqNo, op), op.stream, next, seqNo, last, op.events, i)
  {
    var tail := AppendWrites(db, seqNo, op, next, last);
    RecordWritten(db, Done(db, seqNo, op), op.stream, next, seqNo, last, op.events, op.indexed, tail, i);
  }

  lemma AppendElsewhere(db: Db, seqNo: nat, op: Op, next: nat, last: nat)
    requires op.Append? && Execute(db, seqNo, op).Ok? && Ends(db, op.stream, next, last)
    ensures Untouched(db, Done(db, seqNo, op), op.stream, next, next + |op.events|, op.indexed)
  {
    var tail := AppendWrites(db, seqNo, op, next, last);
    WroteElsewhere(db, Done(db, seqNo, op), op.stream, next, seqNo, last, op.events, op.indexed, tail);
  }

  lemma AppendMovesTail(db: Db, seqNo: nat, op: Op, next: nat, last: nat)
    requires op.Append? && Execute(db, seqNo, op).Ok? && Ends(db, op.stream, next, last)
    ensures var after, n := Done(db, seqNo, op), |op.events|;
            && n > 0 && Get(after, RecordKey(op.stream, next + n - 1)).Some?
            && after[RecordKey(op.stream, next + n - 1)].RecordV?
            && Get(after, TailKey(op.stream)) == Some(TailV(next + n - 1, after[RecordKey(op.stream, next + n - 1)].ts))
  {
    var tail := AppendWrites(db, seqNo, op, next, last);
    RecordWritten(db, Done(db, seqNo, op), op.stream, next, seqNo, last, op.events, op.indexed, tail, |op.events| - 1);
  }

  /** An accepted append writes one record per event, in order, behind the tail, each with its own payload; the tail
      moves to the last of them and takes its timestamp; the counter moves by the number of events; and nothing else
      changes but, if asked for, the index. */
  lemma AppendMeans(
    db: Db, seqNo: nat, stream: string, expected: Expected, token: Option<string>, events: seq<NewEvent>, indexed: bool,
    next: nat, last: nat)
    requires Execute(db, seqNo, Append(stream, expected, token, events, indexed)).Ok? && Ends(db, stream, next, last)
    ensures var op := Append(stream, expected, token, events, indexed);
            var after, n := Done(db, seqNo, op), |events|;
            && n > 0 && Execute(db, seqNo, op).value.seqNo == seqNo + n
            && (forall i :: 0 <= i < n ==> Recorded(after, stream, next, seqNo, last, events, i))
            && RecordKey(stream, next + n - 1) in after && after[RecordKey(stream, next + n - 1)].RecordV?
            && Get(after, TailKey(stream)) == Some(TailV(next + n - 1, after[RecordKey(stream, next + n - 1)].ts))
            && Untouched(db, after, stream, next, next + n, indexed)
  {
    var op := Append(stream, expected, token, events, indexed);
    AppendMovesTail(db, seqNo, op, next, last);
    AppendElsewhere(db, seqNo, op, next, last);
    forall i | 0 <= i < |events| ensures Recorded(Done(db, seqNo, op), stream, next, seqNo, last, events, i) {
      AppendRecorded(db, seqNo, op, next, last, i);
    }
  }

  /** The tail that an append at an explicit version leaves: at the end of the batch, but never moved back, with the
      latest timestamp. */
  predicate TailAt(tail: Option<Value>, next: nat, end: nat, last: nat, events: seq<NewEvent>) {
    && tail.Some? && tail.value.TailV? && tail.value.version == (if next > end then next else end) - 1
    && Latest(tail.value.ts, last, events, |events|)
  }

  /** The same for an append that starts at an explicit version, wherever the tail is. */
  lemma ReplayMeans(
    db: Db, seqNo: nat, stream: string, from: Option<nat>, events: seq<NewEvent>, indexed: bool, next: nat, last: nat)
    requires events != [] && Ends(db, stream, next, last)
    ensures var e, n := ReplayEffect(db, seqNo, stream, from, events, indexed), |events|;
            var after, first := Patched(db, e.writes), if from.Some? then from.value else next;
            && e.seqNo == seqNo + n && TailAt(Get(after, TailKey(stream)), next, first + n, last, events)
            && (forall i :: 0 <= i < n ==> Recorded(after, stream, first, seqNo, last, events, i))
            && Untouched(db, after, stream, first, first + n, indexed)
  {
    var n, first := |events|, if from.Some? then from.value else next;
    var after := Patched(db, ReplayEffect(db, seqNo, stream, from, events, indexed).writes);
    var tail := TailV((if next > first + n then next else first + n) - 1, TsAfter(last, events, n));
    TsAfterMeans(last, events, n);
    assert Wrote(db, after, stream, first, seqNo, last, events, indexed, tail);
    WroteElsewhere(db, after, stream, first, seqNo, last, events, indexed, tail);
    forall i | 0 <= i < n ensures Recorded(after, stream, first, seqNo, last, events, i) {
      RecordWritten(db, after, stream, first, seqNo, last, events, indexed, tail, i);
    }
  }

  lemma {:induction false} PlainWrites(
    stream: string, first: nat, startSeq: nat, lastTs: nat, events: seq<NewEvent>, n: nat)
    requires n <= |events|
    ensures forall k :: k in EventWrites(stream, first, startSeq, lastTs, events, false, n) ==> k.RecordKey?
  {
    if n > 0 {
      PlainWrites(stream, first, startSeq, lastTs, events, n - 1);
    }
  }

  // ---- when an append is accepted ----

  /** The fence that is set, if one is. */
  predicate Fenced(db: Db, stream: string, token: string) {
    Get(db, FenceKey(stream)) == Some(TokenV(token))
  }

  /** Within the limits of the store: at most 1000 events of at most one mebibyte. */
  predicate Acceptable(events: seq<NewEvent>) {
    |events| <= 1000 && forall e :: e in events ==> |e.data| <= 1048576
  }

  lemma FitsMeans(events: seq<NewEvent>)
    ensures BatchFits(DataSize, events) <==> Acceptable(events)
  {
    if BatchFits(DataSize, events) {
      forall e | e in events ensures |e.data| <= 1048576 {
        var i :| 0 <= i < |events| && events[i] == e;
        assert DataSize(events[i]) <= MAX_RECORD_BYTES;
      }
    }
    if Acceptable(events) {
      forall i | 0 <= i < |events| ensures DataSize(events[i]) <= MAX_RECORD_BYTES {
        assert events[i] in events;
      }
    }
  }

  /** The caller's token is not the one that is set. */
  predicate FencedOut(db: Db, stream: string, token: Option<string>) {
    && FenceKey(stream) in db && db[FenceKey(stream)].TokenV?
    && token.Some? && token.value != db[FenceKey(stream)].token
  }

  /** The stream is where the caller expects it. */
  predicate AsExpected(db: Db, stream: string, expected: Expected) {
    var tail := Get(db, TailKey(stream));
    var exists' := tail.Some? && tail.value.TailV?;
    match expected
    case Any => true
    case NoStream => !exists'
    case Exact(v) => exists' && tail.value.version == v
  }

  /** An append is accepted exactly if the batch is within the limits and not empty, the caller is not fenced out and
      the stream is where it expects it; otherwise the first of these in the order of the code decides the error. */
  lemma AcceptedIff(
    db: Db, seqNo: nat, stream: string, expected: Expected, token: Option<string>, events: seq<NewEvent>, indexed: bool)
    ensures var r := Execute(db, seqNo, Append(stream, expected, token, events, indexed));
            if !Acceptable(events) then r == Err(InvalidInput)
            else if FencedOut(db, stream, token) then r == Err(FenceMismatch)
            else if !AsExpected(db, stream, expected) then r == Err(VersionConflict(VersionOf(db, stream)))
            else if events == [] then r == Err(InvalidInput)
            else r.Ok?
  {
    FitsMeans(events);
  }

  // ---- the other operations ----

  /** A fork is accepted exactly if the parent reaches the fork point and the child does not exist. It gives the child
      its fork edge and a tail at the fork point with the parent's time, pins the parent there, and changes nothing
      else. */
  lemma ForkMeans(db: Db, seqNo: nat, parent: string, at: nat, child: string)
    ensures var op := Fork(parent, at, child);
            var tail, taken := Get(db, TailKey(parent)), Get(db, TailKey(child));
            var reaches := tail.Some? && tail.value.TailV? && at <= tail.value.version;
            && (Execute(db, seqNo, op) == Err(InvalidInput) <==> !reaches)
            && (Execute(db, seqNo, op).Ok? <==> reaches && !(taken.Some? && taken.value.TailV?))
            && (Execute(db, seqNo, op).Err? && Execute(db, seqNo, op).error != InvalidInput ==>
                  taken.Some? && taken.value.TailV?
                  && Execute(db, seqNo, op).error == VersionConflict(Some(taken.value.version)))
            && (Execute(db, seqNo, op).Ok? ==>
                  var after := Done(db, seqNo, op);
                  && Execute(db, seqNo, op).value.seqNo == seqNo
                  && Get(after, PinKey(parent, child)) == Some(PinV(at))
                  && Get(after, ForkKey(child)) == Some(ForkV(parent, at))
                  && Get(after, TailKey(child)) == Some(TailV(at, tail.value.ts))
                  && OnlyKeys(db, after, iset{PinKey(parent, child), ForkKey(child), TailKey(child)}))
  {
  }

  /** A deletion marks a stream that exists, and nothing else. */
  lemma DeleteMeans(db: Db, seqNo: nat, stream: string)
    ensures var op := Delete(stream);
            && Execute(db, seqNo, op).Ok? && Execute(db, seqNo, op).value.seqNo == seqNo
            && var after := Done(db, seqNo, op);
            && OnlyKeys(db, after, iset{DeletedKey(stream)})
            && (TailKey(stream) in db && db[TailKey(stream)].TailV? ==> DeletedKey(stream) in after)
            && (!(TailKey(stream) in db && db[TailKey(stream)].TailV?) ==> after == db)
  {
    GetExtensional(Patched(db, map[]), db);
  }

  /** Setting a fence sets exactly that token; an empty one, or none, clears it. */
  lemma SetFenceMeans(db: Db, seqNo: nat, stream: string, token: Option<string>)
    ensures var op := SetFence(stream, token);
            && Execute(db, seqNo, op).Ok? && Execute(db, seqNo, op).value.seqNo == seqNo
            && var after := Done(db, seqNo, op);
            && (token.Some? && token.value != "" ==> Fenced(after, stream, token.value))
            && (token.None? || token.value == "" ==> FenceKey(stream) !in after)
            && OnlyKeys(db, after, iset{FenceKey(stream)})
  {
  }

  /** A fence decides who may append under a token. */
  lemma FenceDecides(db: Db, seqNo: nat, stream: string, token: string, other: string)
    requires token != ""
    ensures FencedOut(Done(db, seqNo, SetFence(stream, Some(token))), stream, Some(other)) <==> other != token
  {
    SetFenceMeans(db, seqNo, stream, Some(token));
  }

  /** A publication puts the snapshot under the next number and draws that number. */
  lemma PublishMeans(db: Db, seqNo: nat, stream: string, through: nat, state: Bytes)
    ensures var op := Publish(stream, through, state);
            && Execute(db, seqNo, op).Ok? && Execute(db, seqNo, op).value.seqNo == seqNo + 1
            && var after := Done(db, seqNo, op);
            && Get(after, SnapKey(stream, seqNo + 1)) == Some(SnapV(through, state))
            && OnlyKeys(db, after, iset{SnapKey(stream, seqNo + 1)})
  {
  }

  // ---- conflicts ----

  /** The first committer wins: of two open transactions that write the same key, at most one commits. */
  lemma FirstCommitterWins(s: System, a: nat, b: nat, k: Key)
    requires a in s.open && b in s.open && a != b && Commits(s, s.open[a]) && Outcome(s.open[b]).Ok?
    requires k in Outcome(s.open[a]).value.writes && k in Outcome(s.open[b]).value.writes && s.open[b].begun <= s.clock
    ensures var s' := Next(s, Finish(a)); b in s'.open && !Commits(s', s'.open[b])
  {
    var s' := Next(s, Finish(a));
    assert s'.stamps[k] == s.clock + 1;
    assert k in AllReads(s'.open[b].ops) + Outcome(s'.open[b]).value.writes.Keys;
  }
}
