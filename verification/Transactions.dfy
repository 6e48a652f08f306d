/**
 Optimistic transactions over the key-value store: what each operation reads and writes, what a transaction of
 several operations amounts to, and what every interleaving of transactions keeps.
 */
module Transactions {
  import opened Prelude

  datatype Key =
    | TailKey(stream: string)
    | FenceKey(stream: string)
    | RecordKey(stream: string, version: nat)
    | IndexKey(stream: string, ts: nat, version: nat)
    | ForkKey(stream: string)
    | PinKey(stream: string, child: string)
    | DeletedKey(stream: string)
    | SnapKey(stream: string, seqNo: nat)
    | SeqKey

  datatype Value =
    | TailV(version: nat, ts: nat)
    | TokenV(token: string)
    | RecordV(version: nat, seqNo: nat, ts: nat, data: Bytes)
    | ForkV(parent: string, at: nat)
    | PinV(at: nat)
    | SnapV(through: nat, state: Bytes)
    | SeqV(n: nat)
    | Unit

  type Db = map<Key, Value>

  /** Buffered writes of a transaction; `None` deletes. */
  type Writes = map<Key, Option<Value>>

  function Patched(db: Db, w: Writes): (r: Db)
    ensures forall k :: Get(r, k) == if k in w then w[k] else Get(db, k)
  {
    map k | k in db.Keys + w.Keys && (if k in w then w[k].Some? else true) :: if k in w then w[k].value else db[k]
  }

  lemma PatchedTwice(db: Db, a: Writes, b: Writes)
    ensures Patched(Patched(db, a), b) == Patched(db, a + b)
  {
    GetExtensional(Patched(Patched(db, a), b), Patched(db, a + b));
  }

  // ---- operations ----

  datatype Expected = Any | NoStream | Exact(version: nat)

  /** An event to append; `now` is the clock when it is stamped. */
  datatype NewEvent = NewEvent(data: Bytes, now: nat)

  datatype Op =
    | Append(stream: string, expected: Expected, token: Option<string>, events: seq<NewEvent>, indexed: bool)
    | SetFence(stream: string, token: Option<string>)
    | Fork(parent: string, at: nat, child: string)
    | Delete(stream: string)
    | Publish(stream: string, through: nat, state: Bytes)

  datatype Error = FenceMismatch | VersionConflict(actual: Option<nat>) | InvalidInput

  /** What an operation does to the view it runs in: its writes and the sequence counter after it. */
  datatype Effect = Effect(writes: Writes, seqNo: nat)

  function TailOf(db: Db, stream: string): Option<Value> {
    if TailKey(stream) in db && db[TailKey(stream)].TailV? then Some(db[TailKey(stream)]) else None
  }

  function VersionOf(db: Db, stream: string): Option<nat> {
    if TailOf(db, stream).Some? then Some(TailOf(db, stream).value.version) else None
  }

  function FenceOf(db: Db, stream: string): Option<string> {
    if FenceKey(stream) in db && db[FenceKey(stream)].TokenV? then Some(db[FenceKey(stream)].token) else None
  }

  function SeqOf(db: Db): nat {
    if SeqKey in db && db[SeqKey].SeqV? then db[SeqKey].n else 0
  }

  predicate Matches(expected: Expected, actual: Option<nat>) {
    match expected
    case Any => true
    case NoStream => actual.None?
    case Exact(v) => actual == Some(v)
  }

  /** The timestamp after the first `n` events: clocks never move a stream back. */
  function TsAfter(last: nat, events: seq<NewEvent>, n: nat): nat
    requires n <= |events|
  {
    if n == 0 then last else Max(events[n - 1].now, TsAfter(last, events, n - 1))
  }

  function RecordAt(events: seq<NewEvent>, first: nat, startSeq: nat, lastTs: nat, i: nat): Value
    requires i < |events|
  {
    RecordV(first + i, startSeq + i, TsAfter(lastTs, events, i + 1), events[i].data)
  }

  /** The records (and index entries) of the first `n` events of a batch. */
  function EventWrites(
    stream: string, first: nat, startSeq: nat, lastTs: nat, events: seq<NewEvent>, indexed: bool, n: nat): Writes
    requires n <= |events|
  {
    if n == 0 then map[]
    else
      var before := EventWrites(stream, first, startSeq, lastTs, events, indexed, n - 1);
      var record := RecordAt(events, first, startSeq, lastTs, n - 1);
      var w := before[RecordKey(stream, record.version) := Some(record)];
      if indexed then w[IndexKey(stream, record.ts, record.version) := Some(Unit)] else w
  }

  function AppendEffect(db: Db, seqNo: nat, stream: string, events: seq<NewEvent>, indexed: bool): Effect
    requires events != []
  {
    var tail := TailOf(db, stream);
    var first := if tail.Some? then tail.value.version + 1 else 0;
    var lastTs := if tail.Some? then tail.value.ts else 0;
    var n := |events|;
    var w := EventWrites(stream, first, seqNo + 1, lastTs, events, indexed, n);
    Effect(w[TailKey(stream) := Some(TailV(first + n - 1, TsAfter(lastTs, events, n)))], seqNo + n)
  }

  /** An append that starts at version `first`, wherever the tail is: the tail moves to its end but never back. */
  function AppendAtEffect(db: Db, seqNo: nat, stream: string, first: nat, events: seq<NewEvent>, indexed: bool): Effect
    requires events != []
  {
    var tail := TailOf(db, stream);
    var last := first + |events| - 1;
    var lastTs := if tail.Some? then tail.value.ts else 0;
    var w := EventWrites(stream, first, seqNo + 1, lastTs, events, indexed, |events|);
    Effect(w[TailKey(stream) :=
             Some(TailV(if tail.Some? then Max(tail.value.version, last)
                        else last, TsAfter(lastTs, events, |events|)))],
           seqNo + |events|)
  }

  /** An append behind the tail, or at an explicit version. */
  function ReplayEffect(
    db: Db, seqNo: nat, stream: string, from: Option<nat>, events: seq<NewEvent>, indexed: bool): (e: Effect)
    requires events != []
    ensures from.None? || from == Some(FirstVersion(db, stream)) ==>
              e == AppendEffect(db, seqNo, stream, events, indexed)
  {
    AppendAtEffect(db, seqNo, stream, if from.Some? then from.value else FirstVersion(db, stream), events, indexed)
  }

  /** The version an unconditional append takes on. */
  function FirstVersion(db: Db, stream: string): nat {
    if TailOf(db, stream).Some? then TailOf(db, stream).value.version + 1 else 0
  }

  function DataSize(e: NewEvent): nat { |e.data| }

  /** Why an append is refused, if it is. */
  function Refusal(
    db: Db, stream: string, expected: Expected, token: Option<string>, events: seq<NewEvent>): (r: Option<Error>)
    ensures r.None? ==> events != [] && Matches(expected, VersionOf(db, stream))
  {
    if !BatchFits(DataSize, events) then Some(InvalidInput)
    else if token.Some? && FenceOf(db, stream).Some? && FenceOf(db, stream) != token then Some(FenceMismatch)
    else if !Matches(expected, VersionOf(db, stream)) then Some(VersionConflict(VersionOf(db, stream)))
    else if events == [] then Some(InvalidInput)
    else None
  }

  function Execute(db: Db, seqNo: nat, op: Op): Result<Effect, Error> {
    match op
    case Append(stream, expected, token, events, indexed) =>
      var refused := Refusal(db, stream, expected, token, events);
      if refused.Some? then Err(refused.value) else Ok(AppendEffect(db, seqNo, stream, events, indexed))
    case SetFence(stream, token) =>
      var value := if token.Some? && token.value != "" then Some(TokenV(token.value)) else None;
      Ok(Effect(map[FenceKey(stream) := value], seqNo))
    case Fork(parent, at, child) =>
      var tail := TailOf(db, parent);
      if tail.None? || tail.value.version < at then Err(InvalidInput)
      else if TailOf(db, child).Some? then Err(VersionConflict(VersionOf(db, child)))
      else Ok(Effect(map[ForkKey(child) := Some(ForkV(parent, at)), TailKey(child) := Some(TailV(at, tail.value.ts)),
                         PinKey(parent, child) := Some(PinV(at))], seqNo))
    case Delete(stream) =>
      if TailOf(db, stream).None? then Ok(Effect(map[], seqNo))
        else Ok(Effect(map[DeletedKey(stream) := Some(Unit)], seqNo))
    case Publish(stream, through,
                 state) => Ok(Effect(map[SnapKey(stream, seqNo + 1) := Some(SnapV(through, state))], seqNo + 1))
  }

  /** The keys an operation reads under conflict detection. */
  function Reads(op: Op): set<Key> {
    match op
    case Append(stream, _, token, _, _) => {TailKey(stream)} + if token.Some? then {FenceKey(stream)} else {}
    case SetFence(_, _) => {}
    case Fork(parent, _, child) => {TailKey(parent), TailKey(child)}
    case Delete(stream) => {TailKey(stream)}
    case Publish(_, _, _) => {}
  }

  /** An operation depends on its view only through the keys it reads. */
  lemma ExecuteIsLocal(a: Db, b: Db, seqNo: nat, op: Op)
    requires forall k :: k in Reads(op) ==> Get(a, k) == Get(b, k)
    ensures Execute(a, seqNo, op) == Execute(b, seqNo, op)
  {
    match op
    case Append(stream, _, token, _, _) =>
      assert Get(a, TailKey(stream)) == Get(b, TailKey(stream));
      assert token.Some? ==> Get(a, FenceKey(stream)) == Get(b, FenceKey(stream));
    case SetFence(_, _) =>
    case Fork(parent, _, child) =>
      assert Get(a, TailKey(parent)) == Get(b, TailKey(parent)) && Get(a, TailKey(child)) == Get(b, TailKey(child));
    case Delete(stream) =>
      assert Get(a, TailKey(stream)) == Get(b, TailKey(stream));
    case Publish(_, _, _) =>
  }

  // ---- a transaction of several operations ----

  /** The operations in order, each seeing the writes of those before it; the first failure fails the whole. */
  function ExecuteAll(db: Db, seqNo: nat, ops: seq<Op>): Result<Effect, Error> {
    if ops == [] then Ok(Effect(map[], seqNo))
    else
      var before := ExecuteAll(db, seqNo, ops[..|ops| - 1]);
      if before.Err? then before
      else
        var last := Execute(Patched(db, before.value.writes), before.value.seqNo, ops[|ops| - 1]);
        if last.Err? then last else Ok(Effect(before.value.writes + last.value.writes, last.value.seqNo))
  }

  function AllReads(ops: seq<Op>): set<Key> {
    if ops == [] then {} else AllReads(ops[..|ops| - 1]) + Reads(ops[|ops| - 1])
  }

  /** A transaction depends on its snapshot only through the keys it reads. */
  lemma {:induction false} ExecuteAllIsLocal(a: Db, b: Db, seqNo: nat, ops: seq<Op>)
    requires forall k :: k in AllReads(ops) ==> Get(a, k) == Get(b, k)
    ensures ExecuteAll(a, seqNo, ops) == ExecuteAll(b, seqNo, ops)
  {
    if ops != [] {
      var n := |ops| - 1;
      ExecuteAllIsLocal(a, b, seqNo, ops[..n]);
      var before := ExecuteAll(a, seqNo, ops[..n]);
      if before.Ok? {
        ExecuteIsLocal(Patched(a, before.value.writes), Patched(b, before.value.writes), before.value.seqNo, ops[n]);
      }
    }
  }

  lemma PutBehind(a: Writes, b: Writes, k: Key, v: Option<Value>)
    ensures (a + b)[k := v] == a + b[k := v]
  {
  }

  /** The in-memory transaction object: a snapshot and the writes buffered over it. */
  class DbTransaction {
    const snapshot: Db
    var writes: Writes

    constructor (snapshot: Db)
      ensures this.snapshot == snapshot && writes == map[]
    {
      this.snapshot := snapshot;
      writes := map[];
    }

    ghost function View(): Db
      reads this
    {
      Patched(snapshot, writes)
    }

    method Read(k: Key) returns (v: Option<Value>)
      ensures v == Get(View(), k)
    {
      v := if k in writes then writes[k] else Get(snapshot, k);
    }

    method Put(k: Key, v: Value)
      modifies this
      ensures writes == old(writes)[k := Some(v)]
    {
      writes := writes[k := Some(v)];
    }

    /** Checks and writes of one append, in the transaction; `from` is the explicit start version of `append_at`. */
    method ReplayAppend(
      seqNo: nat, stream: string, expected: Expected, from: Option<nat>, token: Option<string>, events: seq<NewEvent>,
        indexed: bool)
      returns (r: Result<nat, Error>)
      modifies this
      ensures match Refusal(old(View()), stream, expected, token, events)
              case Some(err) => r == Err(err) && writes == old(writes)
              case None =>
                var e := ReplayEffect(old(View()), seqNo, stream, from, events, indexed);
                r == Ok(e.seqNo) && writes == old(writes) + e.writes
    {
      var tail, refused := Check(stream, expected, token, events);
      if refused.Some? {
        return Err(refused.value);
      }
      var first := if from.Some? then from.value else if tail.Some? then tail.value.version + 1 else 0;
      PutAppend(seqNo, stream, tail, first, events, indexed);
      return Ok(seqNo + |events|);
    }

    /** The records of an append, then the tail. */
    method PutAppend(seqNo: nat, stream: string, tail: Option<Value>, first: nat, events: seq<NewEvent>, indexed: bool)
      requires events != [] && tail == TailOf(View(), stream)
      modifies this
      ensures writes == old(writes) + AppendAtEffect(old(View()), seqNo, stream, first, events, indexed).writes
    {
      var last := first + |events| - 1;
      var startTs := if tail.Some? then tail.value.ts else 0;
      var lastTs := PutEvents(stream, first, seqNo + 1, startTs, events, indexed);
      PutBehind(old(writes), EventWrites(stream, first, seqNo + 1, startTs, events, indexed, |events|), TailKey(stream),
                Some(TailV(if tail.Some? then Max(tail.value.version, last) else last, lastTs)));
      Put(TailKey(stream), TailV(if tail.Some? then Max(tail.value.version, last) else last, lastTs));
    }

    method Check(stream: string, expected: Expected, token: Option<string>, events: seq<NewEvent>)
      returns (tail: Option<Value>, refused: Option<Error>)
      ensures tail == TailOf(View(), stream)
      ensures refused == Refusal(View(), stream, expected, token, events)
    {
      var found := Read(TailKey(stream));
      tail := if found.Some? && found.value.TailV? then found else None;
      if !BatchFits(DataSize, events) {
        return tail, Some(InvalidInput);
      }
      if token.Some? {
        var fence := Read(FenceKey(stream));
        if fence.Some? && fence.value.TokenV? && fence.value.token != token.value {
          return tail, Some(FenceMismatch);
        }
      }
      var current := if tail.Some? then Some(tail.value.version) else None;
      if !Matches(expected, current) {
        return tail, Some(VersionConflict(current));
      }
      if events == [] {
        return tail, Some(InvalidInput);
      }
      return tail, None;
    }

    method PutEvents(stream: string, first: nat, startSeq: nat, startTs: nat, events: seq<NewEvent>, indexed: bool)
      returns (lastTs: nat)
      modifies this
      ensures writes == old(writes) + EventWrites(stream, first, startSeq, startTs, events, indexed, |events|)
      ensures lastTs == TsAfter(startTs, events, |events|)
    {
      lastTs := startTs;
      for i := 0 to |events|
        invariant lastTs == TsAfter(startTs, events, i)
        invariant writes == old(writes) + EventWrites(stream, first, startSeq, startTs, events, indexed, i)
      {
        ghost var w := EventWrites(stream, first, startSeq, startTs, events, indexed, i);
        lastTs := Max(events[i].now, lastTs);
        var record := RecordV(first + i, startSeq + i, lastTs, events[i].data);
        Put(RecordKey(stream, first + i), record);
        PutBehind(old(writes), w, RecordKey(stream, first + i), Some(record));
        if indexed {
          Put(IndexKey(stream, lastTs, first + i), Unit);
          PutBehind(old(writes), w[RecordKey(stream, first + i) := Some(record)], IndexKey(stream, lastTs, first + i),
                    Some(Unit));
        }
      }
    }
  }
}
