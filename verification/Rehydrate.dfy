/**
 Aggregates folded from a stream's history, with snapshots as a shortcut. A compactor reads the history, folds it and
 publishes the result under the global sequence number of that moment; several may be at work at once.
 */
module Rehydrate {
  import opened Prelude
  import opened NatOrder
  import opened ForkHistory
  import opened ForkIsolation

  /** The application's fold. `snapshot` and `restore` may refuse. */
  datatype Aggregate<!A> = Aggregate(initial: A, apply: (A, Event) -> A, snapshot: A -> Option<Bytes>,
                                     restore: Bytes -> Option<A>)

  ghost predicate RestoreInverts<A(!new)>(agg: Aggregate<A>) {
    forall a :: agg.snapshot(a).Some? ==> agg.restore(agg.snapshot(a).value) == Some(a)
  }

  datatype Snapshot = Snapshot(through: nat, state: Bytes)

  function Fold<A>(agg: Aggregate<A>, a: A, events: seq<Event>): A {
    if events == [] then a else agg.apply(Fold(agg, a, events[..|events| - 1]), events[|events| - 1])
  }

  lemma {:induction false} FoldConcat<A>(agg: Aggregate<A>, a: A, xs: seq<Event>, ys: seq<Event>)
    ensures Fold(agg, a, xs + ys) == Fold(agg, Fold(agg, a, xs), ys)
    decreases |ys|
  {
    if ys == [] {
      assert xs + ys == xs;
    } else {
      assert (xs + ys)[..|xs + ys| - 1] == xs + ys[..|ys| - 1];
      FoldConcat(agg, a, xs, ys[..|ys| - 1]);
    }
  }

  function LastVersion(events: seq<Event>): Option<nat> {
    if events == [] then None else Some(events[|events| - 1].version)
  }

  // ---- the two readers of a history ----

  method FoldEvents<A>(agg: Aggregate<A>, init: A, events: seq<Event>) returns (a: A, last: Option<nat>)
    ensures a == Fold(agg, init, events) && last == LastVersion(events)
  {
    a, last := init, None;
    for i := 0 to |events|
      invariant a == Fold(agg, init, events[..i]) && last == LastVersion(events[..i])
    {
      assert events[..i + 1][..i] == events[..i];
      a := agg.apply(a, events[i]);
      last := Some(events[i].version);
    }
    assert events[..|events|] == events;
  }

  datatype RehydrateError = BadHistory(error: ForkHistory.Error) | BadSnapshot | NoSnapshot | NothingToCompact

  /** The value `rehydrate` computes from the snapshot it found and the events behind it. */
  function Resumed<A>(agg: Aggregate<A>, snapshot: Option<Snapshot>, events: Result<seq<Event>, ForkHistory.Error>)
    : Result<(A, Option<nat>), RehydrateError>
  {
    var start := if snapshot.Some? then agg.restore(snapshot.value.state) else Some(agg.initial);
    if start.None? then Err(BadSnapshot)
    else if events.Err? then Err(BadHistory(events.error))
    else
      var last := LastVersion(events.value);
      Ok((Fold(agg, start.value, events.value),
          if last.None? && snapshot.Some? then Some(snapshot.value.through) else last))
  }

  function Behind(snapshot: Option<Snapshot>): nat {
    if snapshot.Some? then snapshot.value.through + 1 else 0
  }

  function Rehydrated<A>(
    agg: Aggregate<A>, st: Store, stream: string,
    snapshot: Option<Snapshot>): Result<(A, Option<nat>), RehydrateError> {
    Resumed(agg, snapshot, Resolve(st, stream, {}, Behind(snapshot), None))
  }

  method RehydrateFrom<A>(agg: Aggregate<A>, st: Store, stream: string, snapshot: Option<Snapshot>)
    returns (r: Result<(A, Option<nat>), RehydrateError>)
    ensures r == Rehydrated(agg, st, stream, snapshot)
    ensures r == Err(BadSnapshot) <==> snapshot.Some? && agg.restore(snapshot.value.state).None?
  {
    var lo, a := 0, agg.initial;
    if snapshot.Some? {
      var start := agg.restore(snapshot.value.state);
      if start.None? {
        return Err(BadSnapshot);
      }
      lo, a := snapshot.value.through + 1, start.value;
    }
    var events, _ := ResolveHistory(st, stream, {}, lo, None);
    if events.Err? {
      return Err(BadHistory(events.error));
    }
    var folded, last := FoldEvents(agg, a, events.value);
    if last.None? && snapshot.Some? {
      last := Some(snapshot.value.through);
    }
    r := Ok((folded, last));
  }

  /** What a compactor makes of the history it read. */
  function Compacted<A>(agg: Aggregate<A>, events: seq<Event>): Result<Snapshot, RehydrateError> {
    var state := agg.snapshot(Fold(agg, agg.initial, events));
    if state.None? then Err(NoSnapshot)
    else if events == [] then Err(NothingToCompact)
    else Ok(Snapshot(events[|events| - 1].version, state.value))
  }

  method Compact<A>(agg: Aggregate<A>, st: Store, stream: string) returns (r: Result<Snapshot, RehydrateError>)
    ensures var events := Resolve(st, stream, {}, 0, None);
            && (r == if events.Err? then Err(BadHistory(events.error)) else Compacted(agg, events.value))
            && (r == Err(NoSnapshot) <==> events.Ok? && agg.snapshot(Fold(agg, agg.initial, events.value)).None?)
            && (r == Err(NothingToCompact) <==> events == Ok([]) && agg.snapshot(agg.initial).Some?)
  {
    var events, _ := ResolveHistory(st, stream, {}, 0, None);
    if events.Err? {
      return Err(BadHistory(events.error));
    }
    var a, last := FoldEvents(agg, agg.initial, events.value);
    var state := agg.snapshot(a);
    if state.None? {
      return Err(NoSnapshot);
    }
    if last.None? {
      return Err(NothingToCompact);
    }
    r := Ok(Snapshot(last.value, state.value));
  }

  // ---- the store, its compactors and its snapshots ----

  /** `snapshots` holds what was published for one stream by global sequence number; `inflight` what compactors have
      folded and not yet published. */
  datatype World = World(st: Store, rank: map<string, nat>, inflight: seq<Snapshot>, snapshots: map<nat, Snapshot>)

  /** `Publish` may come at any time and in any order, under any sequence number: the counter may move back. */
  datatype Step = Change(op: Op) | Read | Publish(which: nat, seqNo: nat)

  predicate Possible<A>(agg: Aggregate<A>, w: World, stream: string, step: Step)
    requires Ranked(w.st, w.rank) && stream in w.st
  {
    match step
    case Change(op) => Allowed(w.st, op) && Safe(w.st, w.rank, op, stream) && (Elsewhere(op, stream) || op.Append?)
    case Read => var events := Resolve(w.st, stream, {}, 0, None); events.Ok? && Compacted(agg, events.value).Ok?
    case Publish(which, _) => which < |w.inflight|
  }

  function Next<A>(agg: Aggregate<A>, w: World, stream: string, step: Step): World
    requires Ranked(w.st, w.rank) && stream in w.st && Possible(agg, w, stream, step)
  {
    match step
    case Change(op) => w.(st := Apply(w.st, op), rank := Reranked(w.st, w.rank, op))
    case Read => w.(inflight := w.inflight + [Compacted(agg, Resolve(w.st, stream, {}, 0, None).value).value])
    case Publish(which, seqNo) =>
      w.(snapshots := w.snapshots[seqNo := w.inflight[which]], inflight :=
         w.inflight[..which] + w.inflight[which + 1..])
  }

  function Run<A>(agg: Aggregate<A>, start: World, stream: string, steps: seq<Step>): Option<World> {
    if steps == [] then Some(start)
    else
      var before := Run(agg, start, stream, steps[..|steps| - 1]);
      var step := steps[|steps| - 1];
      if before.Some? && Ranked(before.value.st, before.value.rank) && stream in before.value.st
         && Possible(agg, before.value, stream, step)
      then Some(Next(agg, before.value, stream, step)) else None
  }

  // ---- what a snapshot stands for ----

  /** A snapshot of a history: the fold of its events up to `through`, which is the version of one of them. */
  predicate Stands<A>(agg: Aggregate<A>, h: seq<Event>, s: Snapshot) {
    && agg.snapshot(Fold(agg, agg.initial, Cut(h, 0, Some(s.through + 1)))) == Some(s.state)
    && LastVersion(Cut(h, 0, Some(s.through + 1))) == Some(s.through)
  }

  lemma {:induction false} CutBelow(h: seq<Event>, bound: nat)
    requires VersionsWithin(h, 0, bound)
    ensures Cut(h, 0, Some(bound)) == h && Cut(h, bound, None) == []
  {
    if h != [] {
      CutBelow(h[..|h| - 1], bound);
    }
  }

  lemma {:induction false} CutAbove(h: seq<Event>, bound: nat)
    requires forall i :: 0 <= i < |h| ==> bound <= h[i].version
    ensures Cut(h, 0, Some(bound)) == [] && Cut(h, bound, None) == h
  {
    if h != [] {
      CutAbove(h[..|h| - 1], bound);
    }
  }

  /** An increasing history falls into the part up to a version and the part behind it. */
  lemma {:induction false} CutSplits(h: seq<Event>, bound: nat)
    requires VersionsIncrease(h)
    ensures Cut(h, 0, Some(bound)) + Cut(h, bound, None) == h
  {
    if h != [] {
      var n := |h| - 1;
      if h[n].version < bound {
        CutBelow(h, bound);
      } else {
        CutSplits(h[..n], bound);
        assert h == h[..n] + [h[n]];
      }
    }
  }

  /** Later events do not touch what a snapshot stands for. */
  lemma StandsExtended<A>(agg: Aggregate<A>, h: seq<Event>, more: seq<Event>, s: Snapshot)
    requires Stands(agg, h, s) && forall i :: 0 <= i < |more| ==> s.through < more[i].version
    ensures Stands(agg, h + more, s)
  {
    CutConcat(h, more, 0, Some(s.through + 1));
    CutAbove(more, s.through + 1);
    assert Cut(h, 0, Some(s.through + 1)) + [] == Cut(h, 0, Some(s.through + 1));
  }

  lemma CutThroughLast(h: seq<Event>)
    requires VersionsIncrease(h) && h != []
    ensures Cut(h, 0, Some(h[|h| - 1].version + 1)) == h
  {
    CutBelow(h, h[|h| - 1].version + 1);
  }

  /** A compactor's fold stands for the history it read. */
  lemma CompactedStands<A>(agg: Aggregate<A>, h: seq<Event>)
    requires VersionsIncrease(h) && Compacted(agg, h).Ok?
    ensures Stands(agg, h, Compacted(agg, h).value)
  {
    CutThroughLast(h);
  }

  /** Folding the rest of the history onto a restored snapshot is folding all of it. */
  lemma RestoredFold<A(!new)>(agg: Aggregate<A>, h: seq<Event>, s: Snapshot)
    requires VersionsIncrease(h) && RestoreInverts(agg) && Stands(agg, h, s)
    ensures var rest := Cut(h, s.through + 1, None);
            && agg.restore(s.state).Some?
            && Fold(agg, agg.restore(s.state).value, rest) == Fold(agg, agg.initial, h)
            && LastVersion(h) == if rest == [] then Some(s.through) else LastVersion(rest)
  {
    var before, rest := Cut(h, 0, Some(s.through + 1)), Cut(h, s.through + 1, None);
    CutSplits(h, s.through + 1);
    FoldConcat(agg, agg.initial, before, rest);
    assert agg.restore(s.state) == Some(Fold(agg, agg.initial, before));
  }

  // ---- appends extend the history ----

  lemma {:induction false} PickRawConcat(s: Stream, a: seq<nat>, b: seq<nat>)
    requires forall v :: v in a + b ==> v in s.records
    ensures (forall v :: v in a ==> v in s.records) && (forall v :: v in b ==> v in s.records)
    ensures PickRaw(s, a + b) == PickRaw(s, a) + PickRaw(s, b)
    decreases |b|
  {
    forall v | v in a || v in b ensures v in s.records { assert v in a + b; }
    if b == [] {
      assert a + b == a;
    } else {
      var n := |b| - 1;
      assert (a + b)[..|a + b| - 1] == a + b[..n];
      assert forall v :: v in a + b[..n] ==> v in a + b;
      PickRawConcat(s, a, b[..n]);
    }
  }

  function Upwards(first: nat, n: nat): (r: seq<nat>)
    ensures |r| == n && forall i :: 0 <= i < n ==> r[i] == first + i
  {
    seq(n, i requires 0 <= i < n => first + i)
  }

  /** Nothing is hidden from readers of the stream. */
  predicate Open(s: Stream) {
    s.trim <= s.tail + 1 && s.rollbacks == [] && !s.deleted
  }

  lemma {:induction false} PickAppended(s: Stream, events: seq<Event>, first: nat)
    requires s.rollbacks == [] && s.trim <= first
    requires forall v: nat :: first <= v < first + |events| ==> v in s.records && s.records[v] == events[v - first]
    ensures (forall v :: v in Upwards(first, |events|) ==> v in s.records)
    ensures PickRaw(s, Upwards(first, |events|)) == events
  {
    if events != [] {
      var n := |events| - 1;
      assert events == events[..n] + [events[n]];
      assert Unhidden(s, first + n);
      PickAppended(s, events[..n], first);
      PickRawSnoc(s, Upwards(first, n), first + n);
      UpwardsSnoc(first, n);
    }
  }

  lemma UpwardsSnoc(first: nat, n: nat)
    ensures Upwards(first, n + 1) == Upwards(first, n) + [first + n]
  {
  }

  /** The records of a stream after an append. */
  function Extended(s: Stream, events: seq<Event>): Stream {
    s.(tail := s.tail + |events|, records := s.records + RecordsOf(events, s.tail + 1))
  }

  lemma UpwardsJoin(known: seq<nat>, tail: nat, n: nat, keys: set<nat>)
    requires Increasing(known) && forall k :: k in known ==> k <= tail
    requires forall k: nat :: k in keys <==> k in known || tail < k <= tail + n
    ensures Ascending(keys) == known + Upwards(tail + 1, n)
  {
    var more := Upwards(tail + 1, n);
    assert forall i :: 0 <= i < |known| ==> known[i] in known;
    forall k: nat ensures k in known + more <==> k in keys {
      if tail < k <= tail + n { assert more[k - tail - 1] == k; }
    }
    AscendingIs(keys, known + more);
  }

  lemma AscendingExtended(s: Stream, events: seq<Event>)
    requires forall v :: v in s.records ==> v <= s.tail
    ensures Ascending(Extended(s, events).records.Keys) == Ascending(s.records.Keys) + Upwards(s.tail + 1, |events|)
  {
    AscendingIncreases(s.records.Keys);
    UpwardsJoin(Ascending(s.records.Keys), s.tail, |events|, Extended(s, events).records.Keys);
  }

  lemma KnownKept(s: Stream, events: seq<Event>)
    requires forall v :: v in s.records ==> v <= s.tail
    ensures (forall v :: v in Ascending(s.records.Keys) ==> v in Extended(s, events).records)
    ensures PickRaw(Extended(s, events), Ascending(s.records.Keys)) == RawEvents(s)
  {
    KnownPicked(s, events, Ascending(s.records.Keys));
  }

  lemma KnownPicked(s: Stream, events: seq<Event>, known: seq<nat>)
    requires forall v :: v in s.records ==> v <= s.tail
    requires forall v :: v in known ==> v in s.records
    ensures (forall v :: v in known ==> v in Extended(s, events).records)
    ensures PickRaw(Extended(s, events), known) == PickRaw(s, known)
  {
    assert SameWithin(s, Extended(s, events), Some(s.tail + 1));
    PickRawSame(s, Extended(s, events), known, Some(s.tail + 1));
  }

  lemma RawExtended(s: Stream, events: seq<Event>)
    requires Open(s) && forall v :: v in s.records ==> v <= s.tail
    ensures RawEvents(Extended(s, events)) == RawEvents(s) + events
  {
    var s', first := Extended(s, events), s.tail + 1;
    assert RawEvents(s') == PickRaw(s', Ascending(s'.records.Keys));
    AscendingExtended(s, events);
    PickRawConcat(s', Ascending(s.records.Keys), Upwards(first, |events|));
    KnownKept(s, events);
    assert PickRaw(s', Upwards(first, |events|)) == events by {
      MoreRead(s, events);
    }
  }

  lemma MoreRead(s: Stream, events: seq<Event>)
    requires Open(s)
    ensures (forall v :: v in Upwards(s.tail + 1, |events|) ==> v in Extended(s, events).records)
    ensures PickRaw(Extended(s, events), Upwards(s.tail + 1, |events|)) == events
  {
    var first, records := s.tail + 1, Extended(s, events).records;
    forall v: nat | first <= v < first + |events| ensures v in records && records[v] == events[v - first] {
      assert v in RecordsOf(events, first);
    }
    PickAppended(Extended(s, events), events, first);
  }

  /** Appending to a stream, or purging it, does not change what it inherits. */
  lemma InheritedKept(st: Store, rank: map<string, nat>, op: Op, stream: string)
    requires WellFormed(st, rank) && stream in st && Allowed(st, op) && (op.Append? || op.Purge?) && op.stream == stream
    requires op.Purge? ==> LiveBelow(st, rank, stream, stream)
    requires WellFormed(Apply(st, op), rank)
    ensures RawInherited(Apply(st, op), rank, stream) == RawInherited(st, rank, stream)
  {
    assert RankedAt(st, rank, stream) && StreamOk(st, stream);
    assert Apply(st, op)[stream].fork == st[stream].fork;
    if st[stream].fork.Some? {
      ParentRawKept(st, rank, op, st[stream].fork.value);
    }
  }

  lemma ParentRawKept(st: Store, rank: map<string, nat>, op: Op, f: ForkRef)
    requires WellFormed(st, rank) && f.stream in st && f.at <= st[f.stream].tail
    requires Allowed(st, op) && (op.Append? || op.Purge?) && op.stream != f.stream
    requires op.Purge? ==> LiveBelow(st, rank, f.stream, op.stream)
    requires WellFormed(Apply(st, op), rank)
    ensures f.stream in Apply(st, op)
    ensures Cut(RawHistory(Apply(st, op), rank, f.stream), 0, Some(f.at + 1))
            == Cut(RawHistory(st, rank, f.stream), 0, Some(f.at + 1))
  {
    AncestorsSpared(st, rank, op, f.stream, Some(f.at + 1));
    RawHistorySame(st, Apply(st, op), rank, rank, f.stream, Some(f.at + 1));
  }

  lemma RawAppend(st: Store, rank: map<string, nat>, stream: string, events: seq<Event>)
    requires WellFormed(st, rank) && stream in st && Open(st[stream]) && Allowed(st, Append(stream, events))
    requires WellFormed(Apply(st, Append(stream, events)), rank)
    ensures RawHistory(Apply(st, Append(stream, events)), rank, stream) == RawHistory(st, rank, stream) + events
  {
    var st' := Apply(st, Append(stream, events));
    AppendedStream(st, stream, events);
    InheritedKept(st, rank, Append(stream, events), stream);
    var inherited, own := RawInherited(st, rank, stream), RawEvents(st[stream]);
    assert RawEvents(st'[stream]) == own + events by {
      assert StreamOk(st, stream);
      RawExtended(st[stream], events);
    }
    RawHistoryParts(st, rank, stream);
    RawHistoryParts(st', rank, stream);
    ConcatAssociates(inherited, own, events);
  }

  lemma AppendedStream(st: Store, stream: string, events: seq<Event>)
    requires stream in st && Allowed(st, Append(stream, events))
    ensures stream in Apply(st, Append(stream, events))
    ensures Apply(st, Append(stream, events))[stream] == Extended(st[stream], events)
  {
  }

  lemma AppendExtends(st: Store, rank: map<string, nat>, stream: string, events: seq<Event>)
    requires WellFormed(st, rank) && stream in st && Open(st[stream]) && Allowed(st, Append(stream, events))
    requires Protected(st, rank, stream)
    requires WellFormed(Apply(st, Append(stream, events)), rank)
             && Protected(Apply(st, Append(stream, events)), rank, stream)
    ensures History(Apply(st, Append(stream, events)), rank, stream) == History(st, rank, stream) + events
  {
    AppendedStream(st, stream, events);
    LiveHistoryIsRaw(st, rank, stream);
    LiveHistoryIsRaw(Apply(st, Append(stream, events)), rank, stream);
    RawAppend(st, rank, stream, events);
  }

  lemma LiveHistoryIsRaw(st: Store, rank: map<string, nat>, stream: string)
    requires WellFormed(st, rank) && stream in st && Protected(st, rank, stream) && !st[stream].deleted
    ensures History(st, rank, stream) == RawHistory(st, rank, stream)
  {
    HistoryIsRaw(st, rank, stream, None);
    CutAll(History(st, rank, stream));
    CutAll(RawHistory(st, rank, stream));
  }

  // ---- every run ----

  /** Every snapshot, published or about to be, stands for the stream's history. */
  predicate Inv<A>(agg: Aggregate<A>, w: World, stream: string) {
    && WellFormed(w.st, w.rank)
    && stream in w.st && Open(w.st[stream]) && Protected(w.st, w.rank, stream)
    && (forall i :: 0 <= i < |w.inflight| ==> Stands(agg, History(w.st, w.rank, stream), w.inflight[i]))
    && (forall n :: n in w.snapshots ==> Stands(agg, History(w.st, w.rank, stream), w.snapshots[n]))
  }

  lemma CutReaches(h: seq<Event>, through: nat, hi: nat)
    requires VersionsIncrease(h) && VersionsWithin(h, 0, hi)
             && LastVersion(Cut(h, 0, Some(through + 1))) == Some(through)
    ensures through < hi
  {
    var c := Cut(h, 0, Some(through + 1));
    CutMember(h, through + 1, |c| - 1);
    var j :| 0 <= j < |h| && c[|c| - 1] == h[j];
  }

  lemma ReachesTail<A>(agg: Aggregate<A>, st: Store, rank: map<string, nat>, stream: string, s: Snapshot)
    requires WellFormed(st, rank) && stream in st && Stands(agg, History(st, rank, stream), s)
    ensures s.through <= st[stream].tail
  {
    HistoryIncreases(st, rank, stream);
    CutReaches(History(st, rank, stream), s.through, st[stream].tail + 1);
  }

  lemma StandsAfterAppend<A>(agg: Aggregate<A>, w: World, stream: string, events: seq<Event>, s: Snapshot)
    requires Inv(agg, w, stream) && Stands(agg, History(w.st, w.rank, stream), s)
             && Allowed(w.st, Append(stream, events))
    ensures Stands(agg, History(w.st, w.rank, stream) + events, s)
  {
    ReachesTail(agg, w.st, w.rank, stream, s);
    StandsExtended(agg, History(w.st, w.rank, stream), events, s);
  }

  lemma AppendKeeps<A>(agg: Aggregate<A>, w: World, stream: string, events: seq<Event>)
    requires Inv(agg, w, stream) && Possible(agg, w, stream, Change(Append(stream, events)))
    ensures Inv(agg, Next(agg, w, stream, Change(Append(stream, events))), stream)
    ensures var w' := Next(agg, w, stream, Change(Append(stream, events)));
            History(w'.st, w'.rank, stream) == History(w.st, w.rank, stream) + events
  {
    var op := Append(stream, events);
    var w' := Next(agg, w, stream, Change(op));
    ApplyWellFormed(w.st, w.rank, op);
    SafeProtects(w.st, w.rank, op, stream);
    AppendExtends(w.st, w.rank, stream, events);
    forall i | 0 <= i < |w'.inflight| ensures Stands(agg, History(w'.st, w'.rank, stream), w'.inflight[i]) {
      StandsAfterAppend(agg, w, stream, events, w.inflight[i]);
    }
    forall n | n in w'.snapshots ensures Stands(agg, History(w'.st, w'.rank, stream), w'.snapshots[n]) {
      StandsAfterAppend(agg, w, stream, events, w.snapshots[n]);
    }
  }

  lemma OtherChangeKeeps<A>(agg: Aggregate<A>, w: World, stream: string, op: Op)
    requires Inv(agg, w, stream) && Possible(agg, w, stream, Change(op)) && Elsewhere(op, stream)
    ensures Inv(agg, Next(agg, w, stream, Change(op)), stream)
    ensures var w' := Next(agg, w, stream, Change(op));
            History(w'.st, w'.rank, stream) == History(w.st, w.rank, stream)
  {
    Isolation(w.st, w.rank, op, stream);
  }

  lemma ReadIsHistory(st: Store, rank: map<string, nat>, stream: string, lo: nat)
    requires WellFormed(st, rank) && stream in st
    ensures Resolve(st, stream, {}, lo, None) == Ok(Cut(History(st, rank, stream), lo, None))
  {
    forall s, v | s in st && v in st[s].records ensures st[s].records[v].version == v {
      assert StreamOk(st, s);
    }
    ResolveIsCutHistory(st, rank, stream, {}, lo, None);
  }

  lemma ReadKeeps<A>(agg: Aggregate<A>, w: World, stream: string)
    requires Inv(agg, w, stream) && Possible(agg, w, stream, Read)
    ensures Inv(agg, Next(agg, w, stream, Read), stream)
  {
    ReadIsHistory(w.st, w.rank, stream, 0);
    CutAll(History(w.st, w.rank, stream));
    HistoryIncreases(w.st, w.rank, stream);
    CompactedStands(agg, History(w.st, w.rank, stream));
  }

  lemma NextKeeps<A>(agg: Aggregate<A>, w: World, stream: string, step: Step)
    requires Inv(agg, w, stream) && Possible(agg, w, stream, step)
    ensures Inv(agg, Next(agg, w, stream, step), stream)
  {
    match step
    case Change(op) =>
      if Elsewhere(op, stream) {
        OtherChangeKeeps(agg, w, stream, op);
      } else {
        AppendKeeps(agg, w, stream, op.events);
      }
    case Read => ReadKeeps(agg, w, stream);
    case Publish(which, seqNo) =>
  }

  lemma {:induction false} RunKeeps<A>(agg: Aggregate<A>, start: World, stream: string, steps: seq<Step>)
    requires Inv(agg, start, stream) && Run(agg, start, stream, steps).Some?
    ensures Inv(agg, Run(agg, start, stream, steps).value, stream)
  {
    if steps != [] {
      RunKeeps(agg, start, stream, steps[..|steps| - 1]);
      NextKeeps(agg, Run(agg, start, stream, steps[..|steps| - 1]).value, stream, steps[|steps| - 1]);
    }
  }

  /** The snapshot of the highest key, as a scan's last entry is. */
  function Latest(snapshots: map<nat, Snapshot>): (r: Option<Snapshot>)
    ensures r.None? <==> snapshots == map[]
    ensures r.Some? ==> exists n :: n in snapshots && r.value == snapshots[n] && forall m :: m in snapshots ==> m <= n
  {
    var keys := Ascending(snapshots.Keys);
    if keys == [] then
      assert snapshots.Keys == {};
      None
    else
      assert keys[|keys| - 1] in keys;
      AscendingIncreases(snapshots.Keys);
      Some(snapshots[keys[|keys| - 1]])
  }

  /** Rehydration: after every run of appends, forks, changes to other streams and compactions that overlap in any way
      and publish in any order, rehydrating from any published snapshot, hence from the latest, gives the fold of the
      whole history and its last version. */
  lemma RehydrateIsFold<A(!new)>(
    agg: Aggregate<A>, start: World, stream: string, steps: seq<Step>, snapshot: Option<Snapshot>)
    requires RestoreInverts(agg) && Inv(agg, start, stream) && Run(agg, start, stream, steps).Some?
    requires var w := Run(agg, start, stream, steps).value;
             snapshot.Some? ==> snapshot.value in w.snapshots.Values
    ensures var w := Run(agg, start, stream, steps).value;
            && WellFormed(w.st, w.rank) && stream in w.st
            && var h := History(w.st, w.rank, stream);
            && Rehydrated(agg, w.st, stream, snapshot) == Ok((Fold(agg, agg.initial, h), LastVersion(h)))
            && Rehydrated(agg, w.st, stream, Latest(w.snapshots)) == Ok((Fold(agg, agg.initial, h), LastVersion(h)))
  {
    RunKeeps(agg, start, stream, steps);
    var w := Run(agg, start, stream, steps).value;
    RehydrateFromOne(agg, w.st, w.rank, stream, snapshot);
    RehydrateFromOne(agg, w.st, w.rank, stream, Latest(w.snapshots));
  }

  /** Resuming from a snapshot needs only the events behind it. */
  lemma ResumedIsFold<A(!new)>(agg: Aggregate<A>, s: Snapshot, h: seq<Event>)
    requires RestoreInverts(agg) && VersionsIncrease(h) && Stands(agg, h, s)
    ensures Resumed(agg, Some(s), Ok(Cut(h, s.through + 1, None))) == Ok((Fold(agg, agg.initial, h), LastVersion(h)))
  {
    RestoredFold(agg, h, s);
  }

  /** With or without a snapshot. */
  predicate Usable<A>(agg: Aggregate<A>, h: seq<Event>, snapshot: Option<Snapshot>) {
    snapshot.Some? ==> Stands(agg, h, snapshot.value)
  }

  lemma ResumedIsFoldAny<A(!new)>(agg: Aggregate<A>, snapshot: Option<Snapshot>, h: seq<Event>)
    requires RestoreInverts(agg) && VersionsIncrease(h) && Usable(agg, h, snapshot)
    ensures Resumed(agg, snapshot, Ok(Cut(h, Behind(snapshot), None)))
            == Ok((Fold(agg, agg.initial, h), LastVersion(h)))
  {
    if snapshot.Some? {
      ResumedIsFold(agg, snapshot.value, h);
    } else {
      CutAll(h);
    }
  }

  lemma RehydrateFromOne<A(!new)>(
    agg: Aggregate<A>, st: Store, rank: map<string, nat>, stream: string, snapshot: Option<Snapshot>)
    requires RestoreInverts(agg) && WellFormed(st, rank) && stream in st
             && Usable(agg, History(st, rank, stream), snapshot)
    ensures var h := History(st, rank, stream);
            Rehydrated(agg, st, stream, snapshot) == Ok((Fold(agg, agg.initial, h), LastVersion(h)))
  {
    HistoryIncreases(st, rank, stream);
    ReadIsHistory(st, rank, stream, Behind(snapshot));
    ResumedIsFoldAny(agg, snapshot, History(st, rank, stream));
  }

  // ---- retention and compaction ----

  /** The aggregate that keeps every event. */
  function Journal(encode: seq<Event> -> Bytes, decode: Bytes -> Option<seq<Event>>): Aggregate<seq<Event>> {
    Aggregate([], (a: seq<Event>, e: Event) => a + [e], a => Some(encode(a)), decode)
  }

  lemma {:induction false} JournalKeepsAll(
    encode: seq<Event> -> Bytes, decode: Bytes -> Option<seq<Event>>, events: seq<Event>)
    ensures Fold(Journal(encode, decode), [], events) == events
  {
    if events != [] {
      var n := |events| - 1;
      assert events == events[..n] + [events[n]];
      JournalKeepsAll(encode, decode, events[..n]);
    }
  }

  function Without(events: seq<Event>, doomed: set<nat>): seq<Event> {
    if events == [] then []
    else
      var e := events[|events| - 1];
      Without(events[..|events| - 1], doomed) + if e.version in doomed then [] else [e]
  }

  lemma {:induction false} WithoutSame(events: seq<Event>, doomed: set<nat>)
    ensures |Without(events, doomed)| <= |events|
    ensures Without(events, doomed) == events <==> forall i :: 0 <= i < |events| ==> events[i].version !in doomed
  {
    if events != [] {
      var n := |events| - 1;
      assert events == events[..n] + [events[n]];
      WithoutSame(events[..n], doomed);
      if Without(events, doomed) == events && events[n].version !in doomed {
        assert Without(events, doomed)[..n] == Without(events[..n], doomed);
      }
    }
  }

  lemma {:induction false} WithoutAbove(events: seq<Event>, doomed: set<nat>, bound: nat)
    requires forall v :: v in doomed ==> v < bound
    ensures Cut(Without(events, doomed), bound, None) == Cut(events, bound, None)
  {
    if events != [] {
      var n := |events| - 1;
      var e := events[n];
      WithoutAbove(events[..n], doomed, bound);
      CutConcat(Without(events[..n], doomed), if e.version in doomed then [] else [e], bound, None);
      CutOne(e, bound, None);
    }
  }

  function Purged(s: Stream, doomed: set<nat>): Stream { s.(records := s.records - doomed) }

  lemma {:induction false} PickLeft(s: Stream, doomed: set<nat>, versions: seq<nat>)
    requires forall v :: v in versions ==> v in s.records && s.records[v].version == v
    ensures PickRaw(Purged(s, doomed), Left(versions, doomed)) == Without(PickRaw(s, versions), doomed)
  {
    if versions != [] {
      var n := |versions| - 1;
      var v := versions[n];
      assert v in versions;
      PickLeft(s, doomed, versions[..n]);
      WithoutSnoc(PickRaw(s, versions[..n]), s.records[v], doomed);
      LeftSnoc(s, doomed, Left(versions[..n], doomed), v);
      if !Unhidden(s, v) {
        assert PickRaw(s, versions) == PickRaw(s, versions[..n]);
      }
    }
  }

  lemma LeftSnoc(s: Stream, doomed: set<nat>, left: seq<nat>, v: nat)
    requires v in s.records && s.records[v].version == v
    requires forall w :: w in left ==> w in s.records && w !in doomed
    ensures v !in doomed ==>
              PickRaw(Purged(s, doomed), left + [v])
              == PickRaw(Purged(s, doomed), left) + if Unhidden(s, v) then [s.records[v]] else []
  {
    if v !in doomed {
      PickRawSnoc(Purged(s, doomed), left, v);
    }
  }

  lemma WithoutSnoc(events: seq<Event>, e: Event, doomed: set<nat>)
    ensures Without(events + [e], doomed) == Without(events, doomed) + if e.version in doomed then [] else [e]
  {
    assert (events + [e])[..|events|] == events;
  }

  /** A purge takes exactly the doomed events from what a stream reads of its own. */
  lemma RawPurged(s: Stream, doomed: set<nat>)
    requires forall v :: v in s.records ==> s.records[v].version == v
    ensures RawEvents(Purged(s, doomed)) == Without(RawEvents(s), doomed)
  {
    var versions := Ascending(s.records.Keys);
    PickLeft(s, doomed, versions);
    AscendingIncreases(s.records.Keys);
    AscendingIs(Purged(s, doomed).records.Keys, Left(versions, doomed));
  }

  /** The history of a stream purged itself: what it inherits, then its own events without the doomed ones. */
  lemma HistoryPurged(st: Store, rank: map<string, nat>, stream: string, doomed: set<nat>)
    requires WellFormed(st, rank) && stream in st && !st[stream].deleted && Allowed(st, Purge(stream, doomed))
    requires Protected(st, rank, stream)
    ensures var st' := Apply(st, Purge(stream, doomed));
            && WellFormed(st', rank)
            && History(st, rank, stream) == RawInherited(st, rank, stream) + RawEvents(st[stream])
            && History(st', rank, stream) == RawInherited(st, rank, stream) + Without(RawEvents(st[stream]), doomed)
  {
    var op := Purge(stream, doomed);
    var st' := Apply(st, op);
    ApplyWellFormed(st, rank, op);
    PurgeProtects(st, rank, doomed, stream, stream);
    LiveHistoryIsRaw(st, rank, stream);
    LiveHistoryIsRaw(st', rank, stream);
    RawHistoryParts(st, rank, stream);
    RawHistoryParts(st', rank, stream);
    InheritedKept(st, rank, op, stream);
    assert StreamOk(st, stream);
    RawPurged(st[stream], doomed);
  }

  lemma {:induction false} PurgeProtects(
    st: Store, rank: map<string, nat>, doomed: set<nat>, purged: string, stream: string)
    requires WellFormed(st, rank) && purged in st && stream in st && Allowed(st, Purge(purged, doomed))
    requires RankOf(rank, stream) <= RankOf(rank, purged) && Protected(st, rank, stream)
    requires WellFormed(Apply(st, Purge(purged, doomed)), rank)
    ensures Protected(Apply(st, Purge(purged, doomed)), rank, stream)
    ensures LiveBelow(st, rank, stream, purged)
    decreases RankOf(rank, stream)
  {
    if st[stream].fork.Some? {
      assert RankedAt(st, rank, stream);
      PurgeProtects(st, rank, doomed, purged, st[stream].fork.value.stream);
    }
  }

  /** Retention below a snapshot: purging only what a snapshot covers loses nothing for rehydration from that snapshot.
      */
  lemma PurgeBelowSnapshot<A(!new)>(
    agg: Aggregate<A>, st: Store, rank: map<string, nat>, stream: string, doomed: set<nat>, s: Snapshot)
    requires RestoreInverts(agg) && WellFormed(st, rank) && stream in st && !st[stream].deleted
             && Protected(st, rank, stream)
    requires Allowed(st, Purge(stream, doomed)) && Stands(agg, History(st, rank, stream), s)
    requires forall v :: v in doomed ==> v <= s.through
    ensures var h := History(st, rank, stream);
            Rehydrated(agg, Apply(st, Purge(stream, doomed)), stream, Some(s))
              == Ok((Fold(agg, agg.initial, h), LastVersion(h)))
  {
    var st', h, lo := Apply(st, Purge(stream, doomed)), History(st, rank, stream), s.through + 1;
    PurgedReads(st, rank, stream, doomed, lo);
    assert VersionsIncrease(h) by { HistoryIncreases(st, rank, stream); }
    ResumedIsFold(agg, s, h);
  }

  /** A purge below `lo` changes nothing that is read from there on. */
  lemma PurgedReads(st: Store, rank: map<string, nat>, stream: string, doomed: set<nat>, lo: nat)
    requires WellFormed(st, rank) && stream in st && !st[stream].deleted && Protected(st, rank, stream)
    requires Allowed(st, Purge(stream, doomed)) && forall v :: v in doomed ==> v < lo
    ensures Resolve(Apply(st, Purge(stream, doomed)), stream, {}, lo, None)
         == Ok(Cut(History(st, rank, stream), lo, None))
  {
    HistoryPurged(st, rank, stream, doomed);
    SameAbove(RawInherited(st, rank, stream), RawEvents(st[stream]), doomed, lo);
    ReadIsHistory(Apply(st, Purge(stream, doomed)), rank, stream, lo);
  }

  /** Above everything doomed, a purged history is what it was. */
  lemma SameAbove(inherited: seq<Event>, own: seq<Event>, doomed: set<nat>, lo: nat)
    requires forall v :: v in doomed ==> v < lo
    ensures Cut(inherited + Without(own, doomed), lo, None) == Cut(inherited + own, lo, None)
  {
    CutConcat(inherited, own, lo, None);
    CutConcat(inherited, Without(own, doomed), lo, None);
    WithoutAbove(own, doomed, lo);
  }

  /** Compaction folds what is readable, from the initial state. After a purge, an application that keeps every event
      gets its state back from a new snapshot if and only if the purge took no event of the stream. */
  lemma CompactAfterPurgeKeepsIff(encode: seq<Event> -> Bytes, decode: Bytes -> Option<seq<Event>>,
                                  st: Store, rank: map<string, nat>, stream: string, doomed: set<nat>)
    requires RestoreInverts(Journal(encode, decode))
    requires WellFormed(st, rank) && stream in st && !st[stream].deleted && Protected(st, rank, stream)
    requires Allowed(st, Purge(stream, doomed))
    ensures var agg, st' := Journal(encode, decode), Apply(st, Purge(stream, doomed));
            && WellFormed(st', rank)
            && var h' := History(st', rank, stream);
            && (Compacted(agg, h').Ok? ==>
                  && Rehydrated(agg, st', stream, Some(Compacted(agg, h').value)).Ok?
                  && (Rehydrated(agg, st', stream, Some(Compacted(agg, h').value)).value.0 == History(st, rank, stream)
                      <==> forall i :: 0 <= i < |RawEvents(st[stream])| ==>
                        RawEvents(st[stream])[i].version !in doomed))
  {
    var agg, st' := Journal(encode, decode), Apply(st, Purge(stream, doomed));
    HistoryPurged(st, rank, stream, doomed);
    var h' := History(st', rank, stream);
    if Compacted(agg, h').Ok? {
      HistoryIncreases(st', rank, stream);
      CompactedStands(agg, h');
      RehydrateFromOne(agg, st', rank, stream, Some(Compacted(agg, h').value));
      JournalKeepsAll(encode, decode, h');
      WithoutSame(RawEvents(st[stream]), doomed);
      SameSuffix(RawInherited(st, rank, stream), RawEvents(st[stream]), Without(RawEvents(st[stream]), doomed));
    }
  }

  lemma SameSuffix(a: seq<Event>, b: seq<Event>, c: seq<Event>)
    ensures a + b == a + c <==> b == c
  {
    if a + b == a + c {
      assert b == (a + b)[|a|..] && c == (a + c)[|a|..];
    }
  }

  /** A stream with two events. */
  function TwoEvents(a: Event, b: Event): Store {
    map["s" := Stream(1, None, map[0 := a, 1 := b], 0, false, [], map[])]
  }

  lemma TwoEventsRead(a: Event, b: Event)
    requires a.version == 0 && b.version == 1
    ensures RawEvents(TwoEvents(a, b)["s"]) == [a, b]
  {
    var s := TwoEvents(a, b)["s"];
    AscendingIs(s.records.Keys, [0, 1]);
    assert [0, 1][..1] == [0] && [0][..0] == [];
    var none: seq<nat> := [];
    PickRawSnoc(s, none, 0);
    PickRawSnoc(s, [0], 1);
    assert none + [0] == [0] && [0] + [1] == [0, 1];
  }

  /** The first of two events purged: the compaction succeeds, and what it restores is not the history. */
  lemma CompactAfterPurgeForgets(encode: seq<Event> -> Bytes, decode: Bytes -> Option<seq<Event>>, a: Event, b: Event)
    requires RestoreInverts(Journal(encode, decode)) && a.version == 0 && b.version == 1
    ensures var agg, st, rank := Journal(encode, decode), TwoEvents(a, b), map["s" := 0];
            && WellFormed(st, rank) && Allowed(st, Purge("s", {0})) && WellFormed(Apply(st, Purge("s", {0})), rank)
            && var st' := Apply(st, Purge("s", {0}));
            var snapshot := Compacted(agg, History(st', rank, "s"));
            && snapshot.Ok? && Rehydrated(agg, st', "s", Some(snapshot.value)).Ok?
            && Rehydrated(agg, st', "s", Some(snapshot.value)).value.0 != History(st, rank, "s")
  {
    var st, rank := TwoEvents(a, b), map["s" := 0];
    CeilingIsMax(st, "s");
    TwoEventsRead(a, b);
    assert RankedAt(st, rank, "s") && StreamOk(st, "s");
    HistoryPurged(st, rank, "s", {0});
    CompactAfterPurgeKeepsIff(encode, decode, st, rank, "s", {0});
    assert RawEvents(st["s"])[0].version in {0};
    KeptLast(RawEvents(st["s"]), {0});
  }

  lemma KeptLast(events: seq<Event>, doomed: set<nat>)
    requires events != [] && events[|events| - 1].version !in doomed
    ensures Without(events, doomed) != []
  {
  }
}
