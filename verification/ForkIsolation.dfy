/** What appends, forks, purges and deletions keep: well-formed chains, increasing histories, and isolation of forks. */
module ForkIsolation {
  import opened Prelude
  import opened NatOrder
  import opened ForkHistory

  datatype Op =
    | Append(stream: string, events: seq<Event>)
    | Fork(parent: string, at: nat, child: string)
    | Purge(stream: string, doomed: set<nat>)
    | Delete(stream: string)

  function StartOf(s: Stream): nat {
    if s.fork.Some? then s.fork.value.at + 1 else 0
  }

  function NewStream(tail: nat, fork: Option<ForkRef>): Stream {
    Stream(tail, fork, map[], 0, false, [], map[])
  }

  /** The versions a batch takes on. */
  function NextVersion(st: Store, stream: string): nat {
    if stream in st then st[stream].tail + 1 else 0
  }

  predicate Numbered(events: seq<Event>, first: nat) {
    forall i :: 0 <= i < |events| ==> events[i].version == first + i
  }

  predicate Covers(first: nat, n: nat, v: nat) { first <= v < first + n }

  function RecordsOf(events: seq<Event>, first: nat): (r: map<nat, Event>)
    ensures forall v :: v in r <==> first <= v < first + |events|
    ensures forall v :: v in r ==> r[v] == events[v - first]
  {
    map v: nat | first <= v < first + |events| && Covers(first, |events|, v) :: events[v - first]
  }

  /** What can happen to a store. */
  predicate Feasible(st: Store, op: Op) {
    match op
    case Append(stream, events) => events != [] && Numbered(events, NextVersion(st, stream))
    case Fork(parent, at, child) => parent in st && at <= st[parent].tail && child !in st
    case Purge(stream, _) => stream in st
    case Delete(stream) => stream in st
  }

  /** Everything doomed lies above the highest live pin. */
  predicate AbovePins(st: Store, stream: string, doomed: set<nat>)
    requires stream in st
  {
    forall v :: v in doomed && Ceiling(st, stream).Some? ==> v > Ceiling(st, stream).value
  }

  /** A purge reads the highest live pin when it begins and deletes only above it; it may do so in any number of bounded
      steps, as long as no fork is created meanwhile. */
  predicate Allowed(st: Store, op: Op) {
    Feasible(st, op) && (op.Purge? ==> AbovePins(st, op.stream, op.doomed))
  }

  function Apply(st: Store, op: Op): Store
    requires Feasible(st, op)
  {
    match op
    case Append(stream, events) =>
      var first := NextVersion(st, stream);
      var base := if stream in st then st[stream] else NewStream(0, None);
      st[stream := base.(tail := first + |events| - 1, records := base.records + RecordsOf(events, first))]
    case Fork(parent, at, child) =>
      st[parent := st[parent].(pins := st[parent].pins[child := at])][child := NewStream(at, Some(ForkRef(parent, at)))]
    case Purge(stream, doomed) => st[stream := st[stream].(records := st[stream].records - doomed)]
    case Delete(stream) => st[stream := st[stream].(deleted := true)]
  }

  function Reranked(st: Store, rank: map<string, nat>, op: Op): map<string, nat>
    requires Feasible(st, op) && Ranked(st, rank)
  {
    match op
    case Append(stream, _) => if stream in st then rank else rank[stream := 0]
    case Fork(parent, _, child) => rank[child := RankOf(rank, parent) + 1]
    case _ => rank
  }

  /** A child's records lie behind its fork point, the fork point lies within the parent, and the parent pins it. */
  predicate StreamOk(st: Store, s: string)
    requires s in st
  {
    && StartOf(st[s]) <= st[s].tail + 1
    && (forall v :: v in st[s].records ==> StartOf(st[s]) <= v <= st[s].tail && st[s].records[v].version == v)
    && (st[s].fork.Some? ==>
          var f := st[s].fork.value;
          f.stream in st && f.at <= st[f.stream].tail && s in st[f.stream].pins && st[f.stream].pins[s] == f.at)
    && (forall c :: c in st[s].pins ==> c in st)
  }

  predicate WellFormed(st: Store, rank: map<string, nat>) {
    Ranked(st, rank) && forall s {:trigger StreamOk(st, s)} :: s in st ==> StreamOk(st, s)
  }

  lemma AppendWellFormed(st: Store, rank: map<string, nat>, stream: string, events: seq<Event>)
    requires WellFormed(st, rank) && Feasible(st, Append(stream, events))
    ensures var op := Append(stream, events);
            WellFormed(Apply(st, op), Reranked(st, rank, op))
  {
    var st' := Apply(st, Append(stream, events));
    var rank' := Reranked(st, rank, Append(stream, events));
    forall s | s in st' ensures RankedAt(st', rank', s) && StreamOk(st', s) {
      if s in st { assert RankedAt(st, rank, s) && StreamOk(st, s); }
    }
  }

  lemma ForkWellFormed(st: Store, rank: map<string, nat>, parent: string, at: nat, child: string)
    requires WellFormed(st, rank) && Feasible(st, Fork(parent, at, child))
    ensures var op := Fork(parent, at, child);
            WellFormed(Apply(st, op), Reranked(st, rank, op))
  {
    var op := Fork(parent, at, child);
    var st', rank' := Apply(st, op), Reranked(st, rank, op);
    forall s | s in st' ensures RankedAt(st', rank', s) && StreamOk(st', s) {
      if s == child {
        assert st'[child].fork == Some(ForkRef(parent, at)) && st'[parent].pins[child] == at;
      } else {
        assert RankedAt(st, rank, s) && StreamOk(st, s);
        ForkKeepsStream(st, parent, at, child, s);
      }
    }
  }

  lemma ForkKeepsStream(st: Store, parent: string, at: nat, child: string, s: string)
    requires Feasible(st, Fork(parent, at, child)) && s in st && StreamOk(st, s)
    ensures StreamOk(Apply(st, Fork(parent, at, child)), s)
  {
    var st' := Apply(st, Fork(parent, at, child));
    assert s != child && st'[s] == st[s].(pins := st'[s].pins);
    assert s == parent ==> st'[s].pins == st[s].pins[child := at];
    assert s != parent ==> st'[s].pins == st[s].pins;
  }

  lemma ApplyWellFormed(st: Store, rank: map<string, nat>, op: Op)
    requires WellFormed(st, rank) && Feasible(st, op)
    ensures WellFormed(Apply(st, op), Reranked(st, rank, op))
  {
    match op
    case Append(stream, events) => AppendWellFormed(st, rank, stream, events);
    case Fork(parent, at, child) => ForkWellFormed(st, rank, parent, at, child);
    case _ =>
      var st' := Apply(st, op);
      forall s | s in st' ensures RankedAt(st', rank, s) && StreamOk(st', s) {
        assert RankedAt(st, rank, s) && StreamOk(st, s);
      }
  }

  function Run(ops: seq<Op>): Option<(Store, map<string, nat>)> {
    if ops == [] then Some((map[], map[]))
    else
      var before := Run(ops[..|ops| - 1]);
      var op := ops[|ops| - 1];
      if before.Some? && Ranked(before.value.0, before.value.1) && Allowed(before.value.0, op)
      then Some((Apply(before.value.0, op), Reranked(before.value.0, before.value.1, op))) else None
  }

  lemma {:induction false} RunWellFormed(ops: seq<Op>)
    requires Run(ops).Some?
    ensures WellFormed(Run(ops).value.0, Run(ops).value.1)
  {
    if ops != [] {
      RunWellFormed(ops[..|ops| - 1]);
      var before := Run(ops[..|ops| - 1]).value;
      ApplyWellFormed(before.0, before.1, ops[|ops| - 1]);
    }
  }

  // ---- histories increase ----

  predicate VersionsIncrease(events: seq<Event>) {
    forall i, j :: 0 <= i < j < |events| ==> events[i].version < events[j].version
  }

  predicate VersionsWithin(events: seq<Event>, lo: nat, hi: nat) {
    forall i :: 0 <= i < |events| ==> lo <= events[i].version < hi
  }

  lemma {:induction false} PickIncreases(st: Store, stream: string, versions: seq<nat>, bound: nat)
    requires stream in st && StreamOk(st, stream) && Increasing(versions)
    requires forall v :: v in versions ==> v in st[stream].records && v < bound
    ensures var p := PickVisible(st, stream, versions, 0, None);
            VersionsIncrease(p) && VersionsWithin(p, StartOf(st[stream]), bound)
  {
    if versions != [] {
      var n := |versions| - 1;
      assert versions[n] in versions;
      PickIncreases(st, stream, versions[..n], versions[n]);
    }
  }

  lemma {:induction false} CutMember(events: seq<Event>, bound: nat, i: nat)
    requires i < |Cut(events, 0, Some(bound))|
    ensures exists j :: 0 <= j < |events| && Cut(events, 0, Some(bound))[i] == events[j]
  {
    var n := |events| - 1;
    if i < |Cut(events[..n], 0, Some(bound))| {
      CutMember(events[..n], bound, i);
      var j :| 0 <= j < n && Cut(events[..n], 0, Some(bound))[i] == events[..n][j];
      assert events[..n][j] == events[j];
    }
  }

  lemma {:induction false} CutIncreases(events: seq<Event>, bound: nat)
    requires VersionsIncrease(events)
    ensures VersionsIncrease(Cut(events, 0, Some(bound))) && VersionsWithin(Cut(events, 0, Some(bound)), 0, bound)
  {
    if events != [] {
      var n := |events| - 1;
      CutIncreases(events[..n], bound);
      var before := Cut(events[..n], 0, Some(bound));
      forall i | 0 <= i < |before| ensures before[i].version < events[n].version {
        CutMember(events[..n], bound, i);
        var j :| 0 <= j < n && before[i] == events[..n][j];
        assert events[..n][j] == events[j];
      }
    }
  }

  lemma IncreasingJoin(a: seq<Event>, b: seq<Event>, mid: nat, hi: nat)
    requires VersionsIncrease(a) && VersionsWithin(a, 0, mid) && VersionsIncrease(b) && VersionsWithin(b, mid, hi)
             && mid <= hi
    ensures VersionsIncrease(a + b) && VersionsWithin(a + b, 0, hi)
  {
  }

  /** Along the whole chain of forks, versions strictly increase and stay within the stream's tail. */
  lemma {:induction false} HistoryIncreases(st: Store, rank: map<string, nat>, stream: string)
    requires WellFormed(st, rank) && stream in st
    ensures VersionsIncrease(History(st, rank, stream))
            && VersionsWithin(History(st, rank, stream), 0, st[stream].tail + 1)
    decreases RankOf(rank, stream)
  {
    assert StreamOk(st, stream);
    AscendingIncreases(st[stream].records.Keys);
    PickIncreases(st, stream, Ascending(st[stream].records.Keys), st[stream].tail + 1);
    if st[stream].fork.Some? {
      assert RankedAt(st, rank, stream);
      var f := st[stream].fork.value;
      HistoryIncreases(st, rank, f.stream);
      CutIncreases(History(st, rank, f.stream), f.at + 1);
      IncreasingJoin(Cut(History(st, rank, f.stream), 0, Some(f.at + 1)), ReadEvents(st, stream, 0, None), f.at + 1,
                     st[stream].tail + 1);
    }
  }

  /** Fork history: in every reachable state, reading any range of any stream succeeds and gives exactly its full
      history cut to that range, with versions strictly increasing across the whole chain. */
  lemma ReachableHistory(ops: seq<Op>, stream: string, lo: nat, hi: Option<nat>)
    requires Run(ops).Some? && stream in Run(ops).value.0
    ensures var (st, rank) := Run(ops).value;
            && Ranked(st, rank)
            && Resolve(st, stream, {}, lo, hi) == Ok(Cut(History(st, rank, stream), lo, hi))
            && VersionsIncrease(History(st, rank, stream))
  {
    RunWellFormed(ops);
    var (st, rank) := Run(ops).value;
    forall s, v | s in st && v in st[s].records ensures st[s].records[v].version == v {
      assert StreamOk(st, s);
    }
    ResolveIsCutHistory(st, rank, stream, {}, lo, hi);
    HistoryIncreases(st, rank, stream);
  }

  // ---- isolation ----

  /** A stream's events whether or not the stream has been deleted. */
  function PickRaw(s: Stream, versions: seq<nat>): seq<Event>
    requires forall v :: v in versions ==> v in s.records
  {
    if versions == [] then []
    else
      var v := versions[|versions| - 1];
      PickRaw(s, versions[..|versions| - 1]) + if Unhidden(s, v) then [s.records[v]] else []
  }

  function RawEvents(s: Stream): seq<Event> { PickRaw(s, Ascending(s.records.Keys)) }

  function RawHistory(st: Store, rank: map<string, nat>, stream: string): seq<Event>
    requires Ranked(st, rank) && stream in st
    decreases RankOf(rank, stream)
  {
    var own := RawEvents(st[stream]);
    if st[stream].fork.None? then own
    else
      assert RankedAt(st, rank, stream);
      var f := st[stream].fork.value;
      Cut(RawHistory(st, rank, f.stream), 0, Some(f.at + 1)) + own
  }

  /** What `stream` inherits, deleted or not. */
  function RawInherited(st: Store, rank: map<string, nat>, stream: string): seq<Event>
    requires Ranked(st, rank) && stream in st
  {
    if st[stream].fork.None? then []
    else
      assert RankedAt(st, rank, stream);
      Cut(RawHistory(st, rank, st[stream].fork.value.stream), 0, Some(st[stream].fork.value.at + 1))
  }

  lemma RawHistoryParts(st: Store, rank: map<string, nat>, stream: string)
    requires Ranked(st, rank) && stream in st
    ensures RawHistory(st, rank, stream) == RawInherited(st, rank, stream) + RawEvents(st[stream])
  {
    if st[stream].fork.None? {
      assert [] + RawEvents(st[stream]) == RawEvents(st[stream]);
    }
  }

  /** Along the chain, the next stream down from a deleted one is live. */
  predicate Protected(st: Store, rank: map<string, nat>, stream: string)
    requires Ranked(st, rank) && stream in st
    decreases RankOf(rank, stream)
  {
    st[stream].fork.Some? ==>
      assert RankedAt(st, rank, stream);
      var p := st[stream].fork.value.stream;
      (st[p].deleted ==> !st[stream].deleted) && Protected(st, rank, p)
  }

  /** Along the chain, the next stream down from `a` is live. */
  predicate LiveBelow(st: Store, rank: map<string, nat>, stream: string, a: string)
    requires Ranked(st, rank) && stream in st
    decreases RankOf(rank, stream)
  {
    st[stream].fork.Some? ==>
      assert RankedAt(st, rank, stream);
      var p := st[stream].fork.value.stream;
      (p == a ==> !st[stream].deleted) && LiveBelow(st, rank, p, a)
  }

  /** Deletion hides nothing at or below a live pin. */
  predicate ReadableBelow(st: Store, stream: string, bound: Option<nat>)
    requires stream in st
  {
    st[stream].deleted ==> bound.Some? && Ceiling(st, stream).Some? && bound.value <= Ceiling(st, stream).value + 1
  }

  lemma CutSame(a: seq<Event>, a': seq<Event>, b: seq<Event>, b': seq<Event>, bound: Option<nat>)
    requires Cut(a, 0, bound) == Cut(a', 0, bound) && Cut(b, 0, bound) == Cut(b', 0, bound)
    ensures Cut(a + b, 0, bound) == Cut(a' + b', 0, bound)
  {
    CutConcat(a, b, 0, bound);
    CutConcat(a', b', 0, bound);
  }

  lemma {:induction false} PickIsRaw(st: Store, stream: string, versions: seq<nat>, bound: Option<nat>)
    requires stream in st && StreamOk(st, stream) && ReadableBelow(st, stream, bound)
    requires forall v :: v in versions ==> v in st[stream].records
    ensures Cut(PickVisible(st, stream, versions, 0, None), 0, bound) == Cut(PickRaw(st[stream], versions), 0, bound)
  {
    if versions != [] {
      var n := |versions| - 1;
      var v := versions[n];
      assert v in versions;
      PickIsRaw(st, stream, versions[..n], bound);
      var e := st[stream].records[v];
      var seen, raw := if Visible(st, stream, v) then [e] else [], if Unhidden(st[stream], v) then [e] else [];
      CutOne(e, 0, bound);
      CutSame(PickVisible(st, stream, versions[..n], 0, None), PickRaw(st[stream], versions[..n]), seen, raw, bound);
    }
  }

  /** A live child's pin keeps its parent readable up to the fork point. */
  lemma PinnedBelow(st: Store, child: string)
    requires child in st && StreamOk(st, child) && st[child].fork.Some? && !st[child].deleted
    ensures var f := st[child].fork.value;
            Ceiling(st, f.stream).Some? && f.at <= Ceiling(st, f.stream).value
  {
    var f := st[child].fork.value;
    CeilingIsMax(st, f.stream);
    assert child in st[f.stream].pins && LivePin(st, child);
  }

  lemma HistoryIsRawStep(st: Store, rank: map<string, nat>, stream: string, bound: Option<nat>)
    requires Ranked(st, rank) && stream in st
    requires Cut(ReadEvents(st, stream, 0, None), 0, bound) == Cut(RawEvents(st[stream]), 0, bound)
    requires st[stream].fork.Some? ==>
               assert RankedAt(st, rank, stream);
               var f := st[stream].fork.value;
               Cut(History(st, rank, f.stream), 0, Some(f.at + 1))
                 == Cut(RawHistory(st, rank, f.stream), 0, Some(f.at + 1))
    ensures Cut(History(st, rank, stream), 0, bound) == Cut(RawHistory(st, rank, stream), 0, bound)
  {
    var own, own' := ReadEvents(st, stream, 0, None), RawEvents(st[stream]);
    if st[stream].fork.Some? {
      assert RankedAt(st, rank, stream);
      var f := st[stream].fork.value;
      var inherited := Cut(History(st, rank, f.stream), 0, Some(f.at + 1));
      CutSame(inherited, inherited, own, own', bound);
      assert History(st, rank, stream) == inherited + own;
      assert RawHistory(st, rank, stream) == inherited + own';
    } else {
      assert History(st, rank, stream) == own;
      assert RawHistory(st, rank, stream) == own';
    }
  }

  /** On a protected chain deletion does not show. */
  lemma {:induction false} HistoryIsRaw(st: Store, rank: map<string, nat>, stream: string, bound: Option<nat>)
    requires WellFormed(st, rank) && stream in st && Protected(st, rank, stream) && ReadableBelow(st, stream, bound)
    ensures Cut(History(st, rank, stream), 0, bound) == Cut(RawHistory(st, rank, stream), 0, bound)
    decreases RankOf(rank, stream)
  {
    assert StreamOk(st, stream);
    OwnIsRaw(st, stream, bound);
    if st[stream].fork.Some? {
      assert RankedAt(st, rank, stream);
      var f := st[stream].fork.value;
      if st[f.stream].deleted {
        PinnedBelow(st, stream);
      }
      HistoryIsRaw(st, rank, f.stream, Some(f.at + 1));
    }
    HistoryIsRawStep(st, rank, stream, bound);
  }

  lemma OwnIsRaw(st: Store, stream: string, bound: Option<nat>)
    requires stream in st && StreamOk(st, stream) && ReadableBelow(st, stream, bound)
    ensures Cut(ReadEvents(st, stream, 0, None), 0, bound) == Cut(RawEvents(st[stream]), 0, bound)
  {
    PickIsRaw(st, stream, Ascending(st[stream].records.Keys), bound);
  }

  /** The stream's metadata, and its records within the bound, are the same in both states. */
  predicate SameWithin(a: Stream, b: Stream, bound: Option<nat>) {
    && a.fork == b.fork && a.trim == b.trim && a.rollbacks == b.rollbacks
    && (forall v :: v in a.records && InRange(v, 0, bound) ==> v in b.records && a.records[v] == b.records[v])
    && (forall v :: v in b.records && InRange(v, 0, bound) ==> v in a.records)
  }

  /** Events within a bound depend on the records within it. */
  lemma {:induction false} PickRawCut(s: Stream, versions: seq<nat>, bound: Option<nat>)
    requires forall v :: v in versions ==> v in s.records && s.records[v].version == v
    ensures Cut(PickRaw(s, versions), 0, bound) == PickRaw(s, Within(versions, bound))
  {
    if versions != [] {
      var n := |versions| - 1;
      var v := versions[n];
      assert v in versions;
      PickRawCut(s, versions[..n], bound);
      CutConcat(PickRaw(s, versions[..n]), if Unhidden(s, v) then [s.records[v]] else [], 0, bound);
      CutOne(s.records[v], 0, bound);
      if InRange(v, 0, bound) {
        PickRawSnoc(s, Within(versions[..n], bound), v);
      }
    }
  }

  lemma PickRawSnoc(s: Stream, versions: seq<nat>, v: nat)
    requires v in s.records && forall w :: w in versions ==> w in s.records
    ensures PickRaw(s, versions + [v]) == PickRaw(s, versions) + if Unhidden(s, v) then [s.records[v]] else []
  {
    assert (versions + [v])[..|versions|] == versions;
  }

  function Within(versions: seq<nat>, bound: Option<nat>): (r: seq<nat>)
    ensures forall v :: v in r <==> v in versions && InRange(v, 0, bound)
    ensures Increasing(versions) ==> Increasing(r)
  {
    if versions == [] then []
    else
      var n := |versions| - 1;
      assert versions == versions[..n] + [versions[n]];
      var before := Within(versions[..n], bound);
      assert forall i :: 0 <= i < |before| ==> before[i] in before;
      if InRange(versions[n], 0, bound) then before + [versions[n]] else before
  }

  lemma {:induction false} PickRawSame(a: Stream, b: Stream, versions: seq<nat>, bound: Option<nat>)
    requires SameWithin(a, b, bound)
    requires forall v :: v in versions ==> v in a.records && v in b.records && InRange(v, 0, bound)
    ensures PickRaw(a, versions) == PickRaw(b, versions)
  {
    if versions != [] {
      assert versions[|versions| - 1] in versions;
      PickRawSame(a, b, versions[..|versions| - 1], bound);
    }
  }

  lemma RawSameWithin(a: Stream, b: Stream, bound: Option<nat>)
    requires SameWithin(a, b, bound)
    requires forall v :: v in a.records ==> a.records[v].version == v
    requires forall v :: v in b.records ==> b.records[v].version == v
    ensures Cut(RawEvents(a), 0, bound) == Cut(RawEvents(b), 0, bound)
  {
    AscendingIncreases(a.records.Keys);
    AscendingIncreases(b.records.Keys);
    PicksSameWithin(a, b, bound, Ascending(a.records.Keys), Ascending(b.records.Keys));
  }

  lemma PicksSameWithin(a: Stream, b: Stream, bound: Option<nat>, va: seq<nat>, vb: seq<nat>)
    requires SameWithin(a, b, bound) && Increasing(va) && Increasing(vb)
    requires forall v :: v in va <==> v in a.records
    requires forall v :: v in vb <==> v in b.records
    requires forall v :: v in va ==> a.records[v].version == v
    requires forall v :: v in vb ==> b.records[v].version == v
    ensures Cut(PickRaw(a, va), 0, bound) == Cut(PickRaw(b, vb), 0, bound)
  {
    PickRawCut(a, va, bound);
    PickRawCut(b, vb, bound);
    IncreasingUnique(Within(va, bound), Within(vb, bound));
    PickRawSame(a, b, Within(va, bound), bound);
  }

  /** Every stream of the chain is the same in both states, within what the stream below it reads. */
  predicate ChainSame(st: Store, st': Store, rank: map<string, nat>, stream: string, bound: Option<nat>)
    requires Ranked(st, rank) && stream in st
    decreases RankOf(rank, stream)
  {
    && stream in st'
    && SameWithin(st[stream], st'[stream], bound)
    && (st[stream].fork.Some? ==>
          assert RankedAt(st, rank, stream);
          var f := st[stream].fork.value;
          ChainSame(st, st', rank, f.stream, Some(f.at + 1)))
  }

  lemma RawHistorySameStep(
    st: Store, st': Store, rank: map<string, nat>, rank': map<string, nat>, stream: string, bound: Option<nat>)
    requires Ranked(st, rank) && Ranked(st', rank') && stream in st && stream in st'
    requires RawInherited(st, rank, stream) == RawInherited(st', rank', stream)
    requires Cut(RawEvents(st[stream]), 0, bound) == Cut(RawEvents(st'[stream]), 0, bound)
    ensures Cut(RawHistory(st, rank, stream), 0, bound) == Cut(RawHistory(st', rank', stream), 0, bound)
  {
    RawHistoryParts(st, rank, stream);
    RawHistoryParts(st', rank', stream);
    CutSame(RawInherited(st, rank, stream), RawInherited(st', rank', stream), RawEvents(st[stream]),
            RawEvents(st'[stream]), bound);
  }

  lemma {:induction false} RawHistorySame(
    st: Store, st': Store, rank: map<string, nat>, rank': map<string, nat>, stream: string, bound: Option<nat>)
    requires WellFormed(st, rank) && WellFormed(st', rank') && stream in st && ChainSame(st, st', rank, stream, bound)
    ensures Cut(RawHistory(st, rank, stream), 0, bound) == Cut(RawHistory(st', rank', stream), 0, bound)
    decreases RankOf(rank, stream)
  {
    assert StreamOk(st, stream) && StreamOk(st', stream);
    assert RankedAt(st, rank, stream) && RankedAt(st', rank', stream);
    RawSameWithin(st[stream], st'[stream], bound);
    if st[stream].fork.Some? {
      RawHistorySame(st, st', rank, rank', st[stream].fork.value.stream, Some(st[stream].fork.value.at + 1));
    }
    RawHistorySameStep(st, st', rank, rank', stream, bound);
  }

  /** What an operation leaves alone in one stream. */
  predicate Spares(st: Store, op: Op, stream: string, bound: Option<nat>)
    requires stream in st
  {
    match op
    case Append(target, _) => target == stream ==> bound.Some? && bound.value <= st[stream].tail + 1
    case Purge(target, _) =>
      target == stream ==> bound.Some? && Ceiling(st, stream).Some? && bound.value <= Ceiling(st, stream).value + 1
    case _ => true
  }

  lemma SparedIsSame(st: Store, op: Op, stream: string, bound: Option<nat>)
    requires stream in st && StreamOk(st, stream) && Allowed(st, op) && Spares(st, op, stream, bound)
    ensures stream in Apply(st, op) && SameWithin(st[stream], Apply(st, op)[stream], bound)
  {
  }

  /** Along the chain nothing within reach of the stream below is touched. */
  lemma {:induction false} AncestorsSpared(
    st: Store, rank: map<string, nat>, op: Op, stream: string, bound: Option<nat>)
    requires WellFormed(st, rank) && Allowed(st, op) && stream in st && Spares(st, op, stream, bound)
    requires op.Purge? ==> LiveBelow(st, rank, stream, op.stream)
    ensures ChainSame(st, Apply(st, op), rank, stream, bound)
    decreases RankOf(rank, stream)
  {
    assert StreamOk(st, stream);
    SparedIsSame(st, op, stream, bound);
    if st[stream].fork.Some? {
      assert RankedAt(st, rank, stream);
      var f := st[stream].fork.value;
      if op.Purge? && op.stream == f.stream {
        PinnedBelow(st, stream);
      }
      AncestorsSpared(st, rank, op, f.stream, Some(f.at + 1));
    }
  }

  /** Neither appends to, purges nor deletes `stream` itself. */
  predicate Elsewhere(op: Op, stream: string) {
    op.Fork? || op.stream != stream
  }

  lemma {:induction false} CutAll(events: seq<Event>)
    ensures Cut(events, 0, None) == events
  {
    if events != [] {
      CutAll(events[..|events| - 1]);
    }
  }

  predicate Removes(op: Op, stream: string) {
    (op.Purge? || op.Delete?) && op.stream == stream
  }

  /** Along the chain, the next stream down from any stream that is deleted, or that `op` purges or deletes, is live and
      stays live. */
  predicate Safe(st: Store, rank: map<string, nat>, op: Op, stream: string)
    requires Ranked(st, rank) && stream in st
    decreases RankOf(rank, stream)
  {
    st[stream].fork.Some? ==>
      assert RankedAt(st, rank, stream);
      var p := st[stream].fork.value.stream;
      && (st[p].deleted || Removes(op, p) ==> !st[stream].deleted && !(op.Delete? && op.stream == stream))
      && Safe(st, rank, op, p)
  }

  lemma {:induction false} SafeMeans(st: Store, rank: map<string, nat>, op: Op, stream: string)
    requires WellFormed(st, rank) && Allowed(st, op) && stream in st && Safe(st, rank, op, stream)
    ensures Protected(st, rank, stream)
    ensures op.Purge? ==> LiveBelow(st, rank, stream, op.stream)
    decreases RankOf(rank, stream)
  {
    if st[stream].fork.Some? {
      assert RankedAt(st, rank, stream);
      SafeMeans(st, rank, op, st[stream].fork.value.stream);
    }
  }

  lemma {:induction false} SafeProtects(st: Store, rank: map<string, nat>, op: Op, stream: string)
    requires WellFormed(st, rank) && Allowed(st, op) && stream in st && Safe(st, rank, op, stream)
    requires WellFormed(Apply(st, op), Reranked(st, rank, op))
    ensures Protected(Apply(st, op), Reranked(st, rank, op), stream)
    decreases RankOf(rank, stream)
  {
    if st[stream].fork.Some? {
      assert RankedAt(st, rank, stream);
      SafeProtects(st, rank, op, st[stream].fork.value.stream);
    }
  }

  /** Fork isolation: a live stream's resolved history is unchanged by appends, forks, purges and deletions anywhere
      else, ancestors included, provided that along its chain the next stream down from any purged or deleted one is
      live. */
  lemma Isolation(st: Store, rank: map<string, nat>, op: Op, stream: string)
    requires WellFormed(st, rank) && Allowed(st, op) && stream in st && !st[stream].deleted
    requires Elsewhere(op, stream) && Safe(st, rank, op, stream)
    ensures WellFormed(Apply(st, op), Reranked(st, rank, op))
    ensures Protected(Apply(st, op), Reranked(st, rank, op), stream)
    ensures History(Apply(st, op), Reranked(st, rank, op), stream) == History(st, rank, stream)
  {
    var st', rank' := Apply(st, op), Reranked(st, rank, op);
    ApplyWellFormed(st, rank, op);
    SafeMeans(st, rank, op, stream);
    SafeProtects(st, rank, op, stream);
    AncestorsSpared(st, rank, op, stream, None);
    RawHistorySame(st, st', rank, rank', stream, None);
    HistoryIsRaw(st, rank, stream, None);
    HistoryIsRaw(st', rank', stream, None);
    CutAll(History(st, rank, stream));
    CutAll(History(st', rank', stream));
    CutAll(RawHistory(st, rank, stream));
    CutAll(RawHistory(st', rank', stream));
  }

  /** A run of operations elsewhere, each safe for `stream`; `None` when one of them is not. */
  function RunElsewhere(
    st: Store, rank: map<string, nat>, stream: string, ops: seq<Op>): Option<(Store, map<string, nat>)> {
    if ops == [] then Some((st, rank))
    else
      var before := RunElsewhere(st, rank, stream, ops[..|ops| - 1]);
      var op := ops[|ops| - 1];
      if before.Some? && Ranked(before.value.0, before.value.1) && stream in before.value.0
         && Allowed(before.value.0, op) && Elsewhere(op, stream) && Safe(before.value.0, before.value.1, op, stream)
      then Some((Apply(before.value.0, op), Reranked(before.value.0, before.value.1, op))) else None
  }

  /** Isolation over whole runs: however long the other streams are written, forked, purged and deleted, the live
      stream's resolved history stays the one it started with. */
  lemma {:induction false} IsolatedThroughout(st: Store, rank: map<string, nat>, stream: string, ops: seq<Op>)
    requires WellFormed(st, rank) && stream in st && !st[stream].deleted && RunElsewhere(st, rank, stream, ops).Some?
    ensures var (st', rank') := RunElsewhere(st, rank, stream, ops).value;
            && WellFormed(st', rank') && stream in st' && !st'[stream].deleted
            && History(st', rank', stream) == History(st, rank, stream)
  {
    if ops != [] {
      IsolatedThroughout(st, rank, stream, ops[..|ops| - 1]);
      var (before, rank1) := RunElsewhere(st, rank, stream, ops[..|ops| - 1]).value;
      Isolation(before, rank1, ops[|ops| - 1], stream);
    }
  }

  // ---- a purge in several transactions ----

  function LivePins(st: Store, stream: string): set<nat>
    requires stream in st
  {
    set c | c in st[stream].pins && LivePin(st, c) :: st[stream].pins[c]
  }

  lemma AllowedAbovePins(st: Store, stream: string, doomed: set<nat>)
    requires stream in st
    ensures Allowed(st, Purge(stream, doomed)) <==> forall at, v :: at in LivePins(st, stream) && v in doomed ==> v > at
  {
    CeilingIsMax(st, stream);
    var ceiling := Ceiling(st, stream);
    if ceiling.Some? {
      assert ceiling.value in LivePins(st, stream);
      assert forall at :: at in LivePins(st, stream) ==> at <= ceiling.value;
    } else {
      assert LivePins(st, stream) == {};
    }
  }

  /** Deleting the rest of a purge's victims later stays within bounds, whatever else happens in between, except a fork
      of that very stream. */
  lemma RunningPurgeStaysAllowed(st: Store, op: Op, stream: string, doomed: set<nat>)
    requires Allowed(st, op) && Allowed(st, Purge(stream, doomed)) && StreamOk(st, stream)
    requires !(op.Fork? && op.parent == stream)
    ensures Allowed(Apply(st, op), Purge(stream, doomed))
  {
    AllowedAbovePins(st, stream, doomed);
    AllowedAbovePins(Apply(st, op), stream, doomed);
    PinsOnlyDie(st, op, stream);
  }

  /** Without a fork of the stream, no live pin comes up. */
  lemma PinsOnlyDie(st: Store, op: Op, stream: string)
    requires Feasible(st, op) && stream in st && StreamOk(st, stream) && !(op.Fork? && op.parent == stream)
    ensures stream in Apply(st, op) && LivePins(Apply(st, op), stream) <= LivePins(st, stream)
  {
    var st' := Apply(st, op);
    assert st'[stream].pins == st[stream].pins;
    forall c | c in st[stream].pins && LivePin(st', c) ensures LivePin(st, c) {
      assert c in st;
    }
  }

  /** The versions that survive, in order. */
  function Left(versions: seq<nat>, doomed: set<nat>): (r: seq<nat>)
    ensures forall v :: v in r <==> v in versions && v !in doomed
    ensures Increasing(versions) ==> Increasing(r)
  {
    if versions == [] then []
    else
      var n := |versions| - 1;
      assert versions == versions[..n] + [versions[n]];
      var before := Left(versions[..n], doomed);
      assert forall i :: 0 <= i < |before| ==> before[i] in versions[..n];
      if versions[n] in doomed then before else before + [versions[n]]
  }
}
