/**
 What deletions and purges take from the histories of forks. Pins look only at direct children, so a stream further down
 the chain can lose events it reads.
 */
module ForkRemoval {
  import opened Prelude
  import opened NatOrder
  import opened ForkHistory
  import opened ForkIsolation

  // ---- one stream ----

  /** Some live child other than `gone` is pinned at or above `v`. */
  predicate PinnedWithout(st: Store, stream: string, gone: Option<string>, v: nat)
    requires stream in st
  {
    exists c :: c in st[stream].pins && Some(c) != gone && LivePin(st, c) && v <= st[stream].pins[c]
  }

  lemma CeilingPins(st: Store, stream: string, v: nat)
    requires stream in st
    ensures Ceiling(st, stream).Some? && v <= Ceiling(st, stream).value <==> PinnedWithout(st, stream, None, v)
  {
    CeilingIsMax(st, stream);
  }

  /** Purges and deletions: the operations that only take away. */
  predicate TakesAway(op: Op) { op.Purge? || op.Delete? }

  /** The operation takes version `v` of `stream` from its readers: a purge the doomed versions; a deletion what no
      other live child pins, in the deleted stream and in every deleted stream it was a child of. */
  predicate LostAt(st: Store, op: Op, stream: string, v: nat)
    requires stream in st && TakesAway(op)
  {
    match op
    case Purge(target, doomed) => stream == target && v in doomed
    case Delete(target) => (stream == target || st[stream].deleted) && !PinnedWithout(st, stream, Some(target), v)
  }

  lemma PinnedAfter(st: Store, op: Op, stream: string, v: nat)
    requires stream in st && Feasible(st, op) && TakesAway(op)
    ensures stream in Apply(st, op)
    ensures PinnedWithout(Apply(st, op), stream, None, v)
            <==> PinnedWithout(st, stream, if op.Delete? then Some(op.stream) else None, v)
  {
    var st', gone := Apply(st, op), if op.Delete? then Some(op.stream) else None;
    assert st'[stream].pins == st[stream].pins;
    forall c | c in st[stream].pins ensures LivePin(st', c) <==> Some(c) != gone && LivePin(st, c) {
    }
  }

  lemma VisiblePins(st: Store, stream: string, v: nat)
    requires stream in st && v in st[stream].records
    ensures Visible(st, stream, v) <==>
            Unhidden(st[stream], v) && (st[stream].deleted ==> PinnedWithout(st, stream, None, v))
  {
    CeilingPins(st, stream, v);
  }

  lemma VisibleAfterPurge(st: Store, op: Op, stream: string, v: nat)
    requires stream in st && v in st[stream].records && Feasible(st, op) && op.Purge?
    ensures var st' := Apply(st, op);
            && stream in st'
            && (v in st'[stream].records <==> !LostAt(st, op, stream, v))
            && (v in st'[stream].records ==> (Visible(st', stream, v) <==> Visible(st, stream, v)))
  {
    var st' := Apply(st, op);
    assert st'[stream].deleted == st[stream].deleted;
    VisiblePins(st, stream, v);
    PinnedAfter(st, op, stream, v);
    if v in st'[stream].records {
      VisiblePins(st', stream, v);
      assert Unhidden(st'[stream], v) <==> Unhidden(st[stream], v);
    }
  }

  lemma VisibleAfterDelete(st: Store, op: Op, stream: string, v: nat)
    requires stream in st && v in st[stream].records && Feasible(st, op) && op.Delete?
    ensures var st' := Apply(st, op);
            && stream in st' && v in st'[stream].records
            && (Visible(st', stream, v) <==> Visible(st, stream, v) && !LostAt(st, op, stream, v))
  {
    var st' := Apply(st, op);
    assert st'[stream].records == st[stream].records;
    assert st'[stream].deleted <==> stream == op.stream || st[stream].deleted;
    VisiblePins(st, stream, v);
    VisiblePins(st', stream, v);
    PinnedAfter(st, op, stream, v);
    assert Unhidden(st'[stream], v) <==> Unhidden(st[stream], v);
    assert PinnedWithout(st, stream, Some(op.stream), v) ==> PinnedWithout(st, stream, None, v);
  }

  /** What stays readable is what was readable and is not lost. */
  lemma VisibleAfter(st: Store, op: Op, stream: string, v: nat)
    requires stream in st && v in st[stream].records && Feasible(st, op) && TakesAway(op)
    ensures var st' := Apply(st, op);
            && stream in st'
            && (v in st'[stream].records && Visible(st', stream, v) <==>
                Visible(st, stream, v) && !LostAt(st, op, stream, v))
  {
    if op.Purge? {
      VisibleAfterPurge(st, op, stream, v);
    } else {
      VisibleAfterDelete(st, op, stream, v);
    }
  }

  /** The events of `versions` that stay. */
  function PickKept(st: Store, op: Op, stream: string, versions: seq<nat>, hi: Option<nat>): seq<Event>
    requires stream in st && TakesAway(op) && forall v :: v in versions ==> v in st[stream].records
  {
    if versions == [] then []
    else
      var v := versions[|versions| - 1];
      PickKept(st, op, stream, versions[..|versions| - 1], hi)
      + if InRange(v, 0, hi) && Visible(st, stream, v) && !LostAt(st, op, stream, v) then [st[stream].records[v]]
        else []
  }

  function Gone(st: Store, op: Op, stream: string): set<nat> {
    if op.Purge? && op.stream == stream then op.doomed else {}
  }

  lemma RecordsAfter(st: Store, op: Op, stream: string)
    requires stream in st && Feasible(st, op) && TakesAway(op)
    ensures stream in Apply(st, op) && Apply(st, op)[stream].records == st[stream].records - Gone(st, op, stream)
  {
    assert st[stream].records - {} == st[stream].records;
  }

  lemma PickSnoc(st: Store, stream: string, versions: seq<nat>, v: nat, hi: Option<nat>)
    requires stream in st && v in st[stream].records && forall w :: w in versions ==> w in st[stream].records
    ensures PickVisible(st, stream, versions + [v], 0, hi)
         == PickVisible(st, stream, versions, 0, hi) + if InRange(v, 0, hi) && Visible(st, stream, v)
           then [st[stream].records[v]] else []
  {
    assert (versions + [v])[..|versions|] == versions;
  }

  lemma {:induction false} PickAfter(st: Store, op: Op, stream: string, versions: seq<nat>, hi: Option<nat>)
    requires stream in st && Feasible(st, op) && TakesAway(op) && forall v :: v in versions ==> v in st[stream].records
    ensures stream in Apply(st, op)
    ensures forall v :: v in Left(versions, Gone(st, op, stream)) ==> v in Apply(st, op)[stream].records
    ensures PickVisible(Apply(st, op), stream, Left(versions, Gone(st, op, stream)), 0, hi)
            == PickKept(st, op, stream, versions, hi)
  {
    var st', gone := Apply(st, op), Gone(st, op, stream);
    RecordsAfter(st, op, stream);
    if versions != [] {
      var n := |versions| - 1;
      var v := versions[n];
      assert v in versions;
      PickAfter(st, op, stream, versions[..n], hi);
      VisibleAfter(st, op, stream, v);
      if v !in gone {
        PickSnoc(st', stream, Left(versions[..n], gone), v, hi);
      }
    }
  }

  lemma ReadAfter(st: Store, op: Op, stream: string, hi: Option<nat>)
    requires stream in st && Feasible(st, op) && TakesAway(op)
    ensures ReadEvents(Apply(st, op), stream, 0, hi) == PickKept(st, op, stream, Ascending(st[stream].records.Keys), hi)
  {
    var versions, gone := Ascending(st[stream].records.Keys), Gone(st, op, stream);
    RecordsAfter(st, op, stream);
    PickAfter(st, op, stream, versions, hi);
    AscendingIncreases(st[stream].records.Keys);
    AscendingIs(Apply(st, op)[stream].records.Keys, Left(versions, gone));
  }

  /** Some version readable below the bound is lost. */
  predicate OwnLoses(st: Store, op: Op, stream: string, hi: Option<nat>)
    requires stream in st && TakesAway(op)
  {
    exists v :: v in st[stream].records && InRange(v, 0, hi) && Visible(st, stream, v) && LostAt(st, op, stream, v)
  }

  lemma {:induction false} PickShrinks(st: Store, op: Op, stream: string, versions: seq<nat>, hi: Option<nat>)
    requires stream in st && TakesAway(op) && forall v :: v in versions ==> v in st[stream].records
    ensures var kept, all := PickKept(st, op, stream, versions, hi), PickVisible(st, stream, versions, 0, hi);
            && |kept| <= |all|
            && (kept == all || |kept| < |all|)
            && (kept == all <==> forall v :: v in versions && InRange(v, 0, hi) && Visible(st, stream, v) ==>
                !LostAt(st, op, stream, v))
  {
    if versions != [] {
      var n := |versions| - 1;
      var v := versions[n];
      assert v in versions;
      PickShrinks(st, op, stream, versions[..n], hi);
      assert versions == versions[..n] + [v];
      var e := st[stream].records[v];
      var seen := InRange(v, 0, hi) && Visible(st, stream, v);
      JoinShrinks(PickVisible(st, stream, versions[..n], 0, hi), PickKept(st, op, stream, versions[..n], hi),
                  if seen then [e] else [], if seen && !LostAt(st, op, stream, v) then [e] else []);
    }
  }

  /** Shorter exactly when something is lost, and otherwise the same. */
  predicate Shrinks(before: seq<Event>, after: seq<Event>, lost: bool) {
    (after == before || |after| < |before|) && (after == before <==> !lost)
  }

  lemma JoinShrinks(a: seq<Event>, a': seq<Event>, b: seq<Event>, b': seq<Event>)
    requires (a' == a || |a'| < |a|) && (b' == b || |b'| < |b|)
    ensures a' + b' == a + b || |a' + b'| < |a + b|
    ensures a' + b' == a + b <==> a' == a && b' == b
  {
    if a' != a || b' != b {
      assert |a' + b'| < |a + b|;
    }
  }

  lemma OwnShrinks(st: Store, op: Op, stream: string, hi: Option<nat>)
    requires stream in st && Feasible(st, op) && TakesAway(op)
    ensures OwnShrunk(st, Apply(st, op), op, stream, hi)
  {
    ReadAfter(st, op, stream, hi);
    PickShrinks(st, op, stream, Ascending(st[stream].records.Keys), hi);
  }

  // ---- the chain ----

  /** Somewhere along the chain, something the stream at its end reads is lost. Each stream contributes what lies at or
      below every fork point between it and the end of the chain. */
  predicate ChainLoses(st: Store, rank: map<string, nat>, op: Op, stream: string, hi: Option<nat>)
    requires Ranked(st, rank) && stream in st && TakesAway(op)
    decreases RankOf(rank, stream)
  {
    || OwnLoses(st, op, stream, hi)
    || (st[stream].fork.Some? &&
        (assert RankedAt(st, rank, stream);
         ChainLoses(st, rank, op, st[stream].fork.value.stream, Some(MinHi(hi, st[stream].fork.value.at + 1)))))
  }

  lemma LabelledWhenWellFormed(st: Store, rank: map<string, nat>)
    requires WellFormed(st, rank)
    ensures Labelled(st)
  {
    forall s, v | s in st && v in st[s].records ensures st[s].records[v].version == v {
      assert StreamOk(st, s);
    }
  }

  lemma RootCut(st: Store, rank: map<string, nat>, stream: string, hi: Option<nat>)
    requires Ranked(st, rank) && Labelled(st) && stream in st && st[stream].fork.None?
    ensures Cut(History(st, rank, stream), 0, hi) == ReadEvents(st, stream, 0, hi)
  {
    ReadIsCut(st, stream, 0, hi);
  }

  /** What a removal makes of a history below any bound. */
  ghost predicate Shrunk(st: Store, st': Store, rank: map<string, nat>, op: Op, stream: string, hi: Option<nat>)
    requires Ranked(st, rank) && Ranked(st', rank) && stream in st && stream in st' && TakesAway(op)
  {
    Shrinks(Cut(History(st, rank, stream), 0, hi), Cut(History(st', rank, stream), 0, hi),
            ChainLoses(st, rank, op, stream, hi))
  }

  /** What a removal makes of the events a stream contributes itself. */
  ghost predicate OwnShrunk(st: Store, st': Store, op: Op, stream: string, hi: Option<nat>)
    requires stream in st && TakesAway(op)
  {
    Shrinks(ReadEvents(st, stream, 0, hi), ReadEvents(st', stream, 0, hi), OwnLoses(st, op, stream, hi))
  }

  lemma ShrunkRoot(st: Store, st': Store, rank: map<string, nat>, op: Op, stream: string, hi: Option<nat>)
    requires Ranked(st, rank) && Ranked(st', rank) && Labelled(st) && Labelled(st') && TakesAway(op)
    requires stream in st && stream in st' && st[stream].fork.None? && st'[stream].fork.None?
    requires OwnShrunk(st, st', op, stream, hi)
    ensures Shrunk(st, st', rank, op, stream, hi)
  {
    RootCut(st, rank, stream, hi);
    RootCut(st', rank, stream, hi);
  }

  lemma ChainLosesStep(st: Store, rank: map<string, nat>, op: Op, stream: string, hi: Option<nat>, f: ForkRef)
    requires Ranked(st, rank) && stream in st && TakesAway(op) && st[stream].fork == Some(f)
             && RankedAt(st, rank, stream)
    ensures ChainLoses(st, rank, op, stream, hi)
            <==> OwnLoses(st, op, stream, hi) || ChainLoses(st, rank, op, f.stream, Some(MinHi(hi, f.at + 1)))
  {
  }

  lemma ShrunkStep(st: Store, st': Store, rank: map<string, nat>, op: Op, stream: string, hi: Option<nat>, f: ForkRef)
    requires Ranked(st, rank) && Ranked(st', rank) && Labelled(st) && Labelled(st') && TakesAway(op)
    requires stream in st && stream in st' && st[stream].fork == Some(f) && st'[stream].fork == Some(f)
    requires RankedAt(st, rank, stream) && RankedAt(st', rank, stream)
    requires OwnShrunk(st, st', op, stream, hi) && Shrunk(st, st', rank, op, f.stream, Some(MinHi(hi, f.at + 1)))
    ensures Shrunk(st, st', rank, op, stream, hi)
  {
    var all, a, b := CutParts(st, rank, stream, hi, f);
    var all', a', b' := CutParts(st', rank, stream, hi, f);
    ChainLosesStep(st, rank, op, stream, hi, f);
    ShrunkJoin(all, all', a, a', b, b', ChainLoses(st, rank, op, f.stream, Some(MinHi(hi, f.at + 1))),
               OwnLoses(st, op, stream, hi), ChainLoses(st, rank, op, stream, hi));
  }

  lemma CutParts(st: Store, rank: map<string, nat>, stream: string, hi: Option<nat>, f: ForkRef)
    returns (all: seq<Event>, a: seq<Event>, b: seq<Event>)
    requires Ranked(st, rank) && Labelled(st) && stream in st && st[stream].fork == Some(f)
             && RankedAt(st, rank, stream)
    ensures all == Cut(History(st, rank, stream), 0, hi)
    ensures a == Cut(History(st, rank, f.stream), 0, Some(MinHi(hi, f.at + 1)))
    ensures b == ReadEvents(st, stream, 0, hi)
    ensures all == a + b
  {
    CutHistoryStep(st, rank, stream, 0, hi);
    all := Cut(History(st, rank, stream), 0, hi);
    a := Cut(History(st, rank, f.stream), 0, Some(MinHi(hi, f.at + 1)));
    b := ReadEvents(st, stream, 0, hi);
  }

  /** The arithmetic of one step: a shrunk inherited part and a shrunk own part. */
  lemma ShrunkJoin(all: seq<Event>, all': seq<Event>, a: seq<Event>, a': seq<Event>, b: seq<Event>, b': seq<Event>,
                   above: bool, own: bool, lost: bool)
    requires Shrinks(a, a', above) && Shrinks(b, b', own) && (lost <==> own || above)
    requires all == a + b && all' == a' + b'
    ensures Shrinks(all, all', lost)
  {
    JoinShrinks(a, a', b, b');
  }

  lemma {:induction false} ChainShrinks(st: Store, rank: map<string, nat>, op: Op, stream: string, hi: Option<nat>)
    requires Feasible(st, op) && TakesAway(op) && stream in st
    requires Ranked(st, rank) && Labelled(st) && Ranked(Apply(st, op), rank) && Labelled(Apply(st, op))
    ensures stream in Apply(st, op) && Shrunk(st, Apply(st, op), rank, op, stream, hi)
    decreases RankOf(rank, stream)
  {
    var st' := Apply(st, op);
    assert st'[stream].fork == st[stream].fork;
    OwnShrinks(st, op, stream, hi);
    if st[stream].fork.None? {
      ShrunkRoot(st, st', rank, op, stream, hi);
    } else {
      assert RankedAt(st, rank, stream) && RankedAt(st', rank, stream);
      var f := st[stream].fork.value;
      ChainShrinks(st, rank, op, f.stream, Some(MinHi(hi, f.at + 1)));
      ShrunkStep(st, st', rank, op, stream, hi, f);
    }
  }

  /** Removals and forks, exactly: for any purge or deletion anywhere and a chain of any length, live or not, the
      history of the stream at its end is unchanged if and only if nothing that the chain reads is lost. */
  lemma RemovalUnnoticedIff(st: Store, rank: map<string, nat>, op: Op, stream: string)
    requires WellFormed(st, rank) && Feasible(st, op) && TakesAway(op) && stream in st
    ensures WellFormed(Apply(st, op), rank) && stream in Apply(st, op)
    ensures History(Apply(st, op), rank, stream) == History(st, rank, stream) <==>
            !ChainLoses(st, rank, op, stream, None)
  {
    ApplyWellFormed(st, rank, op);
    LabelledWhenWellFormed(st, rank);
    LabelledWhenWellFormed(Apply(st, op), rank);
    ChainShrinks(st, rank, op, stream, None);
    CutAll(History(st, rank, stream));
    CutAll(History(Apply(st, op), rank, stream));
  }

  // ---- a fork created while a purge is under way ----

  /** A stream loses nothing to the purge of a younger one. */
  lemma {:induction false} OlderUnharmed(st: Store, rank: map<string, nat>, op: Op, stream: string, hi: Option<nat>)
    requires Ranked(st, rank) && stream in st && op.Purge? && RankOf(rank, stream) < RankOf(rank, op.stream)
    ensures !ChainLoses(st, rank, op, stream, hi)
    decreases RankOf(rank, stream)
  {
    if st[stream].fork.Some? {
      assert RankedAt(st, rank, stream);
      var f := st[stream].fork.value;
      OlderUnharmed(st, rank, op, f.stream, Some(MinHi(hi, f.at + 1)));
      ChainLosesStep(st, rank, op, stream, hi, f);
    }
  }

  /** Some doomed version holds an event that readers of the stream up to `at` see. */
  predicate TakesBelow(s: Stream, doomed: set<nat>, at: nat) {
    exists v :: v in doomed && v in s.records && v <= at && Unhidden(s, v)
  }

  /** A purge takes from the purged stream itself exactly what it dooms, even from a deleted stream below a live pin. */
  lemma PurgeOwnLosesIff(st: Store, stream: string, doomed: set<nat>, child: string, at: nat)
    requires stream in st && child in st[stream].pins && LivePin(st, child) && st[stream].pins[child] == at
    ensures OwnLoses(st, Purge(stream, doomed), stream, Some(at + 1)) <==> TakesBelow(st[stream], doomed, at)
  {
    var op := Purge(stream, doomed);
    forall v | v in st[stream].records && v <= at ensures Visible(st, stream, v) <==> Unhidden(st[stream], v) {
      VisiblePins(st, stream, v);
    }
    if v :| v in doomed && v in st[stream].records && v <= at && Unhidden(st[stream], v) {
      assert InRange(v, 0, Some(at + 1)) && Visible(st, stream, v) && LostAt(st, op, stream, v);
    }
  }

  lemma PurgeChainLosesIff(st: Store, rank: map<string, nat>, stream: string, doomed: set<nat>, child: string, at: nat)
    requires Ranked(st, rank) && stream in st && child in st[stream].pins && LivePin(st, child)
             && st[stream].pins[child] == at
    ensures ChainLoses(st, rank, Purge(stream, doomed), stream, Some(at + 1)) <==> TakesBelow(st[stream], doomed, at)
  {
    var op := Purge(stream, doomed);
    PurgeOwnLosesIff(st, stream, doomed, child, at);
    if st[stream].fork.Some? {
      assert RankedAt(st, rank, stream);
      var f := st[stream].fork.value;
      OlderUnharmed(st, rank, op, f.stream, Some(MinHi(Some(at + 1), f.at + 1)));
      ChainLosesStep(st, rank, op, stream, Some(at + 1), f);
    }
  }

  /** A purge that read its pins before the fork and goes on behind it leaves the new child its history if and only if
      none of the versions it still deletes holds an event that is readable at or below the fork point. */
  lemma ForkUnderPurgeIff(st: Store, rank: map<string, nat>, stream: string, at: nat, child: string, doomed: set<nat>)
    requires WellFormed(st, rank) && Feasible(st, Fork(stream, at, child))
    ensures var fork, purge := Fork(stream, at, child), Purge(stream, doomed);
            var forked, rank' := Apply(st, fork), Reranked(st, rank, fork);
            && WellFormed(forked, rank') && child in forked && !forked[child].deleted && Feasible(forked, purge)
            && WellFormed(Apply(forked, purge), rank') && child in Apply(forked, purge)
            && (History(Apply(forked, purge), rank', child) == History(forked, rank', child)
                <==> !TakesBelow(st[stream], doomed, at))
  {
    var fork, purge := Fork(stream, at, child), Purge(stream, doomed);
    var forked, rank' := Apply(st, fork), Reranked(st, rank, fork);
    ApplyWellFormed(st, rank, fork);
    RemovalUnnoticedIff(forked, rank', purge, child);
    PurgeChainLosesIff(forked, rank', stream, doomed, child, at);
    assert RankedAt(forked, rank', child);
    ChainLosesStep(forked, rank', purge, child, None, ForkRef(stream, at));
    assert TakesBelow(forked[stream], doomed, at) <==> TakesBelow(st[stream], doomed, at);
  }

  // ---- the shortest runs in which it shows ----

  /** A stream with one event, its fork, the fork's fork, and the middle one deleted. */
  function Orphaning(e: Event): seq<Op> {
    [Append("a", [e])] + [Fork("a", 0, "b")] + [Fork("b", 0, "c")] + [Delete("b")]
  }

  function OrphanStore(e: Event): Store {
    map["a" := Stream(0, None, map[0 := e], 0, false, [], map["b" := 0]),
        "b" := Stream(0, Some(ForkRef("a", 0)), map[], 0, true, [], map["c" := 0]),
        "c" := Stream(0, Some(ForkRef("b", 0)), map[], 0, false, [], map[])]
  }

  lemma RunSnoc(ops: seq<Op>, op: Op, st: Store, rank: map<string, nat>)
    requires Run(ops) == Some((st, rank)) && Ranked(st, rank) && Allowed(st, op)
    ensures Run(ops + [op]) == Some((Apply(st, op), Reranked(st, rank, op)))
  {
    assert (ops + [op])[..|ops|] == ops;
  }

  function FirstStore(e: Event): Store {
    map["a" := Stream(0, None, map[0 := e], 0, false, [], map[])]
  }

  function ForkedStore(e: Event): Store {
    map["a" := Stream(0, None, map[0 := e], 0, false, [], map["b" := 0]),
        "b" := Stream(0, Some(ForkRef("a", 0)), map[], 0, false, [], map[])]
  }

  lemma FirstRuns(e: Event) returns (rank: map<string, nat>)
    requires e.version == 0
    ensures Run([Append("a", [e])]) == Some((FirstStore(e), rank)) && WellFormed(FirstStore(e), rank)
  {
    var st0: Store, rank0: map<string, nat> := map[], map[];
    RunSnoc([], Append("a", [e]), st0, rank0);
    assert [] + [Append("a", [e])] == [Append("a", [e])];
    assert RecordsOf([e], 0) == map[0 := e];
    assert Apply(st0, Append("a", [e])) == FirstStore(e) by {
      var none: map<nat, Event> := map[];
      assert none + map[0 := e] == map[0 := e];
    }
    rank := Reranked(st0, rank0, Append("a", [e]));
    RunWellFormed([Append("a", [e])]);
  }

  lemma ForkedRuns(e: Event) returns (rank: map<string, nat>)
    requires e.version == 0
    ensures Run([Append("a", [e])] + [Fork("a", 0, "b")]) == Some((ForkedStore(e), rank))
            && WellFormed(ForkedStore(e), rank)
  {
    var rank1 := FirstRuns(e);
    RunSnoc([Append("a", [e])], Fork("a", 0, "b"), FirstStore(e), rank1);
    assert Apply(FirstStore(e), Fork("a", 0, "b")) == ForkedStore(e);
    rank := Reranked(FirstStore(e), rank1, Fork("a", 0, "b"));
    RunWellFormed([Append("a", [e])] + [Fork("a", 0, "b")]);
  }

  lemma OrphaningRuns(e: Event)
    requires e.version == 0
    ensures Run(Orphaning(e)).Some? && Run(Orphaning(e)).value.0 == OrphanStore(e)
  {
    var rank2 := ForkedRuns(e);
    RunSnoc([Append("a", [e])] + [Fork("a", 0, "b")], Fork("b", 0, "c"), ForkedStore(e), rank2);
    var st3 := OrphanStore(e)["b" := OrphanStore(e)["b"].(deleted := false)];
    assert Apply(ForkedStore(e), Fork("b", 0, "c")) == st3;
    var rank3 := Reranked(ForkedStore(e), rank2, Fork("b", 0, "c"));
    RunWellFormed([Append("a", [e])] + [Fork("a", 0, "b")] + [Fork("b", 0, "c")]);
    RunSnoc([Append("a", [e])] + [Fork("a", 0, "b")] + [Fork("b", 0, "c")], Delete("b"), st3, rank3);
    assert Apply(st3, Delete("b")) == OrphanStore(e);
  }

  /** A purge of the only event may begin, a fork at that event comes in between, and when the purge goes on the new
      stream loses the event it was forked at. */
  lemma ForkLosesInRun(e: Event)
    requires e.version == 0
    ensures var purge := Purge("a", {0});
            && Run([Append("a", [e])]).Some? && Allowed(Run([Append("a", [e])]).value.0, purge)
            && Run([Append("a", [e])] + [Fork("a", 0, "b")]).Some?
            && var (st, rank) := Run([Append("a", [e])] + [Fork("a", 0, "b")]).value;
            && WellFormed(st, rank) && Feasible(st, purge) && "b" in st && !st["b"].deleted
            && WellFormed(Apply(st, purge), rank) && "b" in Apply(st, purge)
            && |History(Apply(st, purge), rank, "b")| < |History(st, rank, "b")|
  {
    var rank1 := FirstRuns(e);
    CeilingIsMax(FirstStore(e), "a");
    var rank := ForkedRuns(e);
    var v: nat := 0;
    assert v in {0} && v in FirstStore(e)["a"].records && v <= 0 && Unhidden(FirstStore(e)["a"], v);
    ForkUnderPurgeIff(FirstStore(e), rank1, "a", 0, "b", {0});
  }

  lemma OrphanLoses(e: Event, rank: map<string, nat>, op: Op)
    requires Ranked(OrphanStore(e), rank) && (op == Delete("a") || op == Purge("a", {0}))
    ensures ChainLoses(OrphanStore(e), rank, op, "c", None)
  {
    var st := OrphanStore(e);
    assert RankedAt(st, rank, "c") && RankedAt(st, rank, "b");
    var v: nat := 0;
    assert v in st["a"].records && InRange(v, 0, Some(1)) && Visible(st, "a", v);
    assert LostAt(st, op, "a", v);
    assert OwnLoses(st, op, "a", Some(1));
    assert ChainLoses(st, rank, op, "a", Some(1));
    assert MinHi(Some(1), 1) == 1;
    ChainLosesStep(st, rank, op, "b", Some(1), ForkRef("a", 0));
    ChainLosesStep(st, rank, op, "c", None, ForkRef("b", 0));
  }

  /** With the middle stream deleted, deleting the first one, or purging its event, takes that event from the live
      grandchild. */
  lemma GrandchildLosesInRun(e: Event, op: Op)
    requires e.version == 0 && (op == Delete("a") || op == Purge("a", {0}))
    ensures Run(Orphaning(e)).Some?
    ensures var (st, rank) := Run(Orphaning(e)).value;
            && WellFormed(st, rank) && Allowed(st, op) && "c" in st && !st["c"].deleted
            && WellFormed(Apply(st, op), rank) && "c" in Apply(st, op)
            && History(Apply(st, op), rank, "c") != History(st, rank, "c")
  {
    OrphaningRuns(e);
    RunWellFormed(Orphaning(e));
    var (st, rank) := Run(Orphaning(e)).value;
    OrphanLoses(e, rank, op);
    NoLivePin(e);
    RemovalUnnoticedIff(st, rank, op, "c");
  }

  lemma NoLivePin(e: Event)
    ensures Ceiling(OrphanStore(e), "a").None?
  {
    CeilingIsMax(OrphanStore(e), "a");
  }
}
