/**
 Metadata-only forks: a child shares its parent's history through the fork point. Reading a range pushes it down the
 chain of forks, intersected with what each stream contributes.
 */
module ForkHistory {
  import opened Prelude
  import opened NatOrder
  import KeyOrder

  datatype Event = Event(version: nat, seqNo: nat, data: Bytes)

  datatype ForkRef = ForkRef(stream: string, at: nat)

  /** Hides versions from `from` on with a sequence number above `seqNo`. */
  datatype Rollback = Rollback(from: nat, seqNo: nat)

  datatype Stream = Stream(
    tail: nat, fork: Option<ForkRef>, records: map<nat, Event>,
    trim: nat, deleted: bool, rollbacks: seq<Rollback>, pins: map<string, nat>)

  type Store = map<string, Stream>

  datatype Error = ForkCycle(stream: string)

  // ---- the highest live pin ----

  predicate LivePin(st: Store, child: string) {
    child !in st || !st[child].deleted
  }

  function CeilingOver(st: Store, pins: map<string, nat>, children: seq<string>): Option<nat>
    requires forall c :: c in children ==> c in pins
  {
    if children == [] then None
    else
      var c := children[|children| - 1];
      var before := CeilingOver(st, pins, children[..|children| - 1]);
      if !LivePin(st, c) then before
      else Some(if before.Some? then Max(before.value, pins[c]) else pins[c])
  }

  /** The highest pin held by a child that is not deleted. */
  function Ceiling(st: Store, stream: string): Option<nat>
    requires stream in st
  {
    CeilingOver(st, st[stream].pins, KeyOrder.SortedKeys(st[stream].pins.Keys))
  }

  lemma {:induction false} CeilingOverBounds(st: Store, pins: map<string, nat>, children: seq<string>, c: string)
    requires forall c :: c in children ==> c in pins
    requires c in children && LivePin(st, c)
    ensures CeilingOver(st, pins, children).Some? && pins[c] <= CeilingOver(st, pins, children).value
  {
    var n := |children| - 1;
    assert children == children[..n] + [children[n]];
    if c in children[..n] {
      CeilingOverBounds(st, pins, children[..n], c);
    }
  }

  lemma {:induction false} CeilingOverIsPin(
    st: Store, pins: map<string, nat>, children: seq<string>) returns (c: string)
    requires forall c :: c in children ==> c in pins
    requires CeilingOver(st, pins, children).Some?
    ensures c in children && LivePin(st, c) && pins[c] == CeilingOver(st, pins, children).value
  {
    var n := |children| - 1;
    var before := CeilingOver(st, pins, children[..n]);
    if before.Some? && (!LivePin(st, children[n]) || before.value >= pins[children[n]]) {
      c := CeilingOverIsPin(st, pins, children[..n]);
    } else {
      c := children[n];
    }
  }

  lemma CeilingIsMax(st: Store, stream: string)
    requires stream in st
    ensures var r := Ceiling(st, stream);
            && (forall c :: c in st[stream].pins && LivePin(st, c) ==> r.Some? && st[stream].pins[c] <= r.value)
            && (r.Some? ==> exists c :: c in st[stream].pins && LivePin(st, c) && st[stream].pins[c] == r.value)
  {
    var pins, children := st[stream].pins, KeyOrder.SortedKeys(st[stream].pins.Keys);
    forall c | c in pins && LivePin(st, c) ensures Ceiling(st, stream).Some? && pins[c] <= Ceiling(st, stream).value {
      CeilingOverBounds(st, pins, children, c);
    }
    if Ceiling(st, stream).Some? {
      var c := CeilingOverIsPin(st, pins, children);
      assert c in pins;
    }
  }

  method HighestPin(st: Store, stream: string) returns (r: Option<nat>)
    requires stream in st
    ensures r == Ceiling(st, stream)
  {
    var pins := st[stream].pins;
    var children := KeyOrder.SortedKeys(pins.Keys);
    r := None;
    for i := 0 to |children|
      invariant r == CeilingOver(st, pins, children[..i])
    {
      assert children[..i + 1][..i] == children[..i];
      var child := children[i];
      if child !in st || !st[child].deleted {
        r := Some(if r.Some? then Max(r.value, pins[child]) else pins[child]);
      }
    }
    assert children[..|children|] == children;
  }

  // ---- one stream's own records ----

  /** Neither trimmed nor rolled back. */
  predicate Unhidden(s: Stream, v: nat)
    requires v in s.records
  {
    v >= s.trim && forall i :: 0 <= i < |s.rollbacks| ==>
      !(v >= s.rollbacks[i].from && s.records[v].seqNo > s.rollbacks[i].seqNo)
  }

  /** Readable: not hidden and, once the stream is deleted, still pinned by a live fork. */
  predicate Visible(st: Store, stream: string, v: nat)
    requires stream in st && v in st[stream].records
  {
    && Unhidden(st[stream], v)
    && (st[stream].deleted ==> Ceiling(st, stream).Some? && v <= Ceiling(st, stream).value)
  }

  predicate InRange(v: nat, lo: nat, hi: Option<nat>) {
    lo <= v && (hi.Some? ==> v < hi.value)
  }

  /** The readable events of `versions` within the range, in that order. */
  function PickVisible(st: Store, stream: string, versions: seq<nat>, lo: nat, hi: Option<nat>): seq<Event>
    requires stream in st && forall v :: v in versions ==> v in st[stream].records
  {
    if versions == [] then []
    else
      var v := versions[|versions| - 1];
      PickVisible(st, stream, versions[..|versions| - 1], lo, hi)
      + if InRange(v, lo, hi) && Visible(st, stream, v) then [st[stream].records[v]] else []
  }

  function ReadEvents(st: Store, stream: string, lo: nat, hi: Option<nat>): seq<Event> {
    if stream in st then PickVisible(st, stream, Ascending(st[stream].records.Keys), lo, hi) else []
  }

  /** The scan reads only the versions of the range: the floor and the bounds are pushed into it. */
  method ScanEvents(st: Store, stream: string, lo: nat, hi: Option<nat>) returns (out: seq<Event>)
    requires stream in st
    ensures out == ReadEvents(st, stream, lo, hi)
  {
    var s := st[stream];
    var ceiling: Option<nat> := None;
    if s.deleted {
      ceiling := HighestPin(st, stream);
    }
    var from := Max(lo, s.trim);
    if hi.Some? && from >= hi.value {
      PickNone(st, stream, Ascending(s.records.Keys), lo, hi);
      return [];
    }
    out := KeepReadable(st, stream, Ascending(set v | v in s.records && InRange(v, from, hi)), ceiling, lo, hi);
    ScanIsPick(st, stream, lo, hi);
  }

  method KeepReadable(st: Store, stream: string, versions: seq<nat>, ceiling: Option<nat>, lo: nat, hi: Option<nat>)
    returns (out: seq<Event>)
    requires stream in st && forall v :: v in versions ==>
               v in st[stream].records && v >= st[stream].trim && InRange(v, lo, hi)
    requires st[stream].deleted ==> ceiling == Ceiling(st, stream)
    ensures out == PickVisible(st, stream, versions, lo, hi)
  {
    var s := st[stream];
    out := [];
    for i := 0 to |versions|
      invariant out == PickVisible(st, stream, versions[..i], lo, hi)
    {
      assert versions[..i + 1][..i] == versions[..i];
      var v := versions[i];
      assert v in versions;
      if s.deleted && !(ceiling.Some? && v <= ceiling.value) {
        continue;
      }
      var rolledBack := exists j ::
        0 <= j < |s.rollbacks| && v >= s.rollbacks[j].from && s.records[v].seqNo > s.rollbacks[j].seqNo;
      if rolledBack {
        continue;
      }
      out := out + [s.records[v]];
    }
    assert versions[..|versions|] == versions;
  }

  lemma {:induction false} PickNone(st: Store, stream: string, versions: seq<nat>, lo: nat, hi: Option<nat>)
    requires stream in st && forall v :: v in versions ==> v in st[stream].records
    requires forall v :: v in versions && InRange(v, lo, hi) ==> !Visible(st, stream, v)
    ensures PickVisible(st, stream, versions, lo, hi) == []
  {
    if versions != [] {
      assert versions[|versions| - 1] in versions;
      PickNone(st, stream, versions[..|versions| - 1], lo, hi);
    }
  }

  /** Versions that cannot be picked may be left out of the list. */
  lemma {:induction false} PickSkips(st: Store, stream: string, all: seq<nat>, some: seq<nat>, lo: nat, hi: Option<nat>)
    requires stream in st && Increasing(all) && Increasing(some)
    requires forall v :: v in all ==> v in st[stream].records
    requires forall v :: v in some ==> v in all
    requires forall v :: v in all && v !in some ==> !InRange(v, lo, hi) || !Visible(st, stream, v)
    ensures PickVisible(st, stream, all, lo, hi) == PickVisible(st, stream, some, lo, hi)
    decreases |all|
  {
    if all != [] {
      var n := |all| - 1;
      var last := all[n];
      assert last in all;
      if some != [] && some[|some| - 1] == last {
        var m := |some| - 1;
        forall v | v in some[..m] ensures v in all[..n] {
          assert v in some && v in all;
        }
        forall v | v in all[..n] && v !in some[..m] ensures !InRange(v, lo, hi) || !Visible(st, stream, v) {
          assert v in all && v != last;
          assert v !in some;
        }
        PickSkips(st, stream, all[..n], some[..m], lo, hi);
      } else {
        assert some != [] ==> some[|some| - 1] in some && some[|some| - 1] in all;
        assert last !in some;
        forall v | v in some ensures v in all[..n] {
          assert v in all && v != last;
        }
        forall v | v in all[..n] && v !in some ensures !InRange(v, lo, hi) || !Visible(st, stream, v) {
          assert v in all;
        }
        PickSkips(st, stream, all[..n], some, lo, hi);
      }
    }
  }

  lemma ScanIsPick(st: Store, stream: string, lo: nat, hi: Option<nat>)
    requires stream in st
    ensures var s := st[stream];
            PickVisible(st, stream, Ascending(set v | v in s.records && InRange(v, Max(lo, s.trim), hi)), lo, hi)
            == ReadEvents(st, stream, lo, hi)
  {
    var s := st[stream];
    var some := set v | v in s.records && InRange(v, Max(lo, s.trim), hi);
    AscendingIncreases(s.records.Keys);
    AscendingIncreases(some);
    PickSkips(st, stream, Ascending(s.records.Keys), Ascending(some), lo, hi);
  }

  // ---- histories ----

  function Cut(events: seq<Event>, lo: nat, hi: Option<nat>): seq<Event> {
    if events == [] then []
    else
      var e := events[|events| - 1];
      Cut(events[..|events| - 1], lo, hi) + if InRange(e.version, lo, hi) then [e] else []
  }

  lemma {:induction false} CutConcat(a: seq<Event>, b: seq<Event>, lo: nat, hi: Option<nat>)
    ensures Cut(a + b, lo, hi) == Cut(a, lo, hi) + Cut(b, lo, hi)
    decreases |b|
  {
    if b == [] {
      assert a + b == a;
    } else {
      assert (a + b)[..|a + b| - 1] == a + b[..|b| - 1];
      CutConcat(a, b[..|b| - 1], lo, hi);
    }
  }

  lemma CutOne(e: Event, lo: nat, hi: Option<nat>)
    ensures Cut([e], lo, hi) == if InRange(e.version, lo, hi) then [e] else []
  {
    assert [e][..0] == [];
  }

  function MinHi(hi: Option<nat>, bound: nat): nat {
    if hi.Some? then Min(hi.value, bound) else bound
  }

  lemma {:induction false} CutTwice(events: seq<Event>, bound: nat, lo: nat, hi: Option<nat>)
    ensures Cut(Cut(events, 0, Some(bound)), lo, hi) == Cut(events, lo, Some(MinHi(hi, bound)))
  {
    if events != [] {
      var n := |events| - 1;
      CutTwice(events[..n], bound, lo, hi);
      var kept := Cut(events[..n], 0, Some(bound));
      var one := if InRange(events[n].version, 0, Some(bound)) then [events[n]] else [];
      CutConcat(kept, one, lo, hi);
      CutOne(events[n], lo, hi);
    }
  }

  lemma {:induction false} CutNothing(events: seq<Event>, lo: nat, hi: Option<nat>)
    requires hi.Some? && lo >= hi.value
    ensures Cut(events, lo, hi) == []
  {
    if events != [] {
      CutNothing(events[..|events| - 1], lo, hi);
    }
  }

  /** Records say their own version. */
  predicate Labelled(st: Store) {
    forall s, v :: s in st && v in st[s].records ==> st[s].records[v].version == v
  }

  lemma {:induction false} PickIsCut(st: Store, stream: string, versions: seq<nat>, lo: nat, hi: Option<nat>)
    requires stream in st && Labelled(st) && forall v :: v in versions ==> v in st[stream].records
    ensures PickVisible(st, stream, versions, lo, hi) == Cut(PickVisible(st, stream, versions, 0, None), lo, hi)
  {
    if versions != [] {
      var n := |versions| - 1;
      var v := versions[n];
      assert v in versions;
      PickIsCut(st, stream, versions[..n], lo, hi);
      var before := PickVisible(st, stream, versions[..n], 0, None);
      var e := st[stream].records[v];
      var one := if Visible(st, stream, v) then [e] else [];
      CutConcat(before, one, lo, hi);
      CutOne(e, lo, hi);
    }
  }

  /** A pushed-down read is the full read, cut. */
  lemma ReadIsCut(st: Store, stream: string, lo: nat, hi: Option<nat>)
    requires Labelled(st)
    ensures ReadEvents(st, stream, lo, hi) == Cut(ReadEvents(st, stream, 0, None), lo, hi)
  {
    if stream in st {
      PickIsCut(st, stream, Ascending(st[stream].records.Keys), lo, hi);
    }
  }

  /** Range-resolved history. Even where hand-made fork metadata runs in a circle it ends: each call marks one more
      stream as visited. */
  function Resolve(st: Store, stream: string, visited: set<string>, lo: nat, hi: Option<nat>): Result<seq<Event>, Error>
    decreases |st.Keys - visited|
  {
    if hi.Some? && lo >= hi.value then Ok([])
    else if stream in visited then Err(ForkCycle(stream))
    else if stream !in st || st[stream].fork.None? then Ok(ReadEvents(st, stream, lo, hi))
    else
      var f := st[stream].fork.value;
      var parentHi := MinHi(hi, f.at + 1);
      VisitedGrows(st, stream, visited);
      var inherited := if lo < parentHi then Resolve(st, f.stream, visited + {stream}, lo, Some(parentHi)) else Ok([]);
      if inherited.Err? then inherited else Ok(inherited.value + ReadEvents(st, stream, lo, hi))
  }

  lemma VisitedGrows(st: Store, stream: string, visited: set<string>)
    requires stream in st && stream !in visited
    ensures |st.Keys - (visited + {stream})| < |st.Keys - visited|
  {
    assert st.Keys - visited == (st.Keys - (visited + {stream})) + {stream};
  }

  function RankOf(rank: map<string, nat>, s: string): nat {
    if s in rank then rank[s] else 0
  }

  predicate RankedAt(st: Store, rank: map<string, nat>, s: string)
    requires s in st
  {
    st[s].fork.Some? ==> st[s].fork.value.stream in st && RankOf(rank, st[s].fork.value.stream) < RankOf(rank, s)
  }

  /** Fork edges lead to streams of lower rank: the order of creation is such a ranking. */
  predicate Ranked(st: Store, rank: map<string, nat>) {
    forall s {:trigger RankedAt(st, rank, s)} :: s in st ==> RankedAt(st, rank, s)
  }

  /** The full history: the parent's, cut behind the fork point, then the stream's own events. */
  function History(st: Store, rank: map<string, nat>, stream: string): seq<Event>
    requires Ranked(st, rank) && stream in st
    decreases RankOf(rank, stream)
  {
    var own := ReadEvents(st, stream, 0, None);
    if st[stream].fork.None? then own
    else
      assert RankedAt(st, rank, stream);
      var f := st[stream].fork.value;
      Cut(History(st, rank, f.stream), 0, Some(f.at + 1)) + own
  }

  /** What the parent chain contributes to a read of `stream`. */
  function Inherited(
    st: Store, stream: string, visited: set<string>, lo: nat, hi: Option<nat>): Result<seq<Event>, Error>
    requires stream in st && stream !in visited
  {
    if st[stream].fork.None? then Ok([])
    else
      var f := st[stream].fork.value;
      var parentHi := MinHi(hi, f.at + 1);
      if lo < parentHi then Resolve(st, f.stream, visited + {stream}, lo, Some(parentHi)) else Ok([])
  }

  lemma ResolveStep(st: Store, stream: string, visited: set<string>, lo: nat, hi: Option<nat>, own: seq<Event>)
    requires stream in st && stream !in visited && !(hi.Some? && lo >= hi.value)
             && own == ReadEvents(st, stream, lo, hi)
    ensures var inherited := Inherited(st, stream, visited, lo, hi);
            Resolve(st, stream, visited, lo, hi) == if inherited.Err? then inherited else Ok(inherited.value + own)
  {
    assert [] + own == own;
  }

  lemma CutHistoryStep(st: Store, rank: map<string, nat>, stream: string, lo: nat, hi: Option<nat>)
    requires Ranked(st, rank) && Labelled(st) && stream in st && st[stream].fork.Some? && RankedAt(st, rank, stream)
    ensures var f := st[stream].fork.value;
            Cut(History(st, rank, stream), lo, hi)
            == Cut(History(st, rank, f.stream), lo, Some(MinHi(hi, f.at + 1))) + ReadEvents(st, stream, lo, hi)
  {
    var f := st[stream].fork.value;
    var own := ReadEvents(st, stream, 0, None);
    var inherited := History(st, rank, f.stream);
    ReadIsCut(st, stream, lo, hi);
    CutConcat(Cut(inherited, 0, Some(f.at + 1)), own, lo, hi);
    CutTwice(inherited, f.at + 1, lo, hi);
    assert History(st, rank, stream) == Cut(inherited, 0, Some(f.at + 1)) + own;
  }

  /** One step of the pushdown, given that the parent's part is right. */
  lemma ResolveIsCutStep(
    st: Store, rank: map<string, nat>, stream: string, visited: set<string>, lo: nat, hi: Option<nat>)
    requires Ranked(st, rank) && Labelled(st) && stream in st && stream !in visited && !(hi.Some? && lo >= hi.value)
    requires st[stream].fork.Some? ==>
               var f := st[stream].fork.value;
               RankedAt(st, rank, stream)
               && Inherited(st, stream, visited, lo, hi)
                  == Ok(Cut(History(st, rank, f.stream), lo, Some(MinHi(hi, f.at + 1))))
    ensures Resolve(st, stream, visited, lo, hi) == Ok(Cut(History(st, rank, stream), lo, hi))
  {
    ResolveStep(st, stream, visited, lo, hi, ReadEvents(st, stream, lo, hi));
    if st[stream].fork.Some? {
      CutHistoryStep(st, rank, stream, lo, hi);
    } else {
      ReadIsCut(st, stream, lo, hi);
    }
  }

  /** Range pushdown: resolving a range of a stream's history gives exactly the full history cut to that range, and the
      cycle error never fires. */
  lemma {:induction false} ResolveIsCutHistory(
    st: Store, rank: map<string, nat>, stream: string, visited: set<string>, lo: nat, hi: Option<nat>)
    requires Ranked(st, rank) && Labelled(st) && stream in st
    requires forall s :: s in visited ==> RankOf(rank, s) > RankOf(rank, stream)
    ensures Resolve(st, stream, visited, lo, hi) == Ok(Cut(History(st, rank, stream), lo, hi))
    decreases RankOf(rank, stream)
  {
    if hi.Some? && lo >= hi.value {
      CutNothing(History(st, rank, stream), lo, hi);
      return;
    }
    if st[stream].fork.Some? {
      assert RankedAt(st, rank, stream);
      var f := st[stream].fork.value;
      var parentHi := MinHi(hi, f.at + 1);
      if lo < parentHi {
        ResolveIsCutHistory(st, rank, f.stream, visited + {stream}, lo, Some(parentHi));
      } else {
        CutNothing(History(st, rank, f.stream), lo, Some(parentHi));
      }
    }
    ResolveIsCutStep(st, rank, stream, visited, lo, hi);
  }

  /** The recursive resolver with its shared set of visited streams. */
  method ResolveHistory(st: Store, stream: string, visited: set<string>, lo: nat, hi: Option<nat>)
    returns (r: Result<seq<Event>, Error>, visited': set<string>)
    ensures r == Resolve(st, stream, visited, lo, hi)
    ensures visited <= visited'
    decreases |st.Keys - visited|, 1
  {
    visited' := visited;
    if hi.Some? && lo >= hi.value {
      return Ok([]), visited';
    }
    if stream in visited {
      return Err(ForkCycle(stream)), visited';
    }
    if stream !in st {
      return Ok([]), visited + {stream};
    }
    var inherited, seen := ResolveParent(st, stream, visited, lo, hi);
    var own := ScanEvents(st, stream, lo, hi);
    ResolveStep(st, stream, visited, lo, hi, own);
    visited' := seen;
    r := if inherited.Err? then inherited else Ok(inherited.value + own);
  }

  method ResolveParent(st: Store, stream: string, visited: set<string>, lo: nat, hi: Option<nat>)
    returns (r: Result<seq<Event>, Error>, visited': set<string>)
    requires stream in st && stream !in visited
    ensures r == Inherited(st, stream, visited, lo, hi)
    ensures visited <= visited'
    decreases |st.Keys - visited|, 0
  {
    var seen := visited + {stream};
    if st[stream].fork.None? {
      return Ok([]), seen;
    }
    var f := st[stream].fork.value;
    var parentHi := MinHi(hi, f.at + 1);
    if lo >= parentHi {
      return Ok([]), seen;
    }
    VisitedGrows(st, stream, visited);
    r, visited' := ResolveHistory(st, f.stream, seen, lo, Some(parentHi));
  }
}
