/**
 The transactional store and the fork model are one: read as streams with their records, forks, pins and deletion
 marks, what every interleaving of transactions leaves is a state that the fork model reaches by the same appends,
 forks and deletions.
 */
module ForkRefinement {
  import opened Prelude
  import opened Transactions
  import opened Interleaving
  import Effects
  import ForkHistory
  import ForkIsolation

  // ---- a store read as streams ----

  predicate Exists(db: Db, stream: string) {
    TailKey(stream) in db && db[TailKey(stream)].TailV?
  }

  function Names(db: Db): (r: set<string>)
    ensures forall s :: s in r <==> Exists(db, s)
  {
    set k | k in db && k.TailKey? && db[k].TailV? :: k.stream
  }

  function Versions(db: Db, stream: string): (r: set<nat>)
    ensures forall v: nat :: v in r <==> RecordKey(stream, v) in db && db[RecordKey(stream, v)].RecordV?
  {
    set k | k in db && k.RecordKey? && k.stream == stream && db[k].RecordV? :: k.version
  }

  function Records(db: Db, stream: string): (r: map<nat, ForkHistory.Event>)
    ensures r.Keys == Versions(db, stream)
  {
    map v | v in Versions(db, stream) ::
      var r := db[RecordKey(stream, v)];
      ForkHistory.Event(r.version, r.seqNo, r.data)
  }

  function Children(db: Db, stream: string): (r: set<string>)
    ensures forall c :: c in r <==> PinKey(stream, c) in db && db[PinKey(stream, c)].PinV?
  {
    set k | k in db && k.PinKey? && k.stream == stream && db[k].PinV? :: k.child
  }

  function Pins(db: Db, stream: string): (r: map<string, nat>)
    ensures r.Keys == Children(db, stream)
  {
    map c | c in Children(db, stream) :: db[PinKey(stream, c)].at
  }

  function Edge(db: Db, stream: string): Option<ForkHistory.ForkRef> {
    if ForkKey(stream) in db && db[ForkKey(stream)].ForkV?
    then Some(ForkHistory.ForkRef(db[ForkKey(stream)].parent, db[ForkKey(stream)].at)) else None
  }

  function StreamOf(db: Db, stream: string): ForkHistory.Stream
    requires Exists(db, stream)
  {
    ForkHistory.Stream(db[TailKey(stream)].version, Edge(db, stream), Records(db, stream), 0, DeletedKey(stream) in db,
                       [],
                       Pins(db, stream))
  }

  /** The fork model's view of a store. */
  function View(db: Db): (st: ForkHistory.Store)
    ensures st.Keys == Names(db)
  {
    map s | s in Names(db) :: StreamOf(db, s)
  }

  /** Streams that do not exist have no fork, no pins and no deletion mark. */
  ghost predicate NoTraces(db: Db) {
    forall s :: !Exists(db, s) ==>
      ForkKey(s) !in db && DeletedKey(s) !in db && forall c :: PinKey(s, c) !in db
  }

  // ---- what leaves a stream alone ----

  /** Every key that the view of the stream is made of is the same in both. */
  ghost predicate SameKeys(a: Db, b: Db, s: string) {
    && Get(b, TailKey(s)) == Get(a, TailKey(s)) && Get(b, ForkKey(s)) == Get(a, ForkKey(s))
    && Get(b, DeletedKey(s)) == Get(a, DeletedKey(s))
    && (forall v: nat :: Get(b, RecordKey(s, v)) == Get(a, RecordKey(s, v)))
    && (forall c :: Get(b, PinKey(s, c)) == Get(a, PinKey(s, c)))
  }

  lemma SameRecords(a: Db, b: Db, s: string)
    requires forall v: nat :: Get(b, RecordKey(s, v)) == Get(a, RecordKey(s, v))
    ensures Records(b, s) == Records(a, s)
  {
    forall v: nat ensures v in Versions(b, s) <==> v in Versions(a, s) {
      assert Get(b, RecordKey(s, v)) == Get(a, RecordKey(s, v));
    }
    assert Versions(b, s) == Versions(a, s);
    forall v: nat | v in Versions(a, s) ensures b[RecordKey(s, v)] == a[RecordKey(s, v)] {
      assert Get(b, RecordKey(s, v)) == Get(a, RecordKey(s, v));
    }
  }

  lemma SamePins(a: Db, b: Db, s: string)
    requires forall c :: Get(b, PinKey(s, c)) == Get(a, PinKey(s, c))
    ensures Pins(b, s) == Pins(a, s)
  {
    forall c ensures c in Children(b, s) <==> c in Children(a, s) {
      assert Get(b, PinKey(s, c)) == Get(a, PinKey(s, c));
    }
    assert Children(b, s) == Children(a, s);
    forall c | c in Children(a, s) ensures b[PinKey(s, c)] == a[PinKey(s, c)] {
      assert Get(b, PinKey(s, c)) == Get(a, PinKey(s, c));
    }
  }

  lemma SameStream(a: Db, b: Db, s: string)
    requires SameKeys(a, b, s)
    ensures Exists(b, s) <==> Exists(a, s)
    ensures Exists(a, s) ==> StreamOf(b, s) == StreamOf(a, s)
  {
    SameRecords(a, b, s);
    SamePins(a, b, s);
  }

  lemma SameView(a: Db, b: Db)
    requires forall s :: SameKeys(a, b, s)
    ensures View(b) == View(a)
  {
    forall s ensures (s in View(b) <==> s in View(a)) && (s in View(a) ==> View(b)[s] == View(a)[s]) {
      assert SameKeys(a, b, s);
      SameStream(a, b, s);
    }
  }

  lemma SameTraces(a: Db, b: Db)
    requires NoTraces(a) && forall s :: SameKeys(a, b, s)
    ensures NoTraces(b)
  {
    forall s | !Exists(b, s)
      ensures ForkKey(s) !in b && DeletedKey(s) !in b && forall c :: PinKey(s, c) !in b
    {
      assert SameKeys(a, b, s);
      forall c ensures PinKey(s, c) !in b {
        assert Get(b, PinKey(s, c)) == Get(a, PinKey(s, c));
      }
    }
  }

  // ---- appends ----

  /** The batch as the fork model's events. */
  function EventsOf(first: nat, seqNo: nat, events: seq<NewEvent>): (r: seq<ForkHistory.Event>)
    ensures |r| == |events|
    ensures forall i :: 0 <= i < |r| ==> r[i] == ForkHistory.Event(first + i, seqNo + 1 + i, events[i].data)
  {
    seq(|events|, i requires 0 <= i < |events| => ForkHistory.Event(first + i, seqNo + 1 + i, events[i].data))
  }

  function AppendOp(db: Db, seqNo: nat, op: Op): ForkIsolation.Op
    requires op.Append?
  {
    ForkIsolation.Append(op.stream, EventsOf(FirstVersion(db, op.stream), seqNo, op.events))
  }

  ghost predicate RecordIs(db: Db, s: string, v: nat, e: ForkHistory.Event) {
    var r := Get(db, RecordKey(s, v));
    r.Some? && r.value.RecordV? && ForkHistory.Event(r.value.version, r.value.seqNo, r.value.data) == e
  }

  /** What the fork model needs to know of an append: the events behind the tail, the tail, and all else as it was. */
  ghost predicate Grown(db: Db, after: Db, stream: string, first: nat, events: seq<ForkHistory.Event>) {
    && events != [] && (forall i :: 0 <= i < |events| ==> RecordIs(after, stream, first + i, events[i]))
    && (forall s, v: nat :: s != stream || v < first || v >= first + |events| ==>
          Get(after, RecordKey(s, v)) == Get(db, RecordKey(s, v)))
    && Exists(after, stream) && after[TailKey(stream)].version == first + |events| - 1
    && (forall s :: s != stream ==> Get(after, TailKey(s)) == Get(db, TailKey(s)))
    && SameMarks(db, after)
  }

  /** Forks, deletion marks and pins are as they were. */
  ghost predicate SameMarks(db: Db, after: Db) {
    && (forall s :: Get(after, ForkKey(s)) == Get(db, ForkKey(s)))
    && (forall s :: Get(after, DeletedKey(s)) == Get(db, DeletedKey(s)))
    && (forall s, c :: Get(after, PinKey(s, c)) == Get(db, PinKey(s, c)))
  }

  lemma AppendGrows(db: Db, seqNo: nat, op: Op)
    requires op.Append? && Execute(db, seqNo, op).Ok?
    ensures var first := FirstVersion(db, op.stream);
            Grown(db, Effects.Done(db, seqNo, op), op.stream, first, EventsOf(first, seqNo, op.events))
  {
    var first, last, after := FirstVersion(db, op.stream), LastTs(db, op.stream), Effects.Done(db, seqNo, op);
    Effects.AppendMovesTail(db, seqNo, op, first, last);
    Effects.AppendElsewhere(db, seqNo, op, first, last);
    forall i | 0 <= i < |op.events| ensures Effects.Recorded(after, op.stream, first, seqNo, last, op.events, i) {
      Effects.AppendRecorded(db, seqNo, op, first, last, i);
    }
    GrownBy(db, after, op.stream, op.events, op.indexed, seqNo, first, last);
  }

  /** The same, from what the append did to each key. */
  lemma GrownBy(
    db: Db, after: Db, stream: string, events: seq<NewEvent>, indexed: bool, seqNo: nat, first: nat, last: nat)
    requires events != [] && Exists(after, stream) && after[TailKey(stream)].version == first + |events| - 1
    requires forall i :: 0 <= i < |events| ==> Effects.Recorded(after, stream, first, seqNo, last, events, i)
    requires Effects.OnlyKeys(db, after, iset k: Key | k.TailKey? || k.RecordKey? || (indexed && k.IndexKey?))
    requires forall s :: s != stream ==> Get(after, TailKey(s)) == Get(db, TailKey(s))
    requires forall s, v: nat :: s != stream || v < first || v >= first + |events| ==>
               Get(after, RecordKey(s, v)) == Get(db, RecordKey(s, v))
    ensures Grown(db, after, stream, first, EventsOf(first, seqNo, events))
  {
    forall i | 0 <= i < |events| ensures RecordIs(after, stream, first + i, EventsOf(first, seqNo, events)[i]) {
      assert Effects.Recorded(after, stream, first, seqNo, last, events, i);
    }
  }

  lemma GrownRecords(db: Db, after: Db, stream: string, first: nat, events: seq<ForkHistory.Event>)
    requires Grown(db, after, stream, first, events)
    ensures Records(after, stream) == Records(db, stream) + ForkIsolation.RecordsOf(events, first)
  {
    var a, b := Records(after, stream), Records(db, stream) + ForkIsolation.RecordsOf(events, first);
    forall v: nat ensures (v in a <==> v in b) && (v in a ==> a[v] == b[v]) {
      if first <= v < first + |events| {
        assert RecordIs(after, stream, first + (v - first), events[v - first]);
      } else {
        assert Get(after, RecordKey(stream, v)) == Get(db, RecordKey(stream, v));
      }
    }
  }

  lemma NoRecordsBefore(db: Db, stream: string)
    requires StreamOk(db, stream) && NoTraces(db) && !Exists(db, stream)
    ensures Records(db, stream) == map[] && Pins(db, stream) == map[] && Edge(db, stream).None?
            && DeletedKey(stream) !in db
  {
    assert Versions(db, stream) == {};
    assert Children(db, stream) == {};
  }

  lemma GrownStream(db: Db, after: Db, stream: string, first: nat, events: seq<ForkHistory.Event>)
    requires Grown(db, after, stream, first, events) && StreamOk(db, stream) && NoTraces(db)
    requires ForkIsolation.Feasible(View(db), ForkIsolation.Append(stream, events)) && first == FirstVersion(db, stream)
    ensures StreamOf(after, stream) == ForkIsolation.Apply(View(db), ForkIsolation.Append(stream, events))[stream]
  {
    assert Records(after, stream) == Records(db, stream) + ForkIsolation.RecordsOf(events, first) by {
      GrownRecords(db, after, stream, first, events);
    }
    assert Pins(after, stream) == Pins(db, stream) by { SamePins(db, after, stream); }
    assert Get(after, ForkKey(stream)) == Get(db, ForkKey(stream));
    assert Get(after, DeletedKey(stream)) == Get(db, DeletedKey(stream));
    GrownShape(db, after, stream, first, events);
  }

  lemma GrownShape(db: Db, after: Db, stream: string, first: nat, events: seq<ForkHistory.Event>)
    requires Exists(after, stream) && after[TailKey(stream)].version == first + |events| - 1
    requires StreamOk(db, stream) && NoTraces(db) && first == FirstVersion(db, stream)
    requires ForkIsolation.Feasible(View(db), ForkIsolation.Append(stream, events))
    requires Records(after, stream) == Records(db, stream) + ForkIsolation.RecordsOf(events, first)
    requires Pins(after, stream) == Pins(db, stream) && Get(after, ForkKey(stream)) == Get(db, ForkKey(stream))
    requires Get(after, DeletedKey(stream)) == Get(db, DeletedKey(stream))
    ensures StreamOf(after, stream) == ForkIsolation.Apply(View(db), ForkIsolation.Append(stream, events))[stream]
  {
    if Exists(db, stream) {
      assert View(db)[stream] == StreamOf(db, stream);
    } else {
      NoRecordsBefore(db, stream);
    }
  }

  lemma GrownView(db: Db, after: Db, stream: string, first: nat, events: seq<ForkHistory.Event>)
    requires Grown(db, after, stream, first, events) && StreamOk(db, stream) && NoTraces(db)
    requires ForkIsolation.Feasible(View(db), ForkIsolation.Append(stream, events)) && first == FirstVersion(db, stream)
    ensures View(after) == ForkIsolation.Apply(View(db), ForkIsolation.Append(stream, events))
  {
    GrownStream(db, after, stream, first, events);
    var a, b := View(after), ForkIsolation.Apply(View(db), ForkIsolation.Append(stream, events));
    forall s ensures (s in a <==> s in b) && (s in a ==> a[s] == b[s]) {
      if s != stream {
        assert SameKeys(db, after, s);
        SameStream(db, after, s);
      }
    }
  }

  lemma GrownIsAppend(db: Db, after: Db, stream: string, first: nat, events: seq<ForkHistory.Event>)
    requires Grown(db, after, stream, first, events) && StreamOk(db, stream) && NoTraces(db)
    requires first == FirstVersion(db, stream) && ForkIsolation.Numbered(events, first)
    ensures ForkIsolation.Allowed(View(db), ForkIsolation.Append(stream, events))
    ensures View(after) == ForkIsolation.Apply(View(db), ForkIsolation.Append(stream, events))
  {
    assert first == ForkIsolation.NextVersion(View(db), stream);
    GrownView(db, after, stream, first, events);
  }

  lemma AppendRefines(db: Db, seqNo: nat, op: Op)
    requires op.Append? && Execute(db, seqNo, op).Ok? && StreamOk(db, op.stream) && NoTraces(db)
    ensures var fop := AppendOp(db, seqNo, op);
            && ForkIsolation.Allowed(View(db), fop)
            && View(Effects.Done(db, seqNo, op)) == ForkIsolation.Apply(View(db), fop)
  {
    var first := FirstVersion(db, op.stream);
    AppendGrows(db, seqNo, op);
    GrownIsAppend(db, Effects.Done(db, seqNo, op), op.stream, first, EventsOf(first, seqNo, op.events));
  }

  // ---- forks ----

  /** What the fork model needs to know of a fork. */
  ghost predicate Forked(db: Db, after: Db, parent: string, at: nat, child: string) {
    && Exists(db, parent) && at <= db[TailKey(parent)].version && !Exists(db, child)
    && Exists(after, child) && after[TailKey(child)].version == at
    && (forall s :: s != child ==>
        Get(after, TailKey(s)) == Get(db, TailKey(s)) && Get(after, ForkKey(s)) == Get(db, ForkKey(s)))
    && Get(after, ForkKey(child)) == Some(ForkV(parent, at))
    && (forall s :: Get(after, DeletedKey(s)) == Get(db, DeletedKey(s)))
    && (forall s, v: nat :: Get(after, RecordKey(s, v)) == Get(db, RecordKey(s, v)))
    && Get(after, PinKey(parent, child)) == Some(PinV(at))
    && (forall s, c :: (s, c) != (parent, child) ==> Get(after, PinKey(s, c)) == Get(db, PinKey(s, c)))
  }

  lemma ForkForks(db: Db, seqNo: nat, op: Op)
    requires op.Fork? && Execute(db, seqNo, op).Ok?
    ensures Forked(db, Effects.Done(db, seqNo, op), op.parent, op.at, op.child)
  {
    Effects.ForkMeans(db, seqNo, op.parent, op.at, op.child);
  }

  lemma ForkedPins(db: Db, after: Db, parent: string, at: nat, child: string, s: string)
    requires Forked(db, after, parent, at, child)
    ensures Pins(after, s) == if s == parent then Pins(db, s)[child := at] else Pins(db, s)
  {
    var a, b := Pins(after, s), if s == parent then Pins(db, s)[child := at] else Pins(db, s);
    forall c ensures (c in a <==> c in b) && (c in a ==> a[c] == b[c]) {
      assert (s == parent && c == child) || Get(after, PinKey(s, c)) == Get(db, PinKey(s, c));
    }
  }

  lemma ForkedChild(db: Db, after: Db, parent: string, at: nat, child: string)
    requires Forked(db, after, parent, at, child) && StreamOk(db, child) && NoTraces(db)
    ensures StreamOf(after, child) == ForkIsolation.NewStream(at, Some(ForkHistory.ForkRef(parent, at)))
  {
    NoRecordsBefore(db, child);
    ForkedPins(db, after, parent, at, child, child);
    SameRecords(db, after, child);
    assert Get(after, DeletedKey(child)) == Get(db, DeletedKey(child));
  }

  lemma ForkedOther(db: Db, after: Db, parent: string, at: nat, child: string, s: string)
    requires Forked(db, after, parent, at, child) && s != child
    ensures Exists(after, s) <==> Exists(db, s)
    ensures Exists(db, s) ==>
              StreamOf(after, s) == if s == parent then StreamOf(db, s).(pins := Pins(db, s)[child := at])
                else StreamOf(db, s)
  {
    ForkedPins(db, after, parent, at, child, s);
    SameRecords(db, after, s);
    assert Get(after, TailKey(s)) == Get(db, TailKey(s)) && Get(after, ForkKey(s)) == Get(db, ForkKey(s))
           && Get(after, DeletedKey(s)) == Get(db, DeletedKey(s));
  }

  lemma ForkedView(db: Db, after: Db, parent: string, at: nat, child: string)
    requires Forked(db, after, parent, at, child) && StreamOk(db, child) && NoTraces(db)
    ensures var fop := ForkIsolation.Fork(parent, at, child);
            ForkIsolation.Allowed(View(db), fop) && View(after) == ForkIsolation.Apply(View(db), fop)
  {
    ForkedChild(db, after, parent, at, child);
    var a, b := View(after), ForkIsolation.Apply(View(db), ForkIsolation.Fork(parent, at, child));
    forall s ensures (s in a <==> s in b) && (s in a ==> a[s] == b[s]) {
      if s != child { ForkedOther(db, after, parent, at, child, s); }
    }
  }

  lemma ForkRefines(db: Db, seqNo: nat, op: Op)
    requires op.Fork? && Execute(db, seqNo, op).Ok? && DbOk(db) && NoTraces(db)
    ensures var fop := ForkIsolation.Fork(op.parent, op.at, op.child);
            && ForkIsolation.Allowed(View(db), fop)
            && View(Effects.Done(db, seqNo, op)) == ForkIsolation.Apply(View(db), fop)
  {
    assert StreamOk(db, op.child);
    ForkForks(db, seqNo, op);
    ForkedView(db, Effects.Done(db, seqNo, op), op.parent, op.at, op.child);
  }

  // ---- deletions, and what the fork model does not see ----

  /** What the fork model needs to know of a deletion. */
  ghost predicate Marked(db: Db, after: Db, stream: string) {
    && Exists(db, stream) && DeletedKey(stream) in after
    && (forall s :: Get(after, TailKey(s)) == Get(db, TailKey(s)) && Get(after, ForkKey(s)) == Get(db, ForkKey(s)))
    && (forall s :: s != stream ==> Get(after, DeletedKey(s)) == Get(db, DeletedKey(s)))
    && (forall s, v: nat :: Get(after, RecordKey(s, v)) == Get(db, RecordKey(s, v)))
    && (forall s, c :: Get(after, PinKey(s, c)) == Get(db, PinKey(s, c)))
  }

  lemma MarkedView(db: Db, after: Db, stream: string)
    requires Marked(db, after, stream)
    ensures var fop := ForkIsolation.Delete(stream);
            ForkIsolation.Allowed(View(db), fop) && View(after) == ForkIsolation.Apply(View(db), fop)
  {
    var a, b := View(after), ForkIsolation.Apply(View(db), ForkIsolation.Delete(stream));
    forall s ensures (s in a <==> s in b) && (s in a ==> a[s] == b[s]) {
      SameRecords(db, after, s);
      SamePins(db, after, s);
      assert Get(after, TailKey(s)) == Get(db, TailKey(s)) && Get(after, ForkKey(s)) == Get(db, ForkKey(s));
      assert s != stream ==> Get(after, DeletedKey(s)) == Get(db, DeletedKey(s));
    }
  }

  lemma DeleteRefines(db: Db, seqNo: nat, op: Op)
    requires op.Delete? && Exists(db, op.stream)
    ensures var fop := ForkIsolation.Delete(op.stream);
            && ForkIsolation.Allowed(View(db), fop)
            && View(Effects.Done(db, seqNo, op)) == ForkIsolation.Apply(View(db), fop)
  {
    Effects.DeleteMeans(db, seqNo, op.stream);
    MarkedView(db, Effects.Done(db, seqNo, op), op.stream);
  }

  /** The operation shows in the fork model. */
  predicate Shows(db: Db, op: Op) {
    op.Append? || op.Fork? || (op.Delete? && Exists(db, op.stream))
  }

  function ForkOp(db: Db, seqNo: nat, op: Op): ForkIsolation.Op
    requires Shows(db, op)
  {
    match op
    case Append(_, _, _, _, _) => AppendOp(db, seqNo, op)
    case Fork(parent, at, child) => ForkIsolation.Fork(parent, at, child)
    case Delete(stream) => ForkIsolation.Delete(stream)
  }

  lemma OtherSame(db: Db, seqNo: nat, op: Op)
    requires Execute(db, seqNo, op).Ok? && !Shows(db, op)
    ensures forall s :: SameKeys(db, Effects.Done(db, seqNo, op), s)
  {
    match op
    case SetFence(stream, token) => Effects.SetFenceMeans(db, seqNo, stream, token);
    case Publish(stream, through, state) => Effects.PublishMeans(db, seqNo, stream, through, state);
    case Delete(stream) => Effects.DeleteMeans(db, seqNo, stream);
  }

  /** One operation of a transaction, as the fork model sees it. */
  lemma OpRefines(db: Db, seqNo: nat, op: Op)
    requires DbOk(db) && NoTraces(db) && Execute(db, seqNo, op).Ok?
    ensures Shows(db, op) ==>
              && ForkIsolation.Allowed(View(db), ForkOp(db, seqNo, op))
              && View(Effects.Done(db, seqNo, op)) == ForkIsolation.Apply(View(db), ForkOp(db, seqNo, op))
    ensures !Shows(db, op) ==> View(Effects.Done(db, seqNo, op)) == View(db)
  {
    if !Shows(db, op) {
      OtherSame(db, seqNo, op);
      SameView(db, Effects.Done(db, seqNo, op));
    } else {
      match op
      case Append(stream, _, _, _, _) =>
        assert StreamOk(db, stream);
        AppendRefines(db, seqNo, op);
      case Fork(_, _, _) => ForkRefines(db, seqNo, op);
      case Delete(_) => DeleteRefines(db, seqNo, op);
    }
  }

  lemma OpTraces(db: Db, seqNo: nat, op: Op)
    requires NoTraces(db) && Execute(db, seqNo, op).Ok?
    ensures NoTraces(Effects.Done(db, seqNo, op))
  {
    var after := Effects.Done(db, seqNo, op);
    if !Shows(db, op) {
      OtherSame(db, seqNo, op);
      SameTraces(db, after);
    } else {
      forall s | !Exists(after, s)
        ensures ForkKey(s) !in after && DeletedKey(s) !in after && forall c :: PinKey(s, c) !in after
      {
        StreamTraces(db, seqNo, op, s);
      }
    }
  }

  lemma StreamTraces(db: Db, seqNo: nat, op: Op, s: string)
    requires NoTraces(db) && Execute(db, seqNo, op).Ok? && Shows(db, op) && !Exists(Effects.Done(db, seqNo, op), s)
    ensures var after := Effects.Done(db, seqNo, op);
            ForkKey(s) !in after && DeletedKey(s) !in after && forall c :: PinKey(s, c) !in after
  {
    var after := Effects.Done(db, seqNo, op);
    match op
    case Append(stream, _, _, _, _) =>
      Effects.AppendMovesTail(db, seqNo, op, FirstVersion(db, stream), LastTs(db, stream));
      Effects.AppendElsewhere(db, seqNo, op, FirstVersion(db, stream), LastTs(db, stream));
    case Fork(parent, at, child) => Effects.ForkMeans(db, seqNo, parent, at, child);
    case Delete(stream) => Effects.DeleteMeans(db, seqNo, stream);
    assert !Exists(db, s);
    assert Get(after, ForkKey(s)) == Get(db, ForkKey(s)) && Get(after, DeletedKey(s)) == Get(db, DeletedKey(s));
    forall c ensures PinKey(s, c) !in after {
      assert Get(after, PinKey(s, c)) == Get(db, PinKey(s, c));
    }
  }

  // ---- transactions and runs ----

  /** A store whose view the fork model reaches by `fops`. */
  ghost predicate Reached(db: Db, fops: seq<ForkIsolation.Op>, rank: map<string, nat>) {
    DbOk(db) && NoTraces(db) && ForkIsolation.Run(fops) == Some((View(db), rank))
  }

  lemma RunOn(
    fops: seq<ForkIsolation.Op>, fop: ForkIsolation.Op, st: ForkHistory.Store, rank: map<string, nat>)
    returns (rank': map<string, nat>)
    requires ForkIsolation.Run(fops) == Some((st, rank)) && ForkIsolation.Allowed(st, fop)
    ensures ForkIsolation.Run(fops + [fop]) == Some((ForkIsolation.Apply(st, fop), rank'))
  {
    ForkIsolation.RunWellFormed(fops);
    rank' := ForkIsolation.Reranked(st, rank, fop);
    assert (fops + [fop])[..|fops|] == fops;
  }

  lemma OpReaches(p: Point, op: Op, fops: seq<ForkIsolation.Op>, rank: map<string, nat>)
    returns (fops': seq<ForkIsolation.Op>, rank': map<string, nat>)
    requires Reached(p.db, fops, rank) && Advance(p, op).Some?
    ensures Reached(Advance(p, op).value.db, fops', rank')
  {
    ExecuteKeeps(p.db, p.seqNo, op);
    OpRefines(p.db, p.seqNo, op);
    OpTraces(p.db, p.seqNo, op);
    if Shows(p.db, op) {
      var fop := ForkOp(p.db, p.seqNo, op);
      rank' := RunOn(fops, fop, View(p.db), rank);
      fops' := fops + [fop];
    } else {
      fops', rank' := fops, rank;
    }
  }

  lemma {:induction false} OpsReach(p: Point, ops: seq<Op>, fops: seq<ForkIsolation.Op>, rank: map<string, nat>)
    returns (fops': seq<ForkIsolation.Op>, rank': map<string, nat>)
    requires Reached(p.db, fops, rank) && After(p, ops).Some?
    ensures Reached(After(p, ops).value.db, fops', rank')
    decreases |ops|
  {
    if ops == [] {
      fops', rank' := fops, rank;
    } else {
      var n := |ops| - 1;
      var f, r := OpsReach(p, ops[..n], fops, rank);
      fops', rank' := OpReaches(After(p, ops[..n]).value, ops[n], f, r);
    }
  }

  lemma CommitReaches(s: System, t: Txn, fops: seq<ForkIsolation.Op>, rank: map<string, nat>)
    returns (fops': seq<ForkIsolation.Op>, rank': map<string, nat>)
    requires Reached(s.db, fops, rank) && SeesUnwritten(s, t) && Commits(s, t)
    ensures Reached(Committed(s.db, t, Outcome(t).value), fops', rank')
  {
    var e := Outcome(t).value;
    assert After(Point(s.db, SeqOf(t.snapshot)), t.ops) == Some(Point(Patched(s.db, e.writes), e.seqNo)) by {
      CommitIsAtomic(s, t);
      AfterIsExecuteAll(s.db, SeqOf(t.snapshot), t.ops);
    }
    fops', rank' := OpsReach(Point(s.db, SeqOf(t.snapshot)), t.ops, fops, rank);
    StampReaches(s.db, t, e, fops', rank');
  }

  /** Stamping the counter shows in no view. */
  lemma StampReaches(db: Db, t: Txn, e: Effect, fops: seq<ForkIsolation.Op>, rank: map<string, nat>)
    requires Reached(Patched(db, e.writes), fops, rank)
    ensures Reached(Committed(db, t, e), fops, rank)
  {
    var plain, full := Patched(db, e.writes), Committed(db, t, e);
    forall s ensures SameKeys(plain, full, s) && StreamOk(full, s) {
      assert StreamOk(plain, s);
      StreamFrame(plain, full, s);
    }
    SameView(plain, full);
    SameTraces(plain, full);
  }

  /** Refinement: what any interleaving of transactions leaves is, read as streams, a state that the fork model reaches.
      */
  lemma {:induction false} RunRefines(steps: seq<Step>) returns (fops: seq<ForkIsolation.Op>, rank: map<string, nat>)
    requires Run(steps).Some?
    ensures Reached(Run(steps).value.db, fops, rank)
    decreases |steps|
  {
    if steps == [] {
      fops, rank := [], map[];
      assert View(Initial.db) == map[];
    } else {
      var n := |steps| - 1;
      fops, rank := RunRefines(steps[..n]);
      RunKeeps(steps[..n]);
      var s, step := Run(steps[..n]).value, steps[n];
      if step.Finish? && Commits(s, s.open[step.id]) {
        assert SeesUnwritten(s, s.open[step.id]);
        fops, rank := CommitReaches(s, s.open[step.id], fops, rank);
      }
    }
  }

  /** So everything proved of the fork model holds of the store: after every interleaving, reading any range of any
      stream that exists, through all its forks, gives its full history cut to that range, with versions strictly
      increasing. */
  lemma HistoryAfterRun(steps: seq<Step>, stream: string, lo: nat, hi: Option<nat>) returns (rank: map<string, nat>)
    requires Run(steps).Some? && Exists(Run(steps).value.db, stream)
    ensures var st := View(Run(steps).value.db);
            && ForkIsolation.WellFormed(st, rank) && stream in st
            && ForkHistory.Resolve(st, stream, {}, lo, hi)
               == Ok(ForkHistory.Cut(ForkHistory.History(st, rank, stream), lo, hi))
            && ForkIsolation.VersionsIncrease(ForkHistory.History(st, rank, stream))
  {
    var fops;
    fops, rank := RunRefines(steps);
    ForkIsolation.RunWellFormed(fops);
    ForkIsolation.ReachableHistory(fops, stream, lo, hi);
  }
}
