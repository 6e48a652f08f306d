/**
 Any number of handles opening, syncing and checkpointing one database at once. Taking the fence, restoring, reading
 the manifest and publishing the next one are separate steps in no particular order, so every race between handles is
 a run of this machine. A checkpoint puts the handle's own builder on the manifest it read, whoever published that
 one.
 */
module SqliteFence {
  import opened Prelude
  import opened SqliteTypes
  import opened SqliteImage
  import opened SqliteStore
  import opened SqliteLoss
  import SqliteCheckpoint

  /** An image together with the number of events it is current through. */
  datatype Position = Position(image: Image, count: nat)

  /** What an open handle holds: its image and tail, the builder with everything since event `base`, and the manifest
      that a checkpoint under way has read. */
  datatype Session = Session(at: Position, base: nat, pending: Builder, read: Option<Position>)

  /** A handle: opening (with what it has done so far) or open. Its token is its key in the system. */
  datatype Handle =
    | Opening(fenced: bool, base: Option<Position>, restored: Option<Session>)
    | Open(session: Session)

  /** Events below `floor` are purged. */
  datatype System = System(
    stream: seq<seq<Delta>>, floor: nat, fence: Option<nat>, snapshot: Option<Position>, handles: map<nat, Handle>)

  const Initial := System([], 0, None, None, map[])

  datatype Op =
    | StartOpen(h: nat)
    | Fence(h: nat)
    | ReadSnapshot(h: nat)
    | FoldBacklog(h: nat)
    | FinishOpen(h: nat)
    | Sync(h: nat, deltas: seq<Delta>, events: seq<seq<Delta>>)
    | ReadManifest(h: nat)
    | Publish(h: nat, image: Image, found: bool)
    | Purge(floor: nat)

  /** The latest snapshot, or the empty image. */
  function Latest(s: System): Position {
    if s.snapshot.Some? then s.snapshot.value else Position(Empty, 0)
  }

  /** The transactions of the events from `from` up to `to`. */
  function Between(stream: seq<seq<Delta>>, from: nat, to: nat): seq<Delta>
    requires from <= to <= |stream|
  {
    Flatten(stream[from..to])
  }

  /** What a restore folds onto a snapshot. */
  function Behind(s: System, p: Position): seq<Delta> {
    var first := Max(p.count, s.floor);
    if first <= |s.stream| then Between(s.stream, first, |s.stream|) else []
  }

  /** The store accepts an append when the token holds the fence, or there is none, and the tail is as expected. */
  predicate Accepted(s: System, h: nat, at: Position) {
    (s.fence.Some? ==> s.fence.value == h) && at.count == |s.stream|
  }

  predicate IsOpen(s: System, h: nat) { h in s.handles && s.handles[h].Open? }

  predicate IsOpening(s: System, h: nat) { h in s.handles && s.handles[h].Opening? }

  /** What the code does. Publishing needs neither the fence nor a current tail, and what is published has the view of
      the manifest that was read with the builder on top: coalescing drops pages beyond the database. */
  ghost predicate Feasible(s: System, op: Op) {
    match op
    case StartOpen(h) => h !in s.handles
    case Fence(h) => IsOpening(s, h) && !s.handles[h].fenced
    case ReadSnapshot(h) => IsOpening(s, h) && s.handles[h].base.None?
    case FoldBacklog(h) => IsOpening(s, h) && s.handles[h].base.Some? && s.handles[h].restored.None?
    case FinishOpen(h) => IsOpening(s, h) && s.handles[h].fenced && s.handles[h].restored.Some?
    case Sync(h, deltas, events) =>
      && IsOpen(s, h) && s.handles[h].session.read.None? && deltas != [] && events != [] && Flatten(events) == deltas
      && Numbered(s.handles[h].session.at.image.txid, deltas) && Growing(s.handles[h].session.at.image.dbSize, deltas)
    case ReadManifest(h) => IsOpen(s, h) && s.handles[h].session.pending.txidStart.Some?
      && s.handles[h].session.read.None?
    case Publish(h, image, _) =>
      && IsOpen(s, h) && s.handles[h].session.pending.txidStart.Some? && s.handles[h].session.read.Some?
      && SameView(image, Merge(s.handles[h].session.read.value.image, Seal(s.handles[h].session.pending)))
    case Purge(floor) => floor <= |s.stream|
  }

  /** When it goes well: a checkpoint builds on a manifest that reaches at least as far as the one its handle was opened
      from or last published, it does not publish a position that is purged already, and a purge stays below the latest
      snapshot and below whatever an opening handle is about to fold onto. */
  ghost predicate Careful(s: System, op: Op)
    requires Feasible(s, op)
  {
    match op
    case Publish(h, _, _) =>
      s.handles[h].session.base <= s.handles[h].session.read.value.count && s.floor <= s.handles[h].session.at.count
    case Purge(floor) =>
      && floor <= Latest(s).count
      && forall k :: IsOpening(s, k) && s.handles[k].base.Some? && s.handles[k].restored.None? ==>
           floor <= s.handles[k].base.value.count
    case _ => true
  }

  function Set(s: System, h: nat, handle: Handle): System { s.(handles := s.handles[h := handle]) }

  /** What a restore gives an opening handle; with nothing to fold, the tail stays at the snapshot. */
  function Restored(s: System, base: Position): Session {
    var behind := Behind(s, base);
    var count := if Max(base.count, s.floor) < |s.stream| then |s.stream| else base.count;
    Session(Position(ApplyAll(base.image, behind), count), base.count, BuildAll(behind), None)
  }

  function Synced(s: System, x: Session, deltas: seq<Delta>, events: seq<seq<Delta>>): Session {
    x.(at := Position(ApplyAll(x.at.image, deltas), |s.stream + events|), pending :=
       SqliteCheckpoint.BuildOn(x.pending, deltas))
  }

  ghost function Step(s: System, op: Op): System
    requires Feasible(s, op)
  {
    match op
    case StartOpen(h) => Set(s, h, Opening(false, None, None))
    case Fence(h) => Set(s, h, s.handles[h].(fenced := true)).(fence := Some(h))
    case ReadSnapshot(h) => Set(s, h, s.handles[h].(base := Some(Latest(s))))
    case FoldBacklog(h) => Set(s, h, s.handles[h].(restored := Some(Restored(s, s.handles[h].base.value))))
    case FinishOpen(h) => Set(s, h, Open(s.handles[h].restored.value))
    case Sync(h, deltas, events) =>
      if !Accepted(s, h, s.handles[h].session.at) then s
      else Set(s, h, Open(Synced(s, s.handles[h].session, deltas, events))).(stream := s.stream + events)
    case ReadManifest(h) => Set(s, h, Open(s.handles[h].session.(read := Some(Latest(s)))))
    case Publish(h, image, found) =>
      var x := s.handles[h].session;
      var s' := Set(s, h, Open(x.(base := x.at.count, pending := EmptyBuilder, read := None)));
      if found then s'.(snapshot := Some(Position(image, x.at.count))) else s'
    case Purge(floor) => s.(floor := Max(s.floor, floor))
  }

  // ---- positions ----

  /** The image has the view of the replay of the first `count` events. */
  ghost predicate Faithful(p: Position, stream: seq<seq<Delta>>) {
    p.count <= |stream| && SameView(p.image, ApplyAll(Empty, Between(stream, 0, p.count)))
  }

  /** The image need not be any replay, but it carries the id that the first `count` events end on, and folding the
      others makes it the replay of all. */
  ghost predicate Good(p: Position, stream: seq<seq<Delta>>) {
    && p.count <= |stream| && p.image.txid == LastTxid(Between(stream, 0, p.count))
    && SameView(ApplyAll(p.image, Between(stream, p.count, |stream|)), ApplyAll(Empty, Flatten(stream)))
  }

  ghost predicate WellFormed(stream: seq<seq<Delta>>) { Numbered(0, Flatten(stream)) && Growing(0, Flatten(stream)) }

  lemma BetweenGrows(stream: seq<seq<Delta>>, events: seq<seq<Delta>>, from: nat, to: nat)
    requires from <= to <= |stream|
    ensures Between(stream + events, from, to) == Between(stream, from, to)
  {
    assert (stream + events)[from..to] == stream[from..to];
  }

  lemma BetweenSplits(stream: seq<seq<Delta>>, from: nat, mid: nat, to: nat)
    requires from <= mid <= to <= |stream|
    ensures Between(stream, from, to) == Between(stream, from, mid) + Between(stream, mid, to)
  {
    assert stream[from..to] == stream[from..mid] + stream[mid..to];
    FlattenConcat(stream[from..mid], stream[mid..to]);
  }

  lemma BetweenAll(stream: seq<seq<Delta>>)
    ensures Between(stream, 0, |stream|) == Flatten(stream)
  {
    assert stream[0..|stream|] == stream;
  }

  lemma BetweenNone(stream: seq<seq<Delta>>, at: nat)
    requires at <= |stream|
    ensures Between(stream, at, at) == []
  {
    assert stream[at..at] == [];
  }

  /** The new events of a longer stream, behind any position. */
  lemma BetweenAppended(stream: seq<seq<Delta>>, events: seq<seq<Delta>>, from: nat)
    requires from <= |stream|
    ensures Between(stream + events, from, |stream + events|) == Between(stream, from, |stream|) + Flatten(events)
  {
    BetweenSplits(stream + events, from, |stream|, |stream + events|);
    BetweenGrows(stream, events, from, |stream|);
    assert (stream + events)[|stream|..|stream + events|] == events;
  }

  /** The transactions behind a position grow the database from where those before left it. */
  lemma GrowingBehind(stream: seq<seq<Delta>>, at: nat)
    requires at <= |stream| && Growing(0, Flatten(stream))
    ensures Growing(SizeAfter(0, Between(stream, 0, at)), Between(stream, at, |stream|))
  {
    BetweenAll(stream);
    BetweenSplits(stream, 0, at, |stream|);
    GrowingConcat(0, Between(stream, 0, at), Between(stream, at, |stream|));
  }

  lemma FaithfulGrows(p: Position, stream: seq<seq<Delta>>, events: seq<seq<Delta>>)
    requires Faithful(p, stream)
    ensures Faithful(p, stream + events)
  {
    BetweenGrows(stream, events, 0, p.count);
  }

  /** Whatever is appended, folding from a good position stays right. */
  lemma GoodGrows(p: Position, stream: seq<seq<Delta>>, events: seq<seq<Delta>>)
    requires Good(p, stream) && Growing(0, Flatten(stream + events))
    ensures Good(p, stream + events)
  {
    var behind, all, more := Between(stream, p.count, |stream|), Flatten(stream), Flatten(events);
    BetweenAppended(stream, events, p.count);
    BetweenGrows(stream, events, 0, p.count);
    FlattenConcat(stream, events);
    GrowingConcat(0, all, more);
    SizeOfImage(Empty, all);
    ApplyAllConcat(p.image, behind, more);
    ApplyAllConcat(Empty, all, more);
    ApplyAllSameView(ApplyAll(p.image, behind), ApplyAll(Empty, all), more);
  }

  lemma EmptyGood(stream: seq<seq<Delta>>)
    ensures Good(Position(Empty, 0), stream)
  {
    BetweenAll(stream);
    BetweenNone(stream, 0);
    SameViewReflexive(ApplyAll(Empty, Flatten(stream)));
  }

  // ---- what a checkpoint publishes ----

  /** Transactions that an image has seen already may be applied again, in front of those it has not seen. */
  lemma Reapplied(image: Image, prior: seq<Delta>, again: seq<Delta>, rest: seq<Delta>)
    requires again + rest != [] && SameView(ApplyAll(image, rest), ApplyAll(Empty, prior + (again + rest)))
    ensures SameView(ApplyAll(image, again + rest), ApplyAll(Empty, prior + (again + rest)))
  {
    var all := again + rest;
    var x, y, z := ApplyAll(image, all), ApplyAll(Empty, prior + all), ApplyAll(image, rest);
    ApplyAllConcat(Empty, prior, all);
    HeadAfter(image, ApplyAll(Empty, prior), all);
    forall p: nat | p <= x.dbSize ensures Get(x.pages, p) == Get(y.pages, p) {
      PageAfter(image, all, p);
      PageAfter(ApplyAll(Empty, prior), all, p);
      if p !in BuildAll(all).pages {
        ApplyAllConcat(image, again, rest);
        PageAfter(ApplyAll(image, again), rest, p);
        PageAfter(image, again, p);
        PageAfter(image, rest, p);
        UnwrittenBelow(again, rest, p);
        assert Get(z.pages, p) == Get(y.pages, p);
      }
    }
  }

  /** A page that a stretch does not write, its parts do not write. */
  lemma UnwrittenBelow(a: seq<Delta>, b: seq<Delta>, p: nat)
    requires p !in BuildAll(a + b).pages
    ensures p !in BuildAll(b).pages
  {
    var missing := Image(0, 0, 0, map[]);
    ApplyAllConcat(missing, a, b);
    PageAfter(missing, a + b, p);
    PageAfter(ApplyAll(missing, a), b, p);
  }

  ghost predicate SessionOk(x: Session, stream: seq<seq<Delta>>) {
    && Faithful(x.at, stream) && x.base <= x.at.count
    && x.pending == BuildAll(Between(stream, x.base, x.at.count))
    && (x.read.Some? ==> Good(x.read.value, stream))
  }

  /** The published image, with everything behind it folded on top, is the manifest that was read with everything since
      the handle's base on top. */
  lemma PublishedShows(m: Position, x: Session, image: Image, stream: seq<seq<Delta>>)
    requires WellFormed(stream) && SessionOk(x, stream) && x.pending.txidStart.Some?
    requires SameView(image, Merge(m.image, Seal(x.pending)))
    ensures SameView(ApplyAll(image, Between(stream, x.at.count, |stream|)),
                     ApplyAll(m.image, Between(stream, x.base, |stream|)))
    ensures Between(stream, x.base, |stream|) != []
  {
    var since, behind := Between(stream, x.base, x.at.count), Between(stream, x.at.count, |stream|);
    BuilderIsFold(m.image, since);
    SealMerges(m.image, since);
    BetweenSplits(stream, x.base, x.at.count, |stream|);
    ApplyAllConcat(m.image, since, behind);
    GrowingBehind(stream, x.at.count);
    BetweenSplits(stream, 0, x.base, x.at.count);
    SizesAgree(m.image, Between(stream, 0, x.base), since);
    ApplyAllSameView(image, ApplyAll(m.image, since), behind);
  }

  /** The published image carries the id its handle's tail ends on. */
  lemma PublishedTxid(m: Position, x: Session, image: Image, stream: seq<seq<Delta>>)
    requires SessionOk(x, stream) && x.pending.txidStart.Some? && SameView(image, Merge(m.image, Seal(x.pending)))
    ensures image.txid == LastTxid(Between(stream, 0, x.at.count))
  {
    var since := Between(stream, x.base, x.at.count);
    BuilderIsFold(m.image, since);
    SealMerges(m.image, since);
    SizeOfImage(m.image, since);
    BetweenSplits(stream, 0, x.base, x.at.count);
  }

  lemma SizesAgree(image: Image, prior: seq<Delta>, since: seq<Delta>)
    requires since != []
    ensures ApplyAll(image, since).dbSize == SizeAfter(0, prior + since)
  {
    SizeOfImage(image, since);
  }

  /** Building on a manifest that reaches at least as far as the handle's base. */
  lemma NewerManifestGood(m: Position, base: nat, stream: seq<seq<Delta>>)
    requires Good(m, stream) && base <= m.count && Between(stream, base, |stream|) != []
    ensures SameView(ApplyAll(m.image, Between(stream, base, |stream|)), ApplyAll(Empty, Flatten(stream)))
  {
    BetweenAll(stream);
    BetweenSplits(stream, 0, base, |stream|);
    BetweenSplits(stream, base, m.count, |stream|);
    Reapplied(m.image, Between(stream, 0, base), Between(stream, base, m.count), Between(stream, m.count, |stream|));
  }

  /** Building on one that does not. */
  lemma OlderManifestIff(m: Position, base: nat, stream: seq<seq<Delta>>)
    requires Good(m, stream) && m.count <= base <= |stream| && Between(stream, base, |stream|) != []
    ensures SameView(ApplyAll(m.image, Between(stream, base, |stream|)), ApplyAll(Empty, Flatten(stream)))
            <==> Covers(m.image, Between(stream, m.count, base), Between(stream, base, |stream|))
  {
    var lost, kept := Between(stream, m.count, base), Between(stream, base, |stream|);
    BetweenSplits(stream, m.count, base, |stream|);
    ApplyAllConcat(m.image, lost, kept);
    SameViewReflexive(ApplyAll(m.image, kept));
    RightIff(ApplyAll(m.image, kept), m.image, lost, kept, ApplyAll(Empty, Flatten(stream)));
  }

  /** Checkpoints of racing handles, exactly: what a handle publishes on top of the manifest it read restores right,
      once the events behind it are folded, if and only if that manifest reaches as far as the handle's base, or every
      page written in between is rewritten later or was the same all along. */
  lemma PublishGoodIff(m: Position, x: Session, image: Image, stream: seq<seq<Delta>>)
    requires WellFormed(stream) && SessionOk(x, stream) && Good(m, stream) && x.pending.txidStart.Some?
    requires SameView(image, Merge(m.image, Seal(x.pending)))
    ensures Good(Position(image, x.at.count), stream)
            <==> (|| x.base <= m.count
                  || Covers(m.image, Between(stream, m.count, x.base), Between(stream, x.base, |stream|)))
  {
    PublishedShows(m, x, image, stream);
    PublishedTxid(m, x, image, stream);
    ComparedAlike(ApplyAll(image, Between(stream, x.at.count, |stream|)),
                  ApplyAll(m.image, Between(stream, x.base, |stream|)),
                  ApplyAll(Empty, Flatten(stream)));
    if x.base <= m.count {
      NewerManifestGood(m, x.base, stream);
    } else {
      OlderManifestIff(m, x.base, stream);
    }
  }

  /** Purges, exactly: a restore from a good position, with the events below `floor` gone, is right if and only if no
      transaction is lost, or some are left behind them and every page of the lost ones is rewritten by those or was the
      same all along. */
  lemma PurgedRestoreIff(p: Position, stream: seq<seq<Delta>>, floor: nat)
    requires Good(p, stream) && WellFormed(stream) && p.count <= floor <= |stream|
    ensures var lost, kept := Between(stream, p.count, floor), Between(stream, floor, |stream|);
            SameView(ApplyAll(p.image, kept), ApplyAll(Empty, Flatten(stream)))
            <==> lost == [] || (kept != [] && Covers(p.image, lost, kept))
  {
    var lost, kept := Between(stream, p.count, floor), Between(stream, floor, |stream|);
    BetweenSplits(stream, p.count, floor, |stream|);
    if lost == [] {
      assert lost + kept == kept;
    } else if kept != [] {
      OlderManifestIff(p, floor, stream);
    } else {
      LostEnd(p, stream, floor);
    }
  }

  /** Nothing left behind the purge: the image is stuck on an earlier id. */
  lemma LostEnd(p: Position, stream: seq<seq<Delta>>, floor: nat)
    requires Good(p, stream) && WellFormed(stream) && p.count <= floor <= |stream|
    requires Between(stream, p.count, floor) != [] && Between(stream, floor, |stream|) == []
    ensures p.image.txid < ApplyAll(Empty, Flatten(stream)).txid
  {
    var before, lost := Between(stream, 0, p.count), Between(stream, p.count, floor);
    assert Flatten(stream) == before + lost by {
      BetweenAll(stream);
      BetweenSplits(stream, 0, p.count, floor);
      BetweenSplits(stream, 0, floor, |stream|);
      assert (before + lost) + [] == before + lost;
    }
    SizeOfImage(Empty, Flatten(stream));
    LaterEnds(before, lost);
  }

  lemma LaterEnds(a: seq<Delta>, b: seq<Delta>)
    requires Numbered(0, a + b) && b != []
    ensures LastTxid(a) < LastTxid(a + b)
  {
    var ab := a + b;
    assert a != [] ==> ab[|a| - 1] == a[|a| - 1] && ab[|a| - 1].txid < ab[|ab| - 1].txid;
    assert 0 < ab[|ab| - 1].txid;
  }

  // ---- what every careful step keeps ----

  ghost predicate HandleOk(h: Handle, stream: seq<seq<Delta>>, floor: nat) {
    match h
    case Open(x) => SessionOk(x, stream)
    case Opening(_, base, restored) =>
      && (base.Some? ==> Good(base.value, stream) && (restored.None? ==> floor <= base.value.count))
      && (restored.Some? ==> SessionOk(restored.value, stream))
  }

  ghost predicate Coherent(s: System) {
    && Good(Latest(s), s.stream) && s.floor <= Latest(s).count
    && (forall h :: h in s.handles ==> HandleOk(s.handles[h], s.stream, s.floor))
    && WellFormed(s.stream)
  }

  lemma SessionGrows(x: Session, stream: seq<seq<Delta>>, events: seq<seq<Delta>>)
    requires SessionOk(x, stream) && Growing(0, Flatten(stream + events))
    ensures SessionOk(x, stream + events)
  {
    FaithfulGrows(x.at, stream, events);
    BetweenGrows(stream, events, x.base, x.at.count);
    if x.read.Some? { GoodGrows(x.read.value, stream, events); }
  }

  lemma HandleGrows(h: Handle, stream: seq<seq<Delta>>, events: seq<seq<Delta>>, floor: nat)
    requires HandleOk(h, stream, floor) && Growing(0, Flatten(stream + events))
    ensures HandleOk(h, stream + events, floor)
  {
    match h
    case Open(x) => SessionGrows(x, stream, events);
    case Opening(_, base, restored) =>
      if base.Some? { GoodGrows(base.value, stream, events); }
      if restored.Some? { SessionGrows(restored.value, stream, events); }
  }

  lemma HandleSet(s: System, h: nat, handle: Handle)
    requires Coherent(s) && HandleOk(handle, s.stream, s.floor)
    ensures Coherent(Set(s, h, handle))
  {
  }

  /** A snapshot read earlier and a fold done later still give the replay of the whole stream. */
  lemma RestoredOk(s: System, base: Position)
    requires Good(base, s.stream) && s.floor <= base.count
    ensures SessionOk(Restored(s, base), s.stream)
  {
    BetweenAll(s.stream);
  }

  lemma AppendedWell(stream: seq<seq<Delta>>, events: seq<seq<Delta>>)
    requires WellFormed(stream) && Numbered(LastTxid(Flatten(stream)), Flatten(events))
    requires Growing(SizeAfter(0, Flatten(stream)), Flatten(events))
    ensures Flatten(stream + events) == Flatten(stream) + Flatten(events) && WellFormed(stream + events)
  {
    FlattenConcat(stream, events);
    NumberedConcat(0, Flatten(stream), Flatten(events));
    GrowingConcat(0, Flatten(stream), Flatten(events));
  }

  lemma FullReplay(image: Image, stream: seq<seq<Delta>>)
    ensures Faithful(Position(image, |stream|), stream) <==> SameView(image, ApplyAll(Empty, Flatten(stream)))
  {
    BetweenAll(stream);
  }

  /** Replaying further transactions on top of an image that has the right view. */
  lemma ReplayOn(image: Image, prior: seq<Delta>, more: seq<Delta>)
    requires SameView(image, ApplyAll(Empty, prior)) && Growing(image.dbSize, more)
    ensures SameView(ApplyAll(image, more), ApplyAll(Empty, prior + more))
  {
    ApplyAllSameView(image, ApplyAll(Empty, prior), more);
    ApplyAllConcat(Empty, prior, more);
  }

  /** Where the stream ends, as the handle at its tail sees it. */
  lemma AtTail(at: Position, stream: seq<seq<Delta>>)
    requires Faithful(at, stream) && at.count == |stream|
    ensures at.image.txid == LastTxid(Flatten(stream)) && at.image.dbSize == SizeAfter(0, Flatten(stream))
    ensures SameView(at.image, ApplyAll(Empty, Flatten(stream)))
  {
    FullReplay(at.image, stream);
    SizeOfImage(Empty, Flatten(stream));
  }

  /** An append at the tail carries its writer's image along. */
  lemma {:induction false} SyncPosition(at: Position, stream: seq<seq<Delta>>, events: seq<seq<Delta>>)
    requires Faithful(at, stream) && at.count == |stream| && WellFormed(stream)
    requires Numbered(at.image.txid, Flatten(events)) && Growing(at.image.dbSize, Flatten(events))
    ensures WellFormed(stream + events)
    ensures Faithful(Position(ApplyAll(at.image, Flatten(events)), |stream + events|), stream + events)
  {
    AtTail(at, stream);
    AppendedWell(stream, events);
    ReplayOn(at.image, Flatten(stream), Flatten(events));
    FullReplay(ApplyAll(at.image, Flatten(events)), stream + events);
  }

  /** The builder follows. */
  lemma SyncedBuilder(x: Session, stream: seq<seq<Delta>>, events: seq<seq<Delta>>)
    requires x.base <= x.at.count == |stream| && x.pending == BuildAll(Between(stream, x.base, |stream|))
    ensures SqliteCheckpoint.BuildOn(x.pending, Flatten(events))
            == BuildAll(Between(stream + events, x.base, |stream + events|))
  {
    BetweenAppended(stream, events, x.base);
    SqliteCheckpoint.BuildOnAll(Between(stream, x.base, |stream|), Flatten(events));
  }

  lemma {:induction false} SyncedOk(s: System, x: Session, events: seq<seq<Delta>>)
    requires WellFormed(s.stream) && SessionOk(x, s.stream) && x.read.None? && x.at.count == |s.stream|
    requires Numbered(x.at.image.txid, Flatten(events)) && Growing(x.at.image.dbSize, Flatten(events))
    ensures WellFormed(s.stream + events) && SessionOk(Synced(s, x, Flatten(events), events), s.stream + events)
  {
    SyncPosition(x.at, s.stream, events);
    SyncedBuilder(x, s.stream, events);
  }

  lemma SyncCoherent(s: System, h: nat, deltas: seq<Delta>, events: seq<seq<Delta>>)
    requires Coherent(s) && Feasible(s, Sync(h, deltas, events)) && Accepted(s, h, s.handles[h].session.at)
    ensures Coherent(Step(s, Sync(h, deltas, events)))
  {
    assert HandleOk(s.handles[h], s.stream, s.floor);
    SyncedOk(s, s.handles[h].session, events);
    GoodGrows(Latest(s), s.stream, events);
    forall k | k in s.handles ensures HandleOk(s.handles[k], s.stream + events, s.floor) {
      HandleGrows(s.handles[k], s.stream, events, s.floor);
    }
  }

  lemma PublishCoherent(s: System, h: nat, image: Image, found: bool)
    requires Coherent(s) && Feasible(s, Publish(h, image, found)) && Careful(s, Publish(h, image, found))
    ensures Coherent(Step(s, Publish(h, image, found)))
  {
    var x := s.handles[h].session;
    assert HandleOk(s.handles[h], s.stream, s.floor);
    PublishGoodIff(x.read.value, x, image, s.stream);
    BetweenNone(s.stream, x.at.count);
    HandleSet(s, h, Open(x.(base := x.at.count, pending := EmptyBuilder, read := None)));
  }

  lemma PurgeCoherent(s: System, floor: nat)
    requires Coherent(s) && Feasible(s, Purge(floor)) && Careful(s, Purge(floor))
    ensures Coherent(Step(s, Purge(floor)))
  {
    forall k | k in s.handles ensures HandleOk(s.handles[k], s.stream, Max(s.floor, floor)) {
      assert HandleOk(s.handles[k], s.stream, s.floor);
      assert s.handles[k].Opening? ==> IsOpening(s, k);
    }
  }

  /** The steps that only touch one handle. */
  lemma OpeningCoherent(s: System, op: Op)
    requires Coherent(s) && Feasible(s, op)
    requires op.StartOpen? || op.Fence? || op.ReadSnapshot? || op.FoldBacklog? || op.FinishOpen? || op.ReadManifest?
    ensures Coherent(Step(s, op))
  {
    if op.StartOpen? {
      HandleSet(s, op.h, Opening(false, None, None));
    } else {
      assert HandleOk(s.handles[op.h], s.stream, s.floor);
      match op
      case Fence(h) => HandleSet(s, h, s.handles[h].(fenced := true));
      case ReadSnapshot(h) => HandleSet(s, h, s.handles[h].(base := Some(Latest(s))));
      case FoldBacklog(h) =>
        RestoredOk(s, s.handles[h].base.value);
        HandleSet(s, h, s.handles[h].(restored := Some(Restored(s, s.handles[h].base.value))));
      case FinishOpen(h) => HandleSet(s, h, Open(s.handles[h].restored.value));
      case ReadManifest(h) => HandleSet(s, h, Open(s.handles[h].session.(read := Some(Latest(s)))));
    }
  }

  lemma StepCoherent(s: System, op: Op)
    requires Coherent(s) && Feasible(s, op) && Careful(s, op)
    ensures Coherent(Step(s, op))
  {
    match op
    case Sync(h, deltas, events) =>
      if Accepted(s, h, s.handles[h].session.at) { SyncCoherent(s, h, deltas, events); }
    case Publish(h, image, found) => PublishCoherent(s, h, image, found);
    case Purge(floor) => PurgeCoherent(s, floor);
    case _ => OpeningCoherent(s, op);
  }

  // ---- runs ----

  ghost predicate Allowed(s: System, op: Op, careful: bool) {
    Feasible(s, op) && (careful ==> Careful(s, op))
  }

  /** Runs of careful steps, or of all steps that the code can take. */
  ghost function Run(ops: seq<Op>, careful: bool): Option<System> {
    if ops == [] then Some(Initial)
    else
      var before := Run(ops[..|ops| - 1], careful);
      if before.Some? && Allowed(before.value, ops[|ops| - 1], careful) then Some(Step(before.value, ops[|ops| - 1]))
        else None
  }

  lemma {:induction false} RunCoherent(ops: seq<Op>)
    requires Run(ops, true).Some?
    ensures Coherent(Run(ops, true).value)
  {
    if ops == [] {
      EmptyGood([]);
      assert Flatten(Initial.stream) == [];
    } else {
      RunCoherent(ops[..|ops| - 1]);
      StepCoherent(Run(ops[..|ops| - 1], true).value, ops[|ops| - 1]);
    }
  }

  /** No split brain, state by state: whatever handles raced to open, sync and checkpoint, each open handle shows
      exactly the events up to its own tail, transaction ids increase strictly along the stream, and the latest snapshot
      with the events behind it folded on top is the replay of the whole stream. */
  lemma NoSplitBrain(ops: seq<Op>, h: nat)
    requires Run(ops, true).Some? && IsOpen(Run(ops, true).value, h)
    ensures var s := Run(ops, true).value;
            && Faithful(s.handles[h].session.at, s.stream)
            && Numbered(0, Flatten(s.stream))
            && SameView(Restored(s, Latest(s)).at.image, ApplyAll(Empty, Flatten(s.stream)))
  {
    RunCoherent(ops);
    var s := Run(ops, true).value;
    assert HandleOk(s.handles[h], s.stream, s.floor);
    RestoredOk(s, Latest(s));
    BetweenAll(s.stream);
  }

  lemma {:induction false} RunPrefix(ops: seq<Op>, i: nat, careful: bool)
    requires Run(ops, careful).Some? && i <= |ops|
    ensures Run(ops[..i], careful).Some?
    ensures i < |ops| ==> Allowed(Run(ops[..i], careful).value, ops[i], careful)
    ensures i < |ops| ==> Run(ops[..i + 1], careful) == Some(Step(Run(ops[..i], careful).value, ops[i]))
    decreases |ops|
  {
    if i == |ops| {
      assert ops[..i] == ops;
    } else if i == |ops| - 1 {
      assert ops[..i + 1] == ops;
    } else {
      var before := ops[..|ops| - 1];
      RunPrefix(before, i, careful);
      assert before[..i] == ops[..i] && before[..i + 1] == ops[..i + 1];
    }
  }

  /** What a step does to the fence and to the stream. */
  lemma StepFence(s: System, op: Op)
    requires Feasible(s, op)
    ensures Step(s, op).fence == if op.Fence? then Some(op.h) else s.fence
    ensures Step(s, op).stream
         == if op.Sync? && Accepted(s, op.h, s.handles[op.h].session.at) then s.stream + op.events else s.stream
  {
  }

  lemma {:induction false} FenceHolds(ops: seq<Op>, i: nat, j: nat, h: nat, careful: bool)
    requires Run(ops, careful).Some? && i < j <= |ops| && ops[i] == Fence(h)
    requires forall k :: i < k < j ==> !ops[k].Fence?
    ensures Run(ops[..j], careful).Some? && Run(ops[..j], careful).value.fence == Some(h)
    decreases j
  {
    RunPrefix(ops, j - 1, careful);
    StepFence(Run(ops[..j - 1], careful).value, ops[j - 1]);
    if i < j - 1 {
      FenceHolds(ops, i, j - 1, h, careful);
    }
  }

  /** Fencing: once a handle's fence write has committed, until another fence write commits, only that handle's syncs
      reach the stream. */
  lemma OnlyTheFenceHolderAppends(ops: seq<Op>, i: nat, j: nat, h: nat, careful: bool)
    requires Run(ops, careful).Some? && i < j < |ops| && ops[i] == Fence(h)
    requires forall k :: i < k < j ==> !ops[k].Fence?
    ensures Run(ops[..j], careful).Some? && Run(ops[..j + 1], careful).Some?
    ensures Run(ops[..j + 1], careful).value.stream != Run(ops[..j], careful).value.stream ==>
              ops[j].Sync? && ops[j].h == h
  {
    RunPrefix(ops, j, careful);
    FenceHolds(ops, i, j, h, careful);
    StepFence(Run(ops[..j], careful).value, ops[j]);
  }

  /** Transactions numbered one after the other from behind `last`. */
  predicate OneByOne(last: nat, deltas: seq<Delta>) {
    forall k :: 0 <= k < |deltas| ==> deltas[k].txid == last + 1 + k
  }

  /** A sync numbers its transactions onwards from its handle's image, as capture does. */
  ghost predicate Follows(s: System, op: Op)
    requires Feasible(s, op)
  {
    op.Sync? ==> OneByOne(s.handles[op.h].session.at.image.txid, op.deltas)
  }

  /** Every sync of the run does. */
  ghost predicate Consecutive(ops: seq<Op>) {
    ops == [] ||
    var n := |ops| - 1;
    && Consecutive(ops[..n])
    && (Run(ops[..n], true).Some? && Feasible(Run(ops[..n], true).value, ops[n]) ==>
        Follows(Run(ops[..n], true).value, ops[n]))
  }

  lemma {:induction false} OneByOneJoins(a: seq<Delta>, b: seq<Delta>)
    requires OneByOne(0, a) && OneByOne(LastTxid(a), b)
    ensures OneByOne(0, a + b)
  {
  }

  lemma GapFreeStep(s: System, op: Op)
    requires Coherent(s) && Feasible(s, op) && Follows(s, op) && OneByOne(0, Flatten(s.stream))
    ensures OneByOne(0, Flatten(Step(s, op).stream))
  {
    StepFence(s, op);
    if op.Sync? && Accepted(s, op.h, s.handles[op.h].session.at) {
      assert HandleOk(s.handles[op.h], s.stream, s.floor);
      AtTail(s.handles[op.h].session.at, s.stream);
      FlattenConcat(s.stream, op.events);
      OneByOneJoins(Flatten(s.stream), op.deltas);
    }
  }

  /** Without coalesced syncs, transaction ids along the stream are 1, 2, 3 and so on. */
  lemma {:induction false} GapFreeStream(ops: seq<Op>)
    requires Run(ops, true).Some? && Consecutive(ops)
    ensures OneByOne(0, Flatten(Run(ops, true).value.stream))
  {
    if ops == [] {
      assert Flatten(Initial.stream) == [];
    } else {
      var n := |ops| - 1;
      GapFreeStream(ops[..n]);
      RunCoherent(ops[..n]);
      GapFreeStep(Run(ops[..n], true).value, ops[n]);
    }
  }
}
