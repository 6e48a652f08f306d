/**
 Read-only replicas: following the stream of a volume while its writer appends, checkpoints and purges between
 any two reads.
 */
module FsReplica {
  import opened Prelude
  import opened FsImage
  import opened FsVolume

  /** A view the reader may be shown: its manifest loads to the replay of what it covers. Retention may have
      gone past the newest checkpoint. */
  ghost predicate Sound(s: Stream, now: int) {
    && s.floor <= |s.log| && Covered(s) <= |s.log|
    && Base(s) == Some(Replay(map[], s.log[..Covered(s)], now))
  }

  /** `t` is the same stream seen later. */
  predicate Later(s: Stream, t: Stream) {
    s.log <= t.log && s.floor <= t.floor && Covered(s) <= Covered(t)
  }

  /** Retention has not passed the newest checkpoint. */
  predicate Retained(s: Stream) { s.floor <= Covered(s) }

  /** The replica shows exactly the first `cursor + 1` events. */
  ghost predicate InSync(nodes: Tree, cursor: Option<nat>, log: seq<Event>, now: int) {
    match cursor
    case None => nodes == map[]
    case Some(c) => c < |log| && nodes == Replay(map[], log[..c + 1], now)
  }

  function Next(cursor: Option<nat>): nat {
    if cursor.Some? then cursor.value + 1 else 0
  }

  /** The views in the order `sync` reads them: the backlog, the snapshot it consults when the backlog is empty,
      the snapshot it reloads from and the backlog behind that one. */
  datatype Views = Views(backlog: Stream, probe: Stream, snap: Stream, rest: Stream)

  ghost predicate Ordered(v: Views, now: int) {
    && Sound(v.backlog, now) && Sound(v.probe, now) && Sound(v.snap, now) && Sound(v.rest, now)
    && Later(v.backlog, v.probe) && Later(v.probe, v.snap) && Later(v.snap, v.rest)
  }

  predicate Gap(v: Views, from: nat) {
    if Backlog(v.backlog, from) != [] then v.backlog.floor > from
    else v.probe.snap.Some? && v.probe.snap.value.through >= from
  }

  class Replica {
    var image: Image
    var cursor: Option<nat>

    constructor ()
      ensures image.nodes == map[] && cursor == None && fresh(image)
    {
      image := new Image(map[]);
      cursor := None;
    }

    /** Catches up with the stream. `io` says whether the bucket answers. */
    method Sync(v: Views, io: bool, now: int) returns (r: Result<(), Error>)
      modifies this, image
      ensures r.Err? ==> image.nodes == old(image.nodes) && cursor == old(cursor)
      ensures !Gap(v, Next(old(cursor))) ==>
                var events := Backlog(v.backlog, Next(old(cursor)));
                && r.Ok?
                && image.nodes == Replay(old(image.nodes), events, now)
                && cursor == if events == [] then old(cursor) else Some(|v.backlog.log| - 1)
      ensures Gap(v, Next(old(cursor))) ==> (r.Ok? <==> io && CanReload(v))
      ensures Gap(v, Next(old(cursor))) && r.Ok? ==>
                image.nodes == ReloadedImage(v, now) && cursor == Some(ReloadedCursor(v))
    {
      var from := Next(cursor);
      var events := Backlog(v.backlog, from);
      var first := |v.backlog.log| - |events|;
      var gap := false;
      if events != [] {
        gap := first > from;
      } else if v.probe.snap.Some? {
        gap := v.probe.snap.value.through >= from;
      }
      if gap {
        if v.snap.snap.None? {
          return Err(MissingSegment);
        }
        var loaded, ok := LoadSegments(v.snap.segments, v.snap.snap.value.segments);
        if !ok || !io {
          return Err(MissingSegment);
        }
        var through := v.snap.snap.value.through;
        events := Backlog(v.rest, through + 1);
        first := |v.rest.log| - |events|;
        if events != [] && first > through + 1 {
          return Err(MissingSegment);
        }
        image := loaded;
        cursor := Some(through);
      }
      var last := FoldBacklog(image, events, first, now);
      if last.Some? {
        cursor := last;
      }
      return Ok(());
    }
  }

  /** A rebuild succeeds when there is a loadable checkpoint and nothing behind it was purged. */
  predicate CanReload(v: Views) {
    && v.snap.snap.Some? && Base(v.snap).Some?
    && (Backlog(v.rest, Covered(v.snap)) != [] ==> v.rest.floor <= Covered(v.snap))
  }

  function ReloadedImage(v: Views, now: int): Tree
    requires CanReload(v)
  {
    Replay(Base(v.snap).value, Backlog(v.rest, Covered(v.snap)), now)
  }

  function ReloadedCursor(v: Views): nat
    requires CanReload(v)
  {
    if Backlog(v.rest, Covered(v.snap)) != [] then |v.rest.log| - 1 else v.snap.snap.value.through
  }

  /** The image and cursor a successful sync ends with. */
  ghost function Synced(nodes: Tree, cursor: Option<nat>, v: Views, now: int): (Tree, Option<nat>)
    requires Gap(v, Next(cursor)) ==> CanReload(v)
  {
    if Gap(v, Next(cursor)) then (ReloadedImage(v, now), Some(ReloadedCursor(v)))
    else
      var events := Backlog(v.backlog, Next(cursor));
      (Replay(nodes, events, now), if events == [] then cursor else Some(|v.backlog.log| - 1))
  }

  lemma ReplayFrom(nodes: Tree, log: seq<Event>, k: nat, now: int)
    requires k <= |log| && nodes == Replay(map[], log[..k], now)
    ensures Replay(nodes, log[k..], now) == Replay(map[], log, now)
  {
    ReplayConcat(map[], log[..k], log[k..], now);
    assert log[..k] + log[k..] == log;
  }

  lemma ReloadSafe(v: Views, now: int)
    requires Ordered(v, now) && CanReload(v)
    ensures InSync(ReloadedImage(v, now), Some(ReloadedCursor(v)), v.rest.log, now)
  {
    var k := Covered(v.snap);
    assert v.snap.log[..k] == v.rest.log[..k];
    if Backlog(v.rest, k) != [] {
      ReplayFrom(Base(v.snap).value, v.rest.log, k, now);
      assert v.rest.log[..|v.rest.log|] == v.rest.log;
    }
  }

  lemma CatchUpSafe(nodes: Tree, cursor: Option<nat>, s: Stream, now: int)
    requires InSync(nodes, cursor, s.log, now)
    requires Backlog(s, Next(cursor)) != [] ==> s.floor <= Next(cursor)
    ensures var events := Backlog(s, Next(cursor));
            InSync(Replay(nodes, events, now), if events == [] then cursor else Some(|s.log| - 1), s.log, now)
  {
    var from := Next(cursor);
    if Backlog(s, from) != [] {
      assert s.log[..0] == [];
      ReplayFrom(nodes, s.log, from, now);
      assert s.log[..|s.log|] == s.log;
    }
  }

  lemma InSyncGrows(nodes: Tree, cursor: Option<nat>, log: seq<Event>, log': seq<Event>, now: int)
    requires log <= log' && InSync(nodes, cursor, log, now)
    ensures InSync(nodes, cursor, log', now)
  {
    if cursor.Some? {
      assert log[..cursor.value + 1] == log'[..cursor.value + 1];
    }
  }

  /** Replica safety: whatever the writer does between the reads, a successful sync leaves the image at the replay
      of exactly the versions up to the cursor. */
  lemma SyncSafe(nodes: Tree, cursor: Option<nat>, v: Views, now: int)
    requires Ordered(v, now) && InSync(nodes, cursor, v.backlog.log, now)
    requires Gap(v, Next(cursor)) ==> CanReload(v)
    ensures var (nodes', cursor') := Synced(nodes, cursor, v, now);
            InSync(nodes', cursor', v.rest.log, now)
  {
    if Gap(v, Next(cursor)) {
      ReloadSafe(v, now);
    } else {
      CatchUpSafe(nodes, cursor, v.backlog, now);
      var (nodes', cursor') := Synced(nodes, cursor, v, now);
      InSyncGrows(nodes', cursor', v.backlog.log, v.rest.log, now);
    }
  }

  /** If retention never passes the newest checkpoint, the cursor never moves back. */
  lemma CursorNeverMovesBack(nodes: Tree, cursor: Option<nat>, v: Views, now: int)
    requires Ordered(v, now) && Retained(v.backlog)
    requires Gap(v, Next(cursor)) ==> CanReload(v)
    ensures Next(cursor) <= Next(Synced(nodes, cursor, v, now).1)
  {
  }

  /** On a settled stream whose retention respects the checkpoint, one sync reaches the tail. */
  lemma SyncConverges(nodes: Tree, cursor: Option<nat>, s: Stream, now: int)
    requires Sound(s, now) && Retained(s) && InSync(nodes, cursor, s.log, now)
    ensures var v := Views(s, s, s, s);
            && (Gap(v, Next(cursor)) ==> CanReload(v))
            && Synced(nodes, cursor, v, now) == (Replay(map[], s.log, now), Tail(s))
  {
    var v := Views(s, s, s, s);
    assert Ordered(v, now);
    SyncSafe(nodes, cursor, v, now);
    assert s.log[..|s.log|] == s.log;
    assert s.log[..0] == [];
  }

  // ---- replicas of a running volume ----

  lemma FaithfulIsSound(s: Stream, now: int)
    requires Faithful(s, now)
    ensures Sound(s, now) && Retained(s)
  {
  }

  /** Later moments of a run are later views of its stream. */
  lemma {:induction false} RunGrows(ops: seq<Op>, a: nat, b: nat, now: int)
    requires a <= b <= |ops| && Run(Fresh, ops[..b], now).Some?
    ensures Run(Fresh, ops[..a], now).Some?
    ensures Later(Run(Fresh, ops[..a], now).value, Run(Fresh, ops[..b], now).value)
    decreases b
  {
    if a < b {
      assert ops[..b][..b - 1] == ops[..b - 1];
      RunGrows(ops, a, b - 1, now);
      RunFaithful(ops[..b - 1], now);
      StepFaithful(Run(Fresh, ops[..b - 1], now).value, ops[b - 1], now);
    }
  }

  /** The reads of one sync, made at four moments of a run. */
  function ViewsAt(ops: seq<Op>, a: nat, b: nat, c: nat, d: nat, now: int): Option<Views>
    requires a <= b <= c <= d <= |ops|
  {
    var (x, y, z, w) :=
      (Run(Fresh, ops[..a], now), Run(Fresh, ops[..b], now), Run(Fresh, ops[..c], now), Run(Fresh, ops[..d], now));
    if x.Some? && y.Some? && z.Some? && w.Some? then Some(Views(x.value, y.value, z.value, w.value)) else None
  }

  lemma ViewSound(ops: seq<Op>, k: nat, now: int)
    requires k <= |ops| && Run(Fresh, ops[..k], now).Some?
    ensures Sound(Run(Fresh, ops[..k], now).value, now) && Retained(Run(Fresh, ops[..k], now).value)
  {
    RunFaithful(ops[..k], now);
    FaithfulIsSound(Run(Fresh, ops[..k], now).value, now);
  }

  lemma ViewsOrdered(ops: seq<Op>, a: nat, b: nat, c: nat, d: nat, now: int)
    requires a <= b <= c <= d <= |ops| && Run(Fresh, ops[..d], now).Some?
    ensures var v := ViewsAt(ops, a, b, c, d, now);
            v.Some? && Ordered(v.value, now) && Retained(v.value.backlog)
  {
    RunGrows(ops, c, d, now);
    RunGrows(ops, b, c, now);
    RunGrows(ops, a, b, now);
    ViewSound(ops, a, now);
    ViewSound(ops, b, now);
    ViewSound(ops, c, now);
    ViewSound(ops, d, now);
  }

  /** A replica of a running volume: at whichever moments of a run of commits, checkpoints and purges its reads fall, a
      sync that does not fail ends on the replay of exactly the versions up to its cursor, and never moves the cursor
      back. */
  lemma ReplicaFollowsRun(ops: seq<Op>, a: nat, b: nat, c: nat, d: nat, nodes: Tree, cursor: Option<nat>, now: int)
    requires a <= b <= c <= d <= |ops| && Run(Fresh, ops[..d], now).Some?
    requires ViewsAt(ops, a, b, c, d, now).Some?
    requires var v := ViewsAt(ops, a, b, c, d, now).value;
             InSync(nodes, cursor, v.backlog.log, now) && (Gap(v, Next(cursor)) ==> CanReload(v))
    ensures var v := ViewsAt(ops, a, b, c, d, now).value;
            var (nodes', cursor') := Synced(nodes, cursor, v, now);
            InSync(nodes', cursor', v.rest.log, now) && Next(cursor) <= Next(cursor')
  {
    var v := ViewsAt(ops, a, b, c, d, now).value;
    ViewsOrdered(ops, a, b, c, d, now);
    SyncSafe(nodes, cursor, v, now);
    CursorNeverMovesBack(nodes, cursor, v, now);
  }

  // ---- retention that leaves a hole ----

  /** With live forks pinning the first `pinned` versions, a purge below `floor` leaves a prefix and a suffix. The
      replica takes the fast path when the first readable version is the one it asked for. */
  function ReadWithHole(log: seq<Event>, from: nat, pinned: nat, floor: nat): seq<Event>
    requires from <= |log| && pinned <= floor <= |log|
  {
    if from < pinned then log[from..pinned] + log[floor..] else log[Max(from, floor)..]
  }

  function HoleCursor(log: seq<Event>, from: nat, pinned: nat, floor: nat): nat
    requires from <= |log| && pinned <= floor <= |log|
  {
    if from < pinned && floor == |log| then pinned else |log|
  }

  ghost predicate FastPathCorrect(log: seq<Event>, from: nat, pinned: nat, floor: nat, now: int)
    requires from <= |log| && pinned <= floor <= |log|
  {
    Replay(Replay(map[], log[..from], now), ReadWithHole(log, from, pinned, floor), now)
    == Replay(map[], log[..HoleCursor(log, from, pinned, floor)], now)
  }

  /** A stream of foreign events with one directory created at version `k`. */
  function OneDir(n: nat, k: nat): (r: seq<Event>)
    ensures |r| == n && forall i :: 0 <= i < n ==> r[i] == if i == k then Change(Mkdir("/d")) else Foreign
  {
    seq(n, i => if i == k then Change(Mkdir("/d")) else Foreign)
  }

  lemma {:induction false} ForeignOnly(base: Tree, events: seq<Event>, now: int)
    requires forall i :: 0 <= i < |events| ==> events[i] == Foreign
    ensures Replay(base, events, now) == base
  {
    if events != [] {
      ForeignOnly(base, events[..|events| - 1], now);
    }
  }

  lemma {:induction false} OneDirAppears(log: seq<Event>, k: nat, n: nat, now: int)
    requires k < n <= |log| && log == OneDir(|log|, k)
    ensures "/d" in Replay(map[], log[..n], now)
  {
    assert log[..n][..n - 1] == log[..n - 1];
    if n - 1 > k {
      OneDirAppears(log, k, n - 1, now);
    }
  }

  lemma HoleMissed(n: nat, from: nat, pinned: nat, floor: nat, now: int)
    requires from < pinned < floor < n
    ensures !FastPathCorrect(OneDir(n, pinned), from, pinned, floor, now)
  {
    var log := OneDir(n, pinned);
    ForeignOnly(map[], log[..from], now);
    ForeignOnly(map[], ReadWithHole(log, from, pinned, floor), now);
    OneDirAppears(log, pinned, n, now);
  }

  lemma NoHoleCorrect(log: seq<Event>, from: nat, pinned: nat, floor: nat, now: int)
    requires from <= |log| && pinned <= floor <= |log|
    requires from < pinned || floor <= from
    requires from >= pinned || pinned == floor || floor == |log|
    ensures FastPathCorrect(log, from, pinned, floor, now)
  {
    var read, stop := ReadWithHole(log, from, pinned, floor), HoleCursor(log, from, pinned, floor);
    ReplayConcat(map[], log[..from], read, now);
    assert log[..from] + read == log[..stop];
  }

  /** On a stream whose purge kept a pinned prefix, the fast path is right for every log exactly when the replica is
      past the pinned prefix, or nothing was purged, or nothing follows the hole. */
  lemma FastPathCorrectIff(n: nat, from: nat, pinned: nat, floor: nat, now: int)
    requires from <= n && pinned <= floor <= n
    requires from < pinned || floor <= from
    ensures (forall log: seq<Event> :: |log| == n ==> FastPathCorrect(log, from, pinned, floor, now))
            <==> from >= pinned || pinned == floor || floor == n
  {
    if from >= pinned || pinned == floor || floor == n {
      forall log: seq<Event> | |log| == n ensures FastPathCorrect(log, from, pinned, floor, now) {
        NoHoleCorrect(log, from, pinned, floor, now);
      }
    } else {
      HoleMissed(n, from, pinned, floor, now);
      assert |OneDir(n, pinned)| == n;
    }
  }
}
