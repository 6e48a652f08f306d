/**
 Publishing a snapshot is a transaction like any other: it draws a number from the global counter and puts the snapshot
 under it. Readers take the greatest number, so a publication that drew a smaller one than an earlier publication of the
 same stream is never found.
 */
module Publication {
  import opened Prelude
  import opened Transactions
  import opened Interleaving
  import opened Sequences
  import Rehydrate

  function SnapNumbers(db: Db, stream: string): set<nat> {
    set k | k in db && k.SnapKey? && k.stream == stream && db[k].SnapV? :: k.seqNo
  }

  /** The snapshots of a stream by the number in their keys. */
  function Published(db: Db, stream: string): (r: map<nat, Rehydrate.Snapshot>)
    ensures forall n: nat :: n in r <==> SnapKey(stream, n) in db && db[SnapKey(stream, n)].SnapV?
    ensures forall n: nat :: n in r ==>
              r[n] == Rehydrate.Snapshot(db[SnapKey(stream, n)].through, db[SnapKey(stream, n)].state)
  {
    map n | n in SnapNumbers(db, stream) ::
      Rehydrate.Snapshot(db[SnapKey(stream, n)].through, db[SnapKey(stream, n)].state)
  }

  predicate Greatest(snapshots: map<nat, Rehydrate.Snapshot>, n: nat) {
    n in snapshots && forall k :: k in snapshots ==> k <= n
  }

  lemma LatestIsGreatest(snapshots: map<nat, Rehydrate.Snapshot>, n: nat)
    requires Greatest(snapshots, n)
    ensures Rehydrate.Latest(snapshots) == Some(snapshots[n])
  {
    var m: nat :| m in snapshots && Rehydrate.Latest(snapshots) == Some(snapshots[m]) && forall k :: k in snapshots ==>
      k <= m;
    assert m <= n <= m;
  }

  function LatestSnapshot(db: Db, stream: string): Option<Rehydrate.Snapshot> {
    Rehydrate.Latest(Published(db, stream))
  }

  // ---- one publication ----

  function Announce(stream: string, snapshot: Rehydrate.Snapshot): seq<Op> {
    [Publish(stream, snapshot.through, snapshot.state)]
  }

  /** What a publication on its own writes. */
  function AnnounceEffect(seqNo: nat, stream: string, snapshot: Rehydrate.Snapshot): Effect {
    Effect(map[SnapKey(stream, seqNo + 1) := Some(SnapV(snapshot.through, snapshot.state))], seqNo + 1)
  }

  lemma AnnounceRuns(db: Db, seqNo: nat, stream: string, snapshot: Rehydrate.Snapshot)
    ensures ExecuteAll(db, seqNo, Announce(stream, snapshot)) == Ok(AnnounceEffect(seqNo, stream, snapshot))
  {
    var ops := Announce(stream, snapshot);
    assert ops[..0] == [];
    assert ExecuteAll(db, seqNo, ops[..0]) == Ok(Effect(map[], seqNo));
    var e := AnnounceEffect(seqNo, stream, snapshot);
    assert map[] + e.writes == e.writes;
  }

  /** A committed publication is one more snapshot under the number its own snapshot of the store gave it. */
  lemma PublishedAfter(s: System, id: nat, stream: string, snapshot: Rehydrate.Snapshot)
    requires id in s.open && s.open[id].ops == Announce(stream, snapshot) && s.open[id].sequenced
             && Commits(s, s.open[id])
    ensures Published(Next(s, Finish(id)).db, stream)
            == Published(s.db, stream)[SeqOf(s.open[id].snapshot) + 1 := snapshot]
    ensures SeqOf(Next(s, Finish(id)).db) == SeqOf(s.open[id].snapshot) + 1
  {
    FinishedDb(s, id, stream, snapshot);
    AnnouncedAs(Next(s, Finish(id)).db, s.db, s.open[id], SeqOf(s.open[id].snapshot), stream, snapshot);
  }

  lemma AnnouncedAs(db': Db, db: Db, t: Txn, seqNo: nat, stream: string, snapshot: Rehydrate.Snapshot)
    requires t.sequenced && db' == Committed(db, t, AnnounceEffect(seqNo, stream, snapshot))
    ensures Published(db', stream) == Published(db, stream)[seqNo + 1 := snapshot] && SeqOf(db') == seqNo + 1
  {
    AnnouncedDb(db, t, seqNo, stream, snapshot);
  }

  /** The store behind a committed publication. */
  lemma FinishedDb(s: System, id: nat, stream: string, snapshot: Rehydrate.Snapshot)
    requires id in s.open && s.open[id].ops == Announce(stream, snapshot) && Commits(s, s.open[id])
    ensures Next(s, Finish(id)).db
            == Committed(s.db, s.open[id], AnnounceEffect(SeqOf(s.open[id].snapshot), stream, snapshot))
  {
    var t := s.open[id];
    AnnounceRuns(t.snapshot, SeqOf(t.snapshot), stream, snapshot);
    assert Outcome(t) == Ok(AnnounceEffect(SeqOf(t.snapshot), stream, snapshot));
  }

  lemma AnnouncedDb(db: Db, t: Txn, seqNo: nat, stream: string, snapshot: Rehydrate.Snapshot)
    requires t.sequenced
    ensures var db' := Committed(db, t, AnnounceEffect(seqNo, stream, snapshot));
            Published(db', stream) == Published(db, stream)[seqNo + 1 := snapshot] && SeqOf(db') == seqNo + 1
  {
    var db' := Committed(db, t, AnnounceEffect(seqNo, stream, snapshot));
    assert Get(db', SeqKey) == Some(SeqV(seqNo + 1));
    forall k: nat
      ensures Get(db', SnapKey(stream, k))
           == if k == seqNo + 1 then Some(SnapV(snapshot.through, snapshot.state)) else Get(db, SnapKey(stream, k))
    {
    }
    OneMorePublished(db', db, stream, seqNo + 1, snapshot);
  }

  lemma OneMorePublished(db': Db, db: Db, stream: string, n: nat, snapshot: Rehydrate.Snapshot)
    requires forall k: nat :: Get(db', SnapKey(stream, k))
                          == if k == n then Some(SnapV(snapshot.through, snapshot.state))
                            else Get(db, SnapKey(stream, k))
    ensures Published(db', stream) == Published(db, stream)[n := snapshot]
  {
    var a, b := Published(db', stream), Published(db, stream)[n := snapshot];
    forall k: nat ensures (k in a <==> k in b) && (k in a ==> a[k] == b[k]) {
      assert Get(db', SnapKey(stream, k)) == if k == n then Some(SnapV(snapshot.through, snapshot.state))
             else Get(db, SnapKey(stream, k));
    }
  }

  /** The newest publication is the one readers find if and only if no earlier publication of the stream drew a greater
      number than the counter of this one's store gave it; otherwise readers keep finding what they found before. */
  lemma NewestIsLatestIff(s: System, id: nat, stream: string, snapshot: Rehydrate.Snapshot)
    requires id in s.open && s.open[id].ops == Announce(stream, snapshot) && s.open[id].sequenced
             && Commits(s, s.open[id])
    ensures var n, db' := SeqOf(s.open[id].snapshot) + 1, Next(s, Finish(id)).db;
            var newest := forall k :: k in Published(s.db, stream) ==> k <= n;
            && (Greatest(Published(db', stream), n) <==> newest)
            && LatestSnapshot(db', stream) == if newest then Some(snapshot) else LatestSnapshot(s.db, stream)
  {
    PublishedAfter(s, id, stream, snapshot);
    OneMoreLatest(Published(s.db, stream), SeqOf(s.open[id].snapshot) + 1, snapshot);
  }

  /** One more snapshot is the latest exactly if no key is above it. */
  lemma OneMoreLatest(before: map<nat, Rehydrate.Snapshot>, n: nat, snapshot: Rehydrate.Snapshot)
    ensures var newest := forall k :: k in before ==> k <= n;
            && (Greatest(before[n := snapshot], n) <==> newest)
            && Rehydrate.Latest(before[n := snapshot]) == if newest then Some(snapshot) else Rehydrate.Latest(before)
  {
    var after := before[n := snapshot];
    if forall k :: k in before ==> k <= n {
      LatestIsGreatest(after, n);
    } else {
      var m: nat :| m in before && Rehydrate.Latest(before) == Some(before[m]) && forall k :: k in before ==> k <= m;
      LatestIsGreatest(after, m);
    }
  }

  // ---- serial runs ----

  /** When transactions do not overlap, the newest publication is always the one readers find. */
  lemma SerialPublicationIsFound(jobs: seq<Job>, stream: string, snapshot: Rehydrate.Snapshot)
    requires forall i :: 0 <= i < |jobs| ==> Stamped(jobs[i])
    ensures Run(Serial(jobs)).Some?
    ensures var s := Run(Serial(jobs)).value;
            && Allowed(s, Begin(0, Announce(stream, snapshot), true))
            && var end := Next(Next(s, Begin(0, Announce(stream, snapshot), true)), Finish(0));
            LatestSnapshot(end.db, stream) == Some(snapshot)
  {
    SerialSettled(jobs);
    var s := Run(Serial(jobs)).value;
    var s1 := Next(s, Begin(0, Announce(stream, snapshot), true));
    AnnounceRuns(s.db, SeqOf(s.db), stream, snapshot);
    NewestIsLatestIff(s1, 0, stream, snapshot);
  }

  // ---- a run in which a publication stays hidden ----

  /** What a publication that runs on its own leaves. */
  ghost predicate Announced(s: System, end: System, stream: string, snapshot: Rehydrate.Snapshot) {
    && end.open == s.open && Clocked(end) && SeqOf(end.db) == SeqOf(s.db) + 1
    && Published(end.db, stream) == Published(s.db, stream)[SeqOf(s.db) + 1 := snapshot]
    && OnlyStamped(s, end, stream)
  }

  /** Only keys of the stream were written in between. */
  ghost predicate OnlyStamped(s: System, end: System, stream: string) {
    forall k :: k in end.stamps ==> (k in s.stamps && end.stamps[k] == s.stamps[k]) || OfStream(k, stream)
  }

  lemma AnnounceStamps(s: System, id: nat, stream: string, snapshot: Rehydrate.Snapshot)
    requires id in s.open && Clocked(s) && Commits(s, s.open[id])
    requires Outcome(s.open[id]) == Ok(AnnounceEffect(SeqOf(s.open[id].snapshot), stream, snapshot))
    ensures Clocked(Next(s, Finish(id))) && OnlyStamped(s, Next(s, Finish(id)), stream)
  {
  }

  lemma AnnounceUncontested(s: System, id: nat, stream: string, snapshot: Rehydrate.Snapshot)
    requires id in s.open && Clocked(s) && s.open[id].begun == s.clock && s.open[id].ops == Announce(stream, snapshot)
    ensures Commits(s, s.open[id])
            && Outcome(s.open[id]) == Ok(AnnounceEffect(SeqOf(s.open[id].snapshot), stream, snapshot))
  {
    AnnounceRuns(s.open[id].snapshot, SeqOf(s.open[id].snapshot), stream, snapshot);
  }

  lemma AnnounceCommits(s: System, id: nat, stream: string, snapshot: Rehydrate.Snapshot)
    requires id !in s.open && Clocked(s)
    ensures var s1 := Next(s, Begin(id, Announce(stream, snapshot), true));
            Commits(s1, s1.open[id]) && Announced(s, Next(s1, Finish(id)), stream, snapshot)
  {
    var s1 := Next(s, Begin(id, Announce(stream, snapshot), true));
    AnnounceUncontested(s1, id, stream, snapshot);
    AnnounceStamps(s1, id, stream, snapshot);
    PublishedAfter(s1, id, stream, snapshot);
    Reopened(s, id, s1.open[id]);
  }

  lemma Reopened(s: System, id: nat, t: Txn)
    requires id !in s.open
    ensures s.open[id := t] - {id} == s.open
  {
  }

  lemma AnnounceAlone(
    s: System, steps: seq<Step>, id: nat, stream: string, snapshot: Rehydrate.Snapshot) returns (end: System)
    requires Run(steps) == Some(s) && id !in s.open && Clocked(s)
    ensures Run(steps + [Begin(id, Announce(stream, snapshot), true)] + [Finish(id)]) == Some(end)
    ensures Announced(s, end, stream, snapshot)
    ensures var newest := forall k :: k in Published(s.db, stream) ==> k <= SeqOf(s.db) + 1;
            LatestSnapshot(end.db, stream) == if newest then Some(snapshot) else LatestSnapshot(s.db, stream)
  {
    var begin := Begin(id, Announce(stream, snapshot), true);
    var s1 := Next(s, begin);
    end := Next(s1, Finish(id));
    RunSteps(s, steps, begin);
    RunSteps(s1, steps + [begin], Finish(id));
    AnnounceCommits(s, id, stream, snapshot);
    NewestIsLatestIff(s1, id, stream, snapshot);
  }

  /** An append to one stream leaves the snapshots of another alone. */
  lemma OneKeepsPublished(s: System, id: nat, b: string, ys: seq<NewEvent>, a: string)
    requires a != b && id in s.open && s.open[id].ops == One(b, ys) && Good(ys) && Commits(s, s.open[id])
    ensures Published(Next(s, Finish(id)).db, a) == Published(s.db, a)
  {
    forall n: nat ensures Get(Next(s, Finish(id)).db, SnapKey(a, n)) == Get(s.db, SnapKey(a, n)) {
      OneKeepsOthers(s, id, b, ys, SnapKey(a, n));
    }
    SamePublished(Next(s, Finish(id)).db, s.db, a);
  }

  lemma SamePublished(db': Db, db: Db, stream: string)
    requires forall n: nat :: Get(db', SnapKey(stream, n)) == Get(db, SnapKey(stream, n))
    ensures Published(db', stream) == Published(db, stream)
  {
    var a, b := Published(db', stream), Published(db, stream);
    forall k: nat ensures (k in a <==> k in b) && (k in a ==> a[k] == b[k]) {
      assert Get(db', SnapKey(stream, k)) == Get(db, SnapKey(stream, k));
    }
  }

  /** While an append to `b` is open, `a` grows and is checkpointed. */
  lemma {:induction false} FirstFound(
    a: string, xs: seq<NewEvent>, b: string, ys: seq<NewEvent>, first: Rehydrate.Snapshot)
    returns (steps: seq<Step>, s: System)
    requires a != b && Good(xs) && Good(ys)
    ensures Run(steps) == Some(s) && s.open == map[0 := Txn(One(b, ys), true, 0, map[])] && Clocked(s)
            && Undisturbed(s, s.open[0], b)
    ensures |xs| + 1 in Published(s.db, a) && LatestSnapshot(s.db, a) == Some(first)
  {
    var front, s0 := OverlapOpen(a, xs, b, ys);
    steps, s := FirstAnnounced(front, s0, a, |xs| + 1, b, ys, first);
  }

  lemma {:induction false} FirstAnnounced(
    front: seq<Step>, s0: System, a: string, n: nat, b: string, ys: seq<NewEvent>, first: Rehydrate.Snapshot)
    returns (steps: seq<Step>, s: System)
    requires a != b && Run(front) == Some(s0) && s0.open == map[0 := Txn(One(b, ys), true, 0, map[])] && Clocked(s0)
    requires Undisturbed(s0, s0.open[0], b) && SeqOf(s0.db) + 1 == n && Published(s0.db, a) == map[]
    ensures Run(steps) == Some(s) && s.open == s0.open && Clocked(s) && Undisturbed(s, s.open[0], b)
    ensures n in Published(s.db, a) && LatestSnapshot(s.db, a) == Some(first)
  {
    s := AnnounceAlone(s0, front, 1, a, first);
    steps := front + [Begin(1, Announce(a, first), true)] + [Finish(1)];
  }

  lemma OverlapOpen(a: string, xs: seq<NewEvent>, b: string, ys: seq<NewEvent>) returns (steps: seq<Step>, s: System)
    requires a != b && Good(xs) && Good(ys)
    ensures Run(steps) == Some(s) && s.open == map[0 := Txn(One(b, ys), true, 0, map[])] && Clocked(s)
    ensures Undisturbed(s, s.open[0], b) && SeqOf(s.db) == |xs| && Published(s.db, a) == map[]
  {
    OverlapRuns(a, xs, b, ys);
    steps := Overlap(a, xs, b, ys);
    s := Run(steps).value;
    NoSnapshots(a, xs);
  }

  /** The append finishes and takes the counter back. */
  lemma {:induction false} CounterBack(
    steps: seq<Step>, s: System, a: string, b: string, ys: seq<NewEvent>) returns (s': System)
    requires a != b && Good(ys) && Run(steps) == Some(s) && Clocked(s)
    requires s.open == map[0 := Txn(One(b, ys), true, 0, map[])] && Undisturbed(s, s.open[0], b)
    ensures Run(steps + [Finish(0)]) == Some(s') && s'.open == map[] && Clocked(s') && SeqOf(s'.db) == |ys|
    ensures Published(s'.db, a) == Published(s.db, a)
  {
    s' := Next(s, Finish(0));
    OneCommits(s, 0, b, ys);
    OneKeepsPublished(s, 0, b, ys, a);
    RunSteps(s, steps, Finish(0));
    assert s.open - {0} == map[];
  }

  lemma NoSnapshots(a: string, xs: seq<NewEvent>)
    requires Good(xs)
    ensures var none: Db := map[];
            Published(Committed(none, Txn(One(a, xs), true, 0, none), AppendEffect(none, 0, a, xs, false)), a) == map[]
  {
    var none: Db := map[];
    var e := AppendEffect(none, 0, a, xs, false);
    EventWritesAt(a, 0, 1, 0, xs, false, |xs|);
    var db := Committed(none, Txn(One(a, xs), true, 0, none), e);
    forall n: nat ensures Get(db, SnapKey(a, n)) == None {
    }
    var p := Published(db, a);
    forall n: nat ensures n !in p {
      assert Get(db, SnapKey(a, n)) == None;
    }
    assert p.Keys == {};
  }

  lemma {:induction false} FirstBehind(
    a: string, xs: seq<NewEvent>, b: string, ys: seq<NewEvent>, first: Rehydrate.Snapshot)
    returns (steps: seq<Step>, s: System)
    requires a != b && Good(xs) && Good(ys)
    ensures Run(steps) == Some(s) && s.open == map[] && Clocked(s) && SeqOf(s.db) == |ys|
    ensures |xs| + 1 in Published(s.db, a) && LatestSnapshot(s.db, a) == Some(first)
  {
    var front, s0 := FirstFound(a, xs, b, ys, first);
    s := CounterBack(front, s0, a, b, ys);
    steps := front + [Finish(0)];
  }

  lemma {:induction false} SecondHidden(
    front: seq<Step>, s: System, a: string, m: nat, n: nat, second: Rehydrate.Snapshot)
    returns (steps: seq<Step>, end: System)
    requires Run(front) == Some(s) && s.open == map[] && Clocked(s) && SeqOf(s.db) + 1 == m && m < n
             && n in Published(s.db, a)
    ensures Run(steps) == Some(end) && end.open == map[]
    ensures m in Published(end.db, a) && Published(end.db, a)[m] == second
    ensures LatestSnapshot(end.db, a) == LatestSnapshot(s.db, a)
  {
    end := AnnounceAlone(s, front, 1, a, second);
    steps := front + [Begin(1, Announce(a, second), true)] + [Finish(1)];
  }

  /** A run from the start: `a` is checkpointed, an append to `b` that began earlier finishes and takes the counter
      back, `a` is checkpointed again, and readers still find the first checkpoint. */
  lemma {:induction false} HiddenPublicationInRun(
    a: string, xs: seq<NewEvent>, b: string, ys: seq<NewEvent>, first: Rehydrate.Snapshot, second: Rehydrate.Snapshot)
    returns (steps: seq<Step>, end: System)
    requires a != b && Good(xs) && Good(ys) && |ys| < |xs|
    ensures Run(steps) == Some(end) && end.open == map[]
    ensures |ys| + 1 in Published(end.db, a) && Published(end.db, a)[|ys| + 1] == second
    ensures LatestSnapshot(end.db, a) == Some(first)
  {
    var front, s := FirstBehind(a, xs, b, ys, first);
    steps, end := SecondHidden(front, s, a, |ys| + 1, |xs| + 1, second);
  }
}
