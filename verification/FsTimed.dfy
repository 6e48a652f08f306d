/** Volume runs in which every commit, checkpoint and mount reads its own clock. */
module FsTimed {
  import opened Prelude
  import opened FsImage
  import opened FsSegment
  import opened FsVolume
  import opened FsClock

  /** An operation and the time at which it runs. */
  datatype Timed = Timed(op: Op, now: int)

  function RunTimed(ops: seq<Timed>): Option<Stream> {
    if ops == [] then Some(Fresh)
    else
      var before := RunTimed(ops[..|ops| - 1]);
      var last := ops[|ops| - 1];
      if before.Some? && Base(before.value).Some? && Allowed(before.value, last.op)
      then Some(Step(before.value, last.op, last.now)) else None
  }

  lemma {:induction false} ReplayUntimedFrom(a: Tree, b: Tree, events: seq<Event>, now: int, now': int)
    requires Untimed(a) == Untimed(b)
    ensures Untimed(Replay(a, events, now)) == Untimed(Replay(b, events, now'))
  {
    if events != [] {
      var n := |events| - 1;
      ReplayUntimedFrom(a, b, events[..n], now, now');
      if events[n].Change? {
        ApplyUntimed(Replay(a, events[..n], now), Replay(b, events[..n], now'), events[n].delta, now, now');
      }
    }
  }

  /** The manifest loads to the replay of the versions it covers, up to modification times. */
  ghost predicate FaithfulUntimed(s: Stream) {
    && s.floor <= Covered(s) <= |s.log| && UntangledEvents(s.log)
    && Base(s).Some? && Untimed(Base(s).value) == Untimed(Replay(map[], s.log[..Covered(s)], 0))
  }

  /** A base that is right up to times, and the rest of the log replayed on it. */
  lemma RestUntimed(base: Tree, log: seq<Event>, k: nat, now: int)
    requires k <= |log| && Untimed(base) == Untimed(Replay(map[], log[..k], 0))
    ensures Untimed(Replay(base, log[k..], now)) == Untimed(Replay(map[], log, 0))
  {
    ReplayUntimedFrom(base, Replay(map[], log[..k], 0), log[k..], now, 0);
    ReplayConcat(map[], log[..k], log[k..], 0);
    assert log[..k] + log[k..] == log;
  }

  lemma SealedUntimed(s: Stream, path: string, key: nat, now: int)
    requires FaithfulUntimed(s) && s.log != [] && path !in s.segments && Newest(s, key)
    ensures FaithfulUntimed(Sealed(s, path, |s.log| - 1, key, now))
  {
    var sealed := Sealed(s, path, |s.log| - 1, key, now);
    assert sealed.floor == s.floor && sealed.log == s.log && Covered(sealed) == |s.log|;
    SealedBase(s, path, |s.log| - 1, key, now);
    assert Backlog(s, Covered(s)) == s.log[Covered(s)..];
    MergedUntimed(Base(s).value, s.log, Covered(s), now);
    assert s.log[..|s.log|] == s.log;
  }

  /** Sealing the rest of the log onto such a base. */
  lemma MergedUntimed(base: Tree, log: seq<Event>, k: nat, now: int)
    requires k <= |log| && UntangledEvents(log) && Untimed(base) == Untimed(Replay(map[], log[..k], 0))
    ensures Untimed(MergeSegment(base, FoldEvents(Fold(map[], base), log[k..], now).entries))
         == Untimed(Replay(map[], log, 0))
  {
    assert UntangledEvents(log[k..]);
    SegmentSound(base, log[k..], now);
    RestUntimed(base, log, k, now);
  }

  lemma StepUntimed(s: Stream, op: Op, now: int)
    requires FaithfulUntimed(s) && Allowed(s, op)
    ensures FaithfulUntimed(Step(s, op, now))
  {
    match op
    case Append(events) =>
      assert (s.log + events)[..Covered(s)] == s.log[..Covered(s)];
    case Checkpoint(path, key) =>
      if Newest(s, key) {
        SealedUntimed(s, path, key, now);
      } else {
        OrphanKeepsBase(s, path, Uploaded(s, path, now).segments[path]);
      }
    case Orphan(path, entries) => OrphanKeepsBase(s, path, entries);
    case Purge(_) =>
  }

  lemma {:induction false} RunUntimed(ops: seq<Timed>)
    requires RunTimed(ops).Some?
    ensures FaithfulUntimed(RunTimed(ops).value)
  {
    if ops != [] {
      RunUntimed(ops[..|ops| - 1]);
      StepUntimed(RunTimed(ops[..|ops| - 1]).value, ops[|ops| - 1].op, ops[|ops| - 1].now);
    }
  }

  /** Mount equals replay, with a clock for every operation: after every run of commits, checkpoints, failed
      publications and purges, each at its own time, mounting at yet another time gives the image of replaying every
      event ever committed, at any time at all, up to modification times. */
  lemma MountEqualsReplayTimed(ops: seq<Timed>, mounted: int, replayed: int)
    requires RunTimed(ops).Some?
    ensures var s := RunTimed(ops).value;
            MountImage(s, mounted).Some?
              && Untimed(MountImage(s, mounted).value) == Untimed(Replay(map[], s.log, replayed))
  {
    RunUntimed(ops);
    var s := RunTimed(ops).value;
    assert Backlog(s, Covered(s)) == s.log[Covered(s)..];
    RestUntimed(Base(s).value, s.log, Covered(s), mounted);
    ReplayUntimed(s.log, 0, replayed);
  }
}
