/**
 Checkpoints that readers do not find. A manifest is published under the global sequence counter, which is shared by
 all streams and can move back; readers take the manifest with the greatest number. A hidden checkpoint is harmless by
 itself, because the next one folds everything behind the manifest that readers do find. Purging what it covers is
 not.
 */
module FsPublication {
  import opened Prelude
  import opened FsImage
  import opened FsVolume
  import FsReplica

  /** Mounting gives the replay of every event ever committed. */
  ghost predicate MountsRight(s: Stream, now: int) {
    MountImage(s, now) == Some(Replay(map[], s.log, now))
  }

  /** A stream of `n` events whose checkpoint covers the first `k`, with a directory created right behind it. */
  function DirBehind(n: nat, k: nat, key: nat): Stream {
    Stream(FsReplica.OneDir(n, k), 0, if k == 0 then None else Some(Snapshot([], k - 1, key)), None, map[], map[])
  }

  lemma {:induction false} DirBehindFaithful(n: nat, k: nat, key: nat, now: int)
    requires k <= n
    ensures Faithful(DirBehind(n, k, key), now) && Covered(DirBehind(n, k, key)) == k
  {
    var s := DirBehind(n, k, key);
    FsReplica.ForeignOnly(map[], s.log[..k], now);
  }

  lemma PurgedDirIsLost(n: nat, k: nat, key: nat, floor: nat, now: int)
    requires k < n && k < floor
    ensures !MountsRight(DirBehind(n, k, key).(floor := floor), now)
  {
    var s := DirBehind(n, k, key).(floor := floor);
    FsReplica.ForeignOnly(map[], Backlog(s, k), now);
    FsReplica.OneDirAppears(s.log, k, n, now);
    assert s.log[..n] == s.log;
  }

  lemma {:induction false} PurgedRight(s: Stream, floor: nat, now: int)
    requires Faithful(s, now) && (floor <= Covered(s) || Covered(s) == |s.log|)
    ensures MountsRight(s.(floor := floor), now)
  {
    FaithfulMounts(s, now);
    assert Backlog(s.(floor := floor), Covered(s)) == Backlog(s, Covered(s));
  }

  /** A purge is harmless for every stream whose readers find a checkpoint of the first `k` out of `n` versions if and
      only if it stays below that checkpoint or there is nothing behind it. */
  lemma PurgeSafeIff(n: nat, k: nat, floor: nat, now: int)
    requires k <= n
    ensures (forall s: Stream :: Faithful(s, now) && |s.log| == n && Covered(s) == k ==>
             MountsRight(s.(floor := floor), now))
            <==> floor <= k || k == n
  {
    if floor <= k || k == n {
      forall s: Stream | Faithful(s, now) && |s.log| == n && Covered(s) == k
        ensures MountsRight(s.(floor := floor), now) {
        PurgedRight(s, floor, now);
      }
    } else {
      DirBehindFaithful(n, k, 0, now);
      PurgedDirIsLost(n, k, 0, floor, now);
    }
  }

  /** A checkpoint of the whole stream under `key`, followed by a purge of what it covers. */
  function CheckpointAndPurge(s: Stream, path: string, key: nat, now: int): Stream
    requires Base(s).Some? && s.log != []
  {
    Sealed(s, path, |s.log| - 1, key, now).(floor := |s.log|)
  }

  /** Readers find a checkpoint of the first `k` of `n` versions, published under `latest`. */
  ghost predicate Checkpointed(s: Stream, n: nat, k: nat, latest: nat, now: int) {
    Faithful(s, now) && |s.log| == n && s.snap.Some? && s.snap.value.through + 1 == k && s.snap.value.key == latest
  }

  /** With a checkpoint published under `latest`, covering the first `k` of `n` versions: checkpointing the rest under
      `key` and then purging what was checkpointed is harmless for every such stream if and only if `key` is not below
      `latest`. */
  lemma PurgeBehindCheckpointIff(n: nat, k: nat, latest: nat, key: nat, path: string, now: int)
    requires 0 < k < n
    ensures (forall s: Stream ::
               Checkpointed(s, n, k, latest, now) && path !in s.segments ==>
                 MountsRight(CheckpointAndPurge(s, path, key, now), now))
            <==> latest <= key
  {
    if latest <= key {
      forall s: Stream | Checkpointed(s, n, k, latest, now) && path !in s.segments
        ensures MountsRight(CheckpointAndPurge(s, path, key, now), now)
      {
        CheckpointFaithful(s, path, key, now);
        PurgedRight(Sealed(s, path, |s.log| - 1, key, now), |s.log|, now);
      }
    } else {
      var s := DirBehind(n, k, latest);
      DirBehindFaithful(n, k, latest, now);
      HiddenPurgeLoses(s, path, key, now);
      FsReplica.ForeignOnly(map[], Backlog(s.(floor := n), k), now);
      FsReplica.OneDirAppears(s.log, k, n, now);
      assert s.log[..n] == s.log;
    }
  }

  /** Behind a hidden checkpoint a mount after the purge sees only what the old manifest covers. */
  lemma HiddenPurgeLoses(s: Stream, path: string, key: nat, now: int)
    requires Base(s).Some? && s.log != [] && path !in s.segments && !Newest(s, key) && Covered(s) <= |s.log|
    ensures MountImage(CheckpointAndPurge(s, path, key, now), now) == Base(s)
  {
    OrphanKeepsBase(s, path, Uploaded(s, path, now).segments[path]);
    assert Backlog(CheckpointAndPurge(s, path, key, now), Covered(s)) == [];
  }

  lemma RunSnoc(ops: seq<Op>, op: Op, s: Stream, now: int) returns (after: Stream)
    requires Run(Fresh, ops, now) == Some(s) && Faithful(s, now) && Allowed(s, op)
    ensures after == Step(s, op, now) && Run(Fresh, ops + [op], now) == Some(after) && Faithful(after, now)
  {
    after := Step(s, op, now);
    assert (ops + [op])[..|ops|] == ops;
    StepFaithful(s, op, now);
  }

  /** A commit, a checkpoint, another commit and a checkpoint under a smaller number. */
  function HidingRun(first: nat, second: nat): seq<Op> {
    [Append([Foreign])] + [Checkpoint("one", first)] + [Append([Change(Mkdir("/d"))])] + [Checkpoint("two", second)]
  }

  lemma CheckpointShape(s: Stream, path: string, key: nat, now: int)
    requires Faithful(s, now) && Allowed(s, Checkpoint(path, key)) && Newest(s, key)
    ensures var s' := Step(s, Checkpoint(path, key), now);
            && s'.snap.Some? && s'.snap.value.through == |s.log| - 1 && s'.snap.value.key == key
            && s'.log == s.log && s'.segments.Keys == s.segments.Keys + {path}
  {
  }

  lemma {:induction false} FirstCheckpoint(first: nat, now: int) returns (s: Stream)
    ensures Run(Fresh, [Append([Foreign])] + [Checkpoint("one", first)], now) == Some(s) && Faithful(s, now)
    ensures Covered(s) == 1 && s.snap.value.key == first && s.log == [Foreign] && s.segments.Keys == {"one"}
  {
    assert Fresh.log + [Foreign] == [Foreign];
    assert [] + [Append([Foreign])] == [Append([Foreign])];
    var s1 := RunSnoc([], Append([Foreign]), Fresh, now);
    s := RunSnoc([Append([Foreign])], Checkpoint("one", first), s1, now);
    CheckpointShape(s1, "one", first, now);
  }

  lemma {:induction false} HidingState(first: nat, second: nat, now: int) returns (s: Stream)
    requires second < first
    ensures Run(Fresh, HidingRun(first, second), now) == Some(s) && Faithful(s, now)
    ensures Covered(s) == 1 && s.log == [Foreign, Change(Mkdir("/d"))]
  {
    var s2 := FirstCheckpoint(first, now);
    var s3 := RunSnoc([Append([Foreign])] + [Checkpoint("one", first)], Append([Change(Mkdir("/d"))]), s2, now);
    assert s3.log == [Foreign, Change(Mkdir("/d"))];
    s := RunSnoc([Append([Foreign])] + [Checkpoint("one", first)] + [Append([Change(Mkdir("/d"))])],
                 Checkpoint("two", second), s3, now);
  }

  /** Any two numbers in the wrong order will do: the volume still mounts right, and after a purge of what the second
      checkpoint covered the directory is gone. */
  lemma HiddenCheckpointLosesInRun(first: nat, second: nat, now: int)
    requires second < first
    ensures Run(Fresh, HidingRun(first, second), now).Some?
    ensures var s := Run(Fresh, HidingRun(first, second), now).value;
            && |s.log| == 2 && MountsRight(s, now) && "/d" in Replay(map[], s.log, now)
            && MountImage(s.(floor := 2), now) == Some(map[])
  {
    var s := HidingState(first, second, now);
    FaithfulMounts(s, now);
    assert s.log == FsReplica.OneDir(2, 1);
    FsReplica.OneDirAppears(s.log, 1, 2, now);
    assert s.log[..2] == s.log;
    assert Backlog(s.(floor := 2), 1) == [];
    FsReplica.ForeignOnly(map[], s.log[..1], now);
  }
}
