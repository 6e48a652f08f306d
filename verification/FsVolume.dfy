/**
 The volume life cycle over one event stream: mounting from the newest manifest plus the backlog, committing
 batches, sealing checkpoints, and retention. The stream, the segment objects and the block objects are one
 value, `Stream`; a store holds it and a `Volume` is the write handle.
 */
module FsVolume {
  import opened Prelude
  import opened FsImage
  import opened FsSegment
  import opened FsBlocks
  import opened FsUpgrade
  import opened FsCommit
  import opened FsRetry

  /** A published manifest: segment paths in order, the last version they cover, and the sequence number it was
      published under. Readers take the one with the greatest number. */
  datatype Snapshot = Snapshot(segments: seq<string>, through: nat, key: nat)

  /** `log` is every event ever committed, the index being its version; versions below `floor` are purged; `snap` is the
      manifest that readers find. */
  datatype Stream = Stream(
    log: seq<Event>, floor: nat, snap: Option<Snapshot>, fence: Option<string>,
    segments: map<string, Entries>, blocks: BlockStore)

  const Fresh := Stream([], 0, None, None, map[], map[])

  datatype Error = FenceMismatch | VersionConflict | Rejected | NothingToCheckpoint | MissingSegment | BucketFailed
    | NotPublished

  function Tail(s: Stream): Option<nat> {
    if s.log == [] then None else Some(|s.log| - 1)
  }

  /** The first version no segment covers. */
  function Covered(s: Stream): nat {
    if s.snap.Some? then s.snap.value.through + 1 else 0
  }

  /** Reading `from..`: the retained events at or after `from`. */
  function Backlog(s: Stream, from: nat): seq<Event> {
    var first := Max(from, s.floor);
    if first <= |s.log| then s.log[first..] else []
  }

  /** Loading a manifest: its segments merged in order onto the empty image. */
  function LoadTree(objects: map<string, Entries>, paths: seq<string>): Option<Tree> {
    if paths == [] then Some(map[])
    else
      var before := LoadTree(objects, paths[..|paths| - 1]);
      var last := paths[|paths| - 1];
      if before.Some? && last in objects then Some(MergeSegment(before.value, objects[last])) else None
  }

  function Base(s: Stream): Option<Tree> {
    if s.snap.Some? then LoadTree(s.segments, s.snap.value.segments) else Some(map[])
  }

  /** The image a mount reconstructs. */
  function MountImage(s: Stream, now: int): Option<Tree> {
    if Base(s).Some? then Some(Replay(Base(s).value, Backlog(s, Covered(s)), now)) else None
  }

  /** The tail a mount remembers: the last event it folded, if it folded one. */
  function MountTail(s: Stream): Option<nat> {
    if Backlog(s, Covered(s)) == [] then None else Some(|s.log| - 1)
  }

  /** Whether a conditional append under `token` at tail `tail` is accepted. */
  predicate Accepts(s: Stream, token: string, tail: Option<nat>) {
    && (s.fence.Some? ==> s.fence.value == token)
    && Tail(s) == tail
  }

  /** When an append of events is accepted: at most 1000 of them, none above one mebibyte, no other token in the fence,
      and the caller knows the last version, if there is one. */
  lemma AcceptanceMeans(s: Stream, token: string, tail: Option<nat>, events: seq<Event>, sizeOf: Event -> nat)
    ensures BatchFits(sizeOf, events) && Accepts(s, token, tail)
            <==> && |events| <= 1000 && (forall i :: 0 <= i < |events| ==> sizeOf(events[i]) <= 1_048_576)
                 && (s.fence.None? || s.fence.value == token)
                 && (tail.None? <==> |s.log| == 0) && (tail.Some? ==> tail.value + 1 == |s.log|)
  {
  }

  /** Everything behind the newest manifest sealed into one segment at `path`. */
  function Uploaded(s: Stream, path: string, now: int): Stream
    requires Base(s).Some?
  {
    s.(segments := s.segments[path := FoldEvents(Fold(map[], Base(s).value), Backlog(s, Covered(s)), now).entries])
  }

  /** Whether readers find a manifest published under `key`: an equal number is overwritten, a smaller one stays hidden.
      */
  predicate Newest(s: Stream, key: nat) {
    s.snap.Some? ==> s.snap.value.key <= key
  }

  function Published(s: Stream, path: string, through: nat, key: nat): Stream {
    var segments := if s.snap.Some? then s.snap.value.segments else [];
    if Newest(s, key) then s.(snap := Some(Snapshot(segments + [path], through, key))) else s
  }

  /** A checkpoint: seal, upload, publish. */
  function Sealed(s: Stream, path: string, through: nat, key: nat, now: int): Stream
    requires Base(s).Some?
  {
    Published(Uploaded(s, path, now), path, through, key)
  }

  function Changes(deltas: seq<Delta>): (r: seq<Event>)
    ensures |r| == |deltas| && forall i :: 0 <= i < |r| ==> r[i] == Change(deltas[i])
  {
    seq(|deltas|, i requires 0 <= i < |deltas| => Change(deltas[i]))
  }

  method LoadSegments(objects: map<string, Entries>, paths: seq<string>) returns (image: Image, ok: bool)
    ensures fresh(image)
    ensures ok <==> LoadTree(objects, paths).Some?
    ensures ok ==> LoadTree(objects, paths) == Some(image.nodes)
  {
    image := new Image(map[]);
    ok := true;
    for i := 0 to |paths|
      invariant LoadTree(objects, paths[..i]) == Some(image.nodes)
    {
      assert paths[..i + 1][..i] == paths[..i];
      if paths[i] !in objects {
        MissingSegmentFails(objects, paths, i + 1);
        ok := false;
        return;
      }
      MergeInPlace(image, objects[paths[i]]);
    }
    assert paths[..|paths|] == paths;
  }

  lemma {:induction false} MissingSegmentFails(objects: map<string, Entries>, paths: seq<string>, i: nat)
    requires i <= |paths| && LoadTree(objects, paths[..i]).None?
    ensures LoadTree(objects, paths).None?
    decreases |paths| - i
  {
    if i == |paths| {
      assert paths[..i] == paths;
    } else {
      assert paths[..i + 1][..i] == paths[..i];
      MissingSegmentFails(objects, paths, i + 1);
    }
  }

  lemma ReplayNext(base: Tree, events: seq<Event>, i: nat, now: int)
    requires i < |events|
    ensures var before := Replay(base, events[..i], now);
            Replay(base, events[..i + 1], now)
            == if events[i].Change? then ApplyDelta(before, events[i].delta, now) else before
  {
    assert events[..i + 1][..i] == events[..i];
  }

  /** Folds consecutive events, the first at version `first`, and returns the version of the last one. */
  method FoldBacklog(image: Image, events: seq<Event>, first: nat, now: int) returns (tail: Option<nat>)
    modifies image
    ensures image.nodes == Replay(old(image.nodes), events, now)
    ensures tail == if events == [] then None else Some(first + |events| - 1)
  {
    tail := None;
    for i := 0 to |events|
      invariant image.nodes == Replay(old(image.nodes), events[..i], now)
      invariant tail == if i == 0 then None else Some(first + i - 1)
    {
      ReplayNext(old(image.nodes), events, i, now);
      if events[i].Change? {
        image.Apply(events[i].delta, now);
      }
      tail := Some(first + i);
    }
    assert events[..|events|] == events;
  }

  class Store {
    var s: Stream

    constructor (s: Stream)
      ensures this.s == s
    {
      this.s := s;
    }

    /** A conditional, fenced append. */
    method AppendWithToken(token: string, tail: Option<nat>, events: seq<Event>, sizeOf: Event -> nat)
      returns (r: Result<nat, Error>)
      modifies this
      ensures r.Ok? <==> BatchFits(sizeOf, events) && Accepts(old(s), token, tail) && events != []
      ensures r == Err(FenceMismatch) ==> old(s.fence).Some? && old(s.fence) != Some(token)
      ensures r == Err(VersionConflict) ==> (old(s.fence).Some? ==> old(s.fence) == Some(token)) && tail != Tail(old(s))
      ensures r.Ok? ==> s == old(s).(log := old(s.log) + events) && r.value == |s.log| - 1
      ensures r.Err? ==> s == old(s)
    {
      if !BatchFits(sizeOf, events) {
        return Err(Rejected);
      }
      if s.fence.Some? && s.fence.value != token {
        return Err(FenceMismatch);
      }
      if Tail(s) != tail {
        return Err(VersionConflict);
      }
      if events == [] {
        return Err(Rejected);
      }
      s := s.(log := s.log + events);
      return Ok(|s.log| - 1);
    }
  }

  lemma {:induction false} UpgradeNonEmpty(hash: Bytes -> string, final: Tree, pending: seq<Delta>)
    requires pending != []
    ensures Upgrade(hash, final, pending) != []
  {
    var n := |pending| - 1;
    if n > 0 {
      UpgradeNonEmpty(hash, final, pending[..n]);
    } else {
      assert ChunkedPaths(final, pending[..n]) == {};
    }
  }

  /** The old blocks and those of the new ones that arrived. */
  function Part(before: BlockStore, after: BlockStore, sent: set<string>): BlockStore {
    map h | h in after && (h in before || h in sent) :: after[h]
  }

  lemma PartAddressed(hash: Bytes -> string, before: BlockStore, after: BlockStore, sent: set<string>)
    requires Addressed(hash, after) && forall h :: h in before ==> h in after && after[h] == before[h]
    ensures Addressed(hash, Part(before, after, sent))
    ensures forall h :: h in before ==> Get(Part(before, after, sent), h) == Get(before, h)
  {
  }

  /** The write handle. */
  class Volume {
    const store: Store
    const token: string
    const image: Image
    var tail: Option<nat>
    var pending: seq<Delta>

    constructor (store: Store, token: string, image: Image, tail: Option<nat>)
      ensures this.store == store && this.token == token && this.image == image
      ensures this.tail == tail && pending == []
    {
      this.store, this.token, this.image, this.tail, this.pending := store, token, image, tail, [];
    }

    /** Takes the fence, then rebuilds the image from the newest manifest and the backlog behind it. */
    static method Mount(store: Store, token: string, now: int) returns (v: Option<Volume>)
      modifies store
      ensures store.s == old(store.s).(fence := Some(token))
      ensures v.Some? <==> MountImage(old(store.s), now).Some?
      ensures v.Some? ==> v.value.store == store && v.value.token == token && v.value.pending == []
      ensures v.Some? ==> Some(v.value.image.nodes) == MountImage(old(store.s), now)
      ensures v.Some? ==> v.value.tail == MountTail(old(store.s))
    {
      store.s := store.s.(fence := Some(token));
      var image, ok := LoadSegments(store.s.segments, if store.s.snap.Some? then store.s.snap.value.segments else []);
      if !ok {
        return None;
      }
      var events := Backlog(store.s, Covered(store.s));
      var tail := FoldBacklog(image, events, |store.s.log| - |events|, now);
      var volume := new Volume(store, token, image, tail);
      return Some(volume);
    }

    method Mutate(d: Delta, now: int)
      modifies this, image
      ensures image.nodes == ApplyDelta(old(image.nodes), d, now)
      ensures pending == old(pending) + [d] && tail == old(tail)
    {
      image.Apply(d, now);
      pending := pending + [d];
    }

    /** Uploads blocks, then appends the upgraded batch: data before pointer. `io` says whether all uploads succeed, and
        `sent` which blocks arrive when they do not. */
    method Commit(
      hash: Bytes -> string, sizeOf: Event -> nat, io: bool, sent: set<string>, now: int) returns (r: Result<(), Error>)
      requires Addressed(hash, store.s.blocks)
      modifies this, image, store
      ensures Addressed(hash, store.s.blocks)
      ensures store.s == old(store.s).(log := store.s.log, blocks := store.s.blocks)
      ensures forall h :: h in old(store.s.blocks) ==> Get(store.s.blocks, h) == Get(old(store.s.blocks), h)
      ensures old(pending) == [] ==>
                r.Ok? && store.s == old(store.s) && tail == old(tail) && pending == []
                && image.nodes == old(image.nodes)
      ensures old(pending) != [] && !io ==>
                r == Err(BucketFailed) && store.s.log == old(store.s.log) && tail == old(tail)
                && pending == old(pending) && image.nodes == old(image.nodes)
      ensures old(pending) != [] && io ==>
                var upgraded := Upgrade(hash, old(image.nodes), old(pending));
                && (r.Ok? <==> BatchFits(sizeOf, Changes(upgraded)) && Accepts(old(store.s), token, old(tail)))
                && image.nodes == Reblocked(old(image.nodes), upgraded, now)
                && (forall p :: p in ChunkedPaths(old(image.nodes), old(pending)) ==>
                      Stored(store.s.blocks, FileRefs(hash, old(image.nodes), p)))
                && (r.Ok? ==> store.s.log == old(store.s.log) + Changes(upgraded)
                              && tail == Tail(store.s) && pending == [])
                && (r.Err? ==> store.s.log == old(store.s.log) && tail == old(tail) && pending == old(pending))
    {
      if pending == [] {
        return Ok(());
      }
      var upgraded, blocks := UpgradeBatch(hash, image.nodes, pending, store.s.blocks);
      if !io {
        PartAddressed(hash, store.s.blocks, blocks, sent);
        store.s := store.s.(blocks := Part(store.s.blocks, blocks, sent));
        return Err(BucketFailed);
      }
      store.s := store.s.(blocks := blocks);
      UpgradeNonEmpty(hash, image.nodes, pending);
      ReblockInPlace(upgraded, now);
      var appended := store.AppendWithToken(token, tail, Changes(upgraded), sizeOf);
      if appended.Err? {
        return Err(appended.error);
      }
      tail := Some(appended.value);
      pending := [];
      return Ok(());
    }

    method ReblockInPlace(upgraded: seq<Delta>, now: int)
      modifies image
      ensures image.nodes == Reblocked(old(image.nodes), upgraded, now)
    {
      for i := 0 to |upgraded|
        invariant image.nodes == Reblocked(old(image.nodes), upgraded[..i], now)
      {
        assert upgraded[..i + 1][..i] == upgraded[..i];
        if upgraded[i].Write? && upgraded[i].data.BlockData? {
          image.Apply(upgraded[i], now);
        }
      }
      assert upgraded[..|upgraded|] == upgraded;
    }

    /** The sealing half of a checkpoint, after its commit. `put` and `publish` say whether the upload and the
        publication succeed; a segment that is not published stays behind as an object no manifest names. `key` is one
        above the global counter that the publication reads. */
    method Seal(path: string, put: bool, publish: bool, key: nat, now: int) returns (r: Result<nat, Error>)
      modifies store
      ensures tail.None? ==> r == Err(NothingToCheckpoint)
      ensures r.Ok? <==> tail.Some? && Base(old(store.s)).Some? && put && publish
      ensures r.Ok? ==> r.value == tail.value && store.s == Sealed(old(store.s), path, tail.value, key, now)
      ensures r == Err(NotPublished) ==>
                Base(old(store.s)).Some? && store.s == Uploaded(old(store.s), path, now)
      ensures r.Err? && r.error != NotPublished ==> store.s == old(store.s)
    {
      if tail.None? {
        return Err(NothingToCheckpoint);
      }
      var base, ok := LoadSegments(store.s.segments, if store.s.snap.Some? then store.s.snap.value.segments else []);
      if !ok {
        return Err(MissingSegment);
      }
      var events := Backlog(store.s, Covered(store.s));
      var delta := new DeltaImage(base);
      ghost var start := delta.Value();
      for i := 0 to |events|
        invariant delta.Value() == FoldEvents(start, events[..i], now)
        invariant store.s == old(store.s)
      {
        assert events[..i + 1][..i] == events[..i];
        if events[i].Change? {
          delta.Apply(events[i].delta, now);
        }
      }
      assert events[..|events|] == events;
      if !put {
        return Err(BucketFailed);
      }
      store.s := store.s.(segments := store.s.segments[path := delta.entries]);
      if !publish {
        return Err(NotPublished);
      }
      store.s := Published(store.s, path, tail.value, key);
      return Ok(tail.value);
    }
  }

  // ---- runs ----

  /** `Orphan` is what a checkpoint leaves when its publication fails. Checkpoints are published under any key at all.
      */
  datatype Op = Append(events: seq<Event>) | Checkpoint(path: string, key: nat)
    | Orphan(path: string, entries: Entries) | Purge(floor: nat)

  /** One writer: batches are non-empty and untangled, segment paths are fresh, and retention never passes the
      checkpoint that readers find. */
  predicate Allowed(s: Stream, op: Op) {
    match op
    case Append(events) => events != [] && UntangledEvents(events)
    case Checkpoint(path, _) => s.log != [] && path !in s.segments
    case Orphan(path, _) => path !in s.segments
    case Purge(floor) => floor <= Covered(s)
  }

  function Step(s: Stream, op: Op, now: int): Stream
    requires Allowed(s, op) && Base(s).Some?
  {
    match op
    case Append(events) => s.(log := s.log + events)
    case Checkpoint(path, key) => Sealed(s, path, |s.log| - 1, key, now)
    case Orphan(path, entries) => s.(segments := s.segments[path := entries])
    case Purge(floor) => s.(floor := Max(s.floor, floor))
  }

  /** The manifest loads to the replay of exactly the versions it covers, and nothing it does not cover is purged. */
  ghost predicate Faithful(s: Stream, now: int) {
    && s.floor <= Covered(s) <= |s.log|
    && UntangledEvents(s.log)
    && Base(s) == Some(Replay(map[], s.log[..Covered(s)], now))
  }

  lemma {:induction false} LoadTreeFrame(objects: map<string, Entries>, paths: seq<string>, path: string, e: Entries)
    requires LoadTree(objects, paths).Some? && path !in objects
    ensures LoadTree(objects[path := e], paths) == LoadTree(objects, paths)
  {
    if paths != [] {
      LoadTreeFrame(objects, paths[..|paths| - 1], path, e);
    }
  }

  lemma SealedBase(s: Stream, path: string, through: nat, key: nat, now: int)
    requires Base(s).Some? && path !in s.segments && Newest(s, key)
    ensures Base(Sealed(s, path, through, key, now))
         == Some(MergeSegment(Base(s).value,
                              FoldEvents(Fold(map[], Base(s).value), Backlog(s, Covered(s)), now).entries))
  {
    var paths := if s.snap.Some? then s.snap.value.segments else [];
    var entries := FoldEvents(Fold(map[], Base(s).value), Backlog(s, Covered(s)), now).entries;
    LoadTreeFrame(s.segments, paths, path, entries);
    LoadTreeSnoc(s.segments[path := entries], paths, path);
  }

  lemma LoadTreeSnoc(objects: map<string, Entries>, paths: seq<string>, path: string)
    requires LoadTree(objects, paths).Some? && path in objects
    ensures LoadTree(objects, paths + [path]) == Some(MergeSegment(LoadTree(objects, paths).value, objects[path]))
  {
    assert (paths + [path])[..|paths|] == paths;
  }

  lemma SplitReplay(log: seq<Event>, k: nat, now: int)
    requires k <= |log| && UntangledEvents(log)
    ensures var base := Replay(map[], log[..k], now);
            MergeSegment(base, FoldEvents(Fold(map[], base), log[k..], now).entries) == Replay(map[], log, now)
  {
    var base, rest := Replay(map[], log[..k], now), log[k..];
    assert UntangledEvents(rest);
    SegmentSound(base, rest, now);
    ReplayConcat(map[], log[..k], rest, now);
    assert log[..k] + rest == log;
  }

  lemma SealedFaithful(s: Stream, path: string, key: nat, now: int)
    requires Faithful(s, now) && s.log != [] && path !in s.segments && Newest(s, key)
    ensures Faithful(Sealed(s, path, |s.log| - 1, key, now), now)
  {
    var sealed := Sealed(s, path, |s.log| - 1, key, now);
    SealedBase(s, path, |s.log| - 1, key, now);
    assert Backlog(s, Covered(s)) == s.log[Covered(s)..];
    SplitReplay(s.log, Covered(s), now);
    assert sealed.log[..Covered(sealed)] == s.log;
  }

  lemma {:induction false} AppendFaithful(s: Stream, events: seq<Event>, now: int)
    requires Faithful(s, now) && UntangledEvents(events)
    ensures Faithful(s.(log := s.log + events), now)
  {
    assert (s.log + events)[..Covered(s)] == s.log[..Covered(s)];
  }

  lemma {:induction false} StepFaithful(s: Stream, op: Op, now: int)
    requires Faithful(s, now) && Allowed(s, op)
    ensures Faithful(Step(s, op, now), now)
    ensures s.log <= Step(s, op, now).log
    ensures Covered(s) <= Covered(Step(s, op, now)) && s.floor <= Step(s, op, now).floor
  {
    match op
    case Append(events) => AppendFaithful(s, events, now);
    case Checkpoint(path, key) => CheckpointFaithful(s, path, key, now);
    case Orphan(path, entries) => OrphanKeepsBase(s, path, entries);
    case Purge(_) =>
  }

  lemma CheckpointFaithful(s: Stream, path: string, key: nat, now: int)
    requires Faithful(s, now) && s.log != [] && path !in s.segments
    ensures Faithful(Sealed(s, path, |s.log| - 1, key, now), now)
  {
    if Newest(s, key) {
      SealedFaithful(s, path, key, now);
    } else {
      OrphanKeepsBase(s, path, Uploaded(s, path, now).segments[path]);
    }
  }

  lemma OrphanKeepsBase(s: Stream, path: string, entries: Entries)
    requires Base(s).Some? && path !in s.segments
    ensures Base(s.(segments := s.segments[path := entries])) == Base(s)
  {
    LoadTreeFrame(s.segments, if s.snap.Some? then s.snap.value.segments else [], path, entries);
  }

  /** What a run of operations leads to; `None` when one of them was not allowed. */
  function Run(s: Stream, ops: seq<Op>, now: int): Option<Stream> {
    if ops == [] then Some(s)
    else
      var before := Run(s, ops[..|ops| - 1], now);
      var op := ops[|ops| - 1];
      if before.Some? && Base(before.value).Some? && Allowed(before.value, op) then Some(Step(before.value, op, now))
        else None
  }

  lemma {:induction false} RunFaithful(ops: seq<Op>, now: int)
    requires Run(Fresh, ops, now).Some?
    ensures Faithful(Run(Fresh, ops, now).value, now)
  {
    if ops != [] {
      RunFaithful(ops[..|ops| - 1], now);
      StepFaithful(Run(Fresh, ops[..|ops| - 1], now).value, ops[|ops| - 1], now);
    }
  }

  lemma FaithfulMounts(s: Stream, now: int)
    requires Faithful(s, now)
    ensures MountImage(s, now) == Some(Replay(map[], s.log, now))
  {
    ReplayConcat(map[], s.log[..Covered(s)], s.log[Covered(s)..], now);
    assert s.log[..Covered(s)] + s.log[Covered(s)..] == s.log;
  }

  /** Mount equals replay: after every run of commits, checkpoints under any keys and purges, mounting gives the image
      of replaying every event ever committed from the empty image, purged ones included. */
  lemma MountEqualsReplay(ops: seq<Op>, now: int)
    requires Run(Fresh, ops, now).Some?
    ensures var s := Run(Fresh, ops, now).value;
            MountImage(s, now) == Some(Replay(map[], s.log, now))
  {
    RunFaithful(ops, now);
    FaithfulMounts(Run(Fresh, ops, now).value, now);
  }

  /** A freshly mounted volume can commit if and only if the newest checkpoint does not cover a whole non-empty
      stream: then the mount folds nothing, remembers no tail, and expects a stream that does not exist. */
  lemma MountedCanCommitIff(s: Stream, token: string, now: int)
    requires Faithful(s, now)
    ensures Accepts(s.(fence := Some(token)), token, MountTail(s))
            <==> s.log == [] || s.snap.None? || s.snap.value.through < |s.log| - 1
  {
  }

  /** The smallest such run: one commit, one checkpoint, and the remounted volume is read-only. */
  lemma CheckpointedVolumeRejectsCommits(e: Event, path: string, key: nat, token: string, now: int)
    requires UntangledEvent(e)
    ensures var s := Run(Fresh, [Append([e]), Checkpoint(path, key)], now);
            s.Some? && MountTail(s.value) == None && !Accepts(s.value.(fence := Some(token)), token, MountTail(s.value))
  {
    var one: seq<Op> := [Append([e])];
    var two: seq<Op> := [Append([e]), Checkpoint(path, key)];
    assert one[..0] == [] && two[..1] == one;
    assert Run(Fresh, one, now) == Some(Fresh.(log := [e])) by {
      assert Run(Fresh, one[..0], now) == Some(Fresh);
      assert Fresh.log + [e] == [e];
    }
    assert Run(Fresh, two, now) == Some(Sealed(Fresh.(log := [e]), path, 0, key, now));
  }

  /** The handle's image is the stream's image with the pending batch on top; committing keeps it so if and only if
      every chunked file stays in place from its first write on and its metadata comes to the same, or the block file
      itself was moved there. */
  lemma CommitKeepsImageIff(hash: Bytes -> string, log: seq<Event>, pending: seq<Delta>, now: int)
    requires InlineBatch(pending)
    requires MildBatch(Replay(map[], log, now), ApplyAll(Replay(map[], log, now), pending, now), pending, now)
    ensures var start := Replay(map[], log, now);
            var final := ApplyAll(start, pending, now);
            var upgraded, st := Upgrade(hash, final, pending), Statuses(start, final, pending, now);
            && st.Keys == ChunkedPaths(final, pending)
            && (Reblocked(final, upgraded, now) == Replay(map[], log + Changes(upgraded), now)
                <==> forall p :: p in ChunkedPaths(final, pending) ==>
                  SameImage(hash, start, final, pending, st[p], p, now))
  {
    var start := Replay(map[], log, now);
    CommitImageIsReplayIff(hash, start, pending, now);
    ReplayAppended(log, Upgrade(hash, ApplyAll(start, pending, now), pending), now);
  }

  /** And it shows the same files as the replay of the stream if and only if every chunked file is preserved. */
  lemma CommitShowsImageIff(
    hash: Bytes -> string, store: BlockStore, log: seq<Event>, pending: seq<Delta>, now: int)
    requires InlineBatch(pending) && Injective(hash) && Addressed(hash, store)
    requires var start := Replay(map[], log, now);
             var final := ApplyAll(start, pending, now);
             MildBatch(start, final, pending, now) && BlocksStored(hash, store, final, pending)
    ensures var start := Replay(map[], log, now);
            var final := ApplyAll(start, pending, now);
            var upgraded, st := Upgrade(hash, final, pending), Statuses(start, final, pending, now);
            && st.Keys == ChunkedPaths(final, pending)
            && (SameFiles(store, Reblocked(final, upgraded, now), Replay(map[], log + Changes(upgraded), now))
                <==> forall p :: p in ChunkedPaths(final, pending) ==>
                       Preserved(store, start, final, pending, st[p], p, now))
  {
    var start := Replay(map[], log, now);
    var final := ApplyAll(start, pending, now);
    var upgraded := Upgrade(hash, final, pending);
    ReplayAppended(log, upgraded, now);
    UpgradePreservesIff(hash, start, pending, store, now);
    FailureSameFiles(hash, store, final, pending, now);
    EitherSame(store, Reblocked(final, upgraded, now), ApplyAll(start, upgraded, now), final);
  }

  /** Of two trees, one of which shows the same files as a third. */
  lemma EitherSame(store: BlockStore, a: Tree, b: Tree, c: Tree)
    requires SameFiles(store, a, c)
    ensures SameFiles(store, a, b) <==> SameFiles(store, b, c)
  {
    if SameFiles(store, a, b) {
      SameFilesSymmetric(store, a, b);
      SameFilesTransitive(store, b, a, c);
    }
    if SameFiles(store, b, c) {
      SameFilesSymmetric(store, b, c);
      SameFilesTransitive(store, a, c, b);
    }
  }

  /** The image after a number of commits whose append was refused. */
  function AfterFailures(hash: Bytes -> string, image: Tree, pending: seq<Delta>, n: nat, now: int): Tree {
    if n == 0 then image
    else
      var before := AfterFailures(hash, image, pending, n - 1, now);
      AfterFailure(hash, before, pending, now)
  }

  lemma {:induction false} FailuresAlike(hash: Bytes -> string, image: Tree, pending: seq<Delta>, n: nat, now: int)
    requires InlineBatch(pending) && n > 0
    ensures AfterFailures(hash, image, pending, n, now) == AfterFailure(hash, image, pending, now)
  {
    if n == 1 {
      assert AfterFailures(hash, image, pending, 0, now) == image;
    } else {
      FailuresAlike(hash, image, pending, n - 1, now);
      RetryIsPlain(hash, image, pending, now);
    }
  }

  /** A commit tried again after any number of refusals: it appends the pending batch as it is, no block upgrade, no
      loss, and the handle's image shows the same files as the replay of the stream then does. */
  lemma RetriedCommitSafe(
    hash: Bytes -> string, store: BlockStore, log: seq<Event>, pending: seq<Delta>, n: nat, now: int)
    requires InlineBatch(pending) && n > 0 && Injective(hash) && Addressed(hash, store)
    requires BlocksStored(hash, store, ApplyAll(Replay(map[], log, now), pending, now), pending)
    ensures var image := AfterFailures(hash, ApplyAll(Replay(map[], log, now), pending, now), pending, n, now);
            && Upgrade(hash, image, pending) == pending
            && SameFiles(store, Reblocked(image, pending, now), Replay(map[], log + Changes(pending), now))
  {
    RetriedImage(hash, store, ApplyAll(Replay(map[], log, now), pending, now), pending, n, now);
    ReplayAppended(log, pending, now);
  }

  lemma RetriedImage(hash: Bytes -> string, store: BlockStore, final: Tree, pending: seq<Delta>, n: nat, now: int)
    requires InlineBatch(pending) && n > 0 && Injective(hash) && Addressed(hash, store)
    requires BlocksStored(hash, store, final, pending)
    ensures var image := AfterFailures(hash, final, pending, n, now);
            Upgrade(hash, image, pending) == pending && SameFiles(store, Reblocked(image, pending, now), final)
  {
    FailuresAlike(hash, final, pending, n, now);
    RetryIsPlain(hash, final, pending, now);
    FailureSameFiles(hash, store, final, pending, now);
  }

  lemma ReplayAppended(log: seq<Event>, pending: seq<Delta>, now: int)
    ensures Replay(map[], log + Changes(pending), now) == ApplyAll(Replay(map[], log, now), pending, now)
  {
    ReplayConcat(map[], log, Changes(pending), now);
    ReplayChanges(Replay(map[], log, now), pending, now);
  }

  lemma {:induction false} ReplayChanges(base: Tree, deltas: seq<Delta>, now: int)
    ensures Replay(base, Changes(deltas), now) == ApplyAll(base, deltas, now)
  {
    if deltas != [] {
      var n := |deltas| - 1;
      assert Changes(deltas)[..n] == Changes(deltas[..n]);
      ReplayChanges(base, deltas[..n], now);
    }
  }

  function WriteThenTruncate(p: Path, written: Bytes, kept: Bytes): seq<Delta> {
    [Write(p, 0, InlineData(written)), Remove(p), Write(p, 0, InlineData(kept))]
  }

  lemma {:induction false} TruncateFinal(p: Path, written: Bytes, kept: Bytes, now: int)
    ensures ApplyAll(map[], WriteThenTruncate(p, written, kept), now) == map[p := File(Inline(kept), FileMeta(now))]
  {
    var d0, d1, d2 := Write(p, 0, InlineData(written)), Remove(p), Write(p, 0, InlineData(kept));
    var none: Tree := map[];
    ApplyAllSnoc(none, [], d0, now);
    ApplyAllSnoc(none, [d0], d1, now);
    ApplyAllSnoc(none, [d0, d1], d2, now);
    assert [] + [d0] == [d0] && [d0] + [d1] == [d0, d1] && [d0, d1] + [d2] == WriteThenTruncate(p, written, kept);
    assert Splice([], 0, kept) == kept;
    assert RemoveSubtree(ApplyAll(none, [d0], now), p) == map[];
  }

  lemma TruncateUpgrade(hash: Bytes -> string, final: Tree, p: Path, written: Bytes, kept: Bytes)
    requires NeedsChunks(final, p)
    ensures Upgrade(hash, final, WriteThenTruncate(p, written, kept))
         == [Write(p, 0, BlockData(FileRefs(hash, final, p))), Remove(p)]
  {
    var d := WriteThenTruncate(p, written, kept);
    assert d[..0] == [] && d[..3] == d;
    assert ChunkedPaths(final, d[..0]) == {};
    ChunkedPathsStep(final, d, 0);
    ChunkedPathsStep(final, d, 1);
    UpgradeStep(hash, final, d, 0);
    UpgradeStep(hash, final, d, 1);
    UpgradeStep(hash, final, d, 2);
  }

  /** Truncating a large file after writing it in the same batch removes it from the stream: the truncation's
      remove survives the upgrade and its write does not. */
  lemma TruncateAfterWriteLosesFile(hash: Bytes -> string, p: Path, written: Bytes, kept: Bytes, now: int)
    requires |kept| > CHUNK
    ensures var pending := WriteThenTruncate(p, written, kept);
            var final := ApplyAll(map[], pending, now);
            && p in final && final[p].File? && final[p].content == Inline(kept)
            && p !in ApplyAll(map[], Upgrade(hash, final, pending), now)
  {
    TruncateFinal(p, written, kept, now);
    var final: Tree := map[p := File(Inline(kept), FileMeta(now))];
    TruncateUpgrade(hash, final, p, written, kept);
    var block := Write(p, 0, BlockData(FileRefs(hash, final, p)));
    ApplyAllSnoc(map[], [block], Remove(p), now);
    assert [block] + [Remove(p)] == [block, Remove(p)];
  }
}
