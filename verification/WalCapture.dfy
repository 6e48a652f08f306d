/**
 Incremental capture over the life of a write-ahead log: SQLite appends and overwrites uncommitted frames, syncs
 succeed or fail, and fully captured generations are truncated and replaced.
 */
module WalCapture {
  import opened Prelude
  import opened SqliteTypes
  import opened Wal

  /** `shipped` is every transaction made durable so far, `past` those of completed generations, `start` the
      transaction id the database was opened at. */
  datatype Recorder = Recorder(wal: Bytes, cursor: Cursor, shipped: seq<Delta>, past: seq<Delta>, start: nat)

  datatype Op = Grow(wal: Bytes) | Sync(durable: bool) | Truncate

  /** One parse of the current file from frame 0. */
  function Whole(wal: Bytes, txid: nat): seq<Delta> {
    match ParseHeader(wal)
    case None => []
    case Some(h) => Deltas(FileFrames(wal, h), h.pageSize, txid)
  }

  /** What should have been recorded: the completed generations and one parse of the current one. */
  function Truth(r: Recorder): seq<Delta> {
    r.past + Whole(r.wal, r.start + |r.past|)
  }

  /** How the file may change: committed frames stay, anything behind them may be overwritten; a new generation
      carries salts the cursor has not advanced under. */
  predicate Grows(r: Recorder, wal: Bytes) {
    match ParseHeader(r.wal)
    case Some(h) =>
      var keep := Offset(h, Committed(FileFrames(r.wal, h)));
      keep <= |r.wal| && keep <= |wal| && wal[..keep] == r.wal[..keep]
    case None =>
      ParseHeader(wal).Some? ==> Rebase(r.cursor, ParseHeader(wal).value).frame == 0
  }

  predicate Allowed(r: Recorder, op: Op) {
    match op
    case Grow(wal) => Grows(r, wal)
    case Sync(_) => true
    case Truncate => r.shipped == Truth(r)
  }

  function SyncStep(r: Recorder, durable: bool): Recorder {
    match ParseHeader(r.wal)
    case None => r
    case Some(h) => SyncFrames(r, FileFrames(r.wal, h), h.pageSize, Rebase(r.cursor, h), durable)
  }

  /** A sync over the frames of the file from cursor `c`. */
  function SyncFrames(r: Recorder, frames: seq<RawFrame>, pageSize: nat, c: Cursor, durable: bool): Recorder {
    if c.frame > |frames| then r
    else
      var deltas := Deltas(frames[c.frame..], pageSize, r.start + |r.shipped|);
      var next := c.(frame := c.frame + Committed(frames[c.frame..]));
      if deltas == [] then r.(cursor := next)
      else if durable then r.(cursor := next, shipped := r.shipped + deltas)
      else r.(cursor := c)
  }

  function Step(r: Recorder, op: Op): Recorder {
    match op
    case Grow(wal) => r.(wal := wal)
    case Sync(durable) => SyncStep(r, durable)
    case Truncate => r.(wal := [], past := r.shipped)
  }

  /** The cursor sits on a commit boundary of the current generation, and exactly the transactions before it
      have been shipped. */
  predicate Tracking(r: Recorder) {
    match ParseHeader(r.wal)
    case None => r.shipped == r.past
    case Some(h) => ShippedTo(FileFrames(r.wal, h), Rebase(r.cursor, h).frame, r.past, r.shipped, h.pageSize, r.start)
  }

  predicate ShippedTo(frames: seq<RawFrame>, c: nat, past: seq<Delta>, shipped: seq<Delta>, pageSize: nat, start: nat) {
    && c <= |frames| && Committed(frames[..c]) == c
    && shipped == past + Deltas(frames[..c], pageSize, start + |past|)
  }

  lemma {:induction false} FramesAgree(a: Bytes, b: Bytes, h: Header, n: nat)
    requires n <= |Frames(a, h)| && n * FrameLen(h) <= |a| && n * FrameLen(h) <= |b|
    requires a[..n * FrameLen(h)] == b[..n * FrameLen(h)]
    ensures n <= |Frames(b, h)| && Frames(b, h)[..n] == Frames(a, h)[..n]
  {
    var fl := FrameLen(h);
    if n > 0 {
      assert n * fl == fl + (n - 1) * fl;
      assert b[..fl] == b[..n * fl][..fl] == a[..fl];
      assert a[..FRAME_HEADER_LEN] == a[..fl][..FRAME_HEADER_LEN] == b[..FRAME_HEADER_LEN];
      assert a[FRAME_HEADER_LEN..fl] == a[..fl][FRAME_HEADER_LEN..] == b[FRAME_HEADER_LEN..fl];
      assert a[fl..][..(n - 1) * fl] == a[..n * fl][fl..] == b[fl..][..(n - 1) * fl];
      FramesAgree(a[fl..], b[fl..], h, n - 1);
      assert Frames(b, h)[..n] == [FirstFrame(b, h)] + Frames(b[fl..], h)[..n - 1];
      assert Frames(a, h)[..n] == [FirstFrame(a, h)] + Frames(a[fl..], h)[..n - 1];
    }
  }

  lemma HeaderKept(a: Bytes, b: Bytes, keep: nat)
    requires HEADER_LEN <= keep <= |a| && keep <= |b| && a[..keep] == b[..keep]
    ensures ParseHeader(a) == ParseHeader(b)
  {
    assert a[..HEADER_LEN] == a[..keep][..HEADER_LEN] == b[..HEADER_LEN];
    HeaderIsLocal(a);
    HeaderIsLocal(b);
  }

  lemma FramesKept(a: Bytes, b: Bytes, h: Header, n: nat)
    requires n <= |FileFrames(a, h)| && Offset(h, n) <= |a| && Offset(h, n) <= |b|
    requires a[..Offset(h, n)] == b[..Offset(h, n)]
    ensures n <= |FileFrames(b, h)| && FileFrames(b, h)[..n] == FileFrames(a, h)[..n]
  {
    var x, y, m := a[HEADER_LEN..], b[HEADER_LEN..], n * FrameLen(h);
    assert x[..m] == a[..Offset(h, n)][HEADER_LEN..];
    assert y[..m] == b[..Offset(h, n)][HEADER_LEN..];
    FramesAgree(x, y, h, n);
  }

  lemma {:induction false} CommittedAtLeast(frames: seq<RawFrame>, c: nat)
    requires c <= |frames| && Committed(frames[..c]) == c
    ensures c <= Committed(frames)
    decreases |frames|
  {
    if c < |frames| && frames[|frames| - 1].dbSize == 0 {
      assert frames[..|frames| - 1][..c] == frames[..c];
      CommittedAtLeast(frames[..|frames| - 1], c);
    } else {
      assert frames[..|frames|] == frames;
    }
  }

  lemma {:induction false} CommittedConcat(a: seq<RawFrame>, b: seq<RawFrame>)
    requires Committed(a) == |a|
    ensures Committed(a + b) == |a| + Committed(b)
    decreases |b|
  {
    if b == [] {
      assert a + b == a;
    } else if b[|b| - 1].dbSize == 0 {
      assert (a + b)[..|a + b| - 1] == a + b[..|b| - 1];
      CommittedConcat(a, b[..|b| - 1]);
    }
  }

  /** Keeping the committed frames keeps what was shipped of them. */
  lemma ShippedToKept(
    f: seq<RawFrame>, g: seq<RawFrame>, c: nat, past: seq<Delta>, shipped: seq<Delta>, pageSize: nat, start: nat)
    requires ShippedTo(f, c, past, shipped, pageSize, start)
    requires Committed(f) <= |g| && g[..Committed(f)] == f[..Committed(f)]
    ensures ShippedTo(g, c, past, shipped, pageSize, start)
  {
    var n := Committed(f);
    CommittedAtLeast(f, c);
    assert g[..n][..c] == g[..c] && f[..n][..c] == f[..c];
  }

  lemma GrowTracks(r: Recorder, wal: Bytes)
    requires Tracking(r) && Grows(r, wal)
    ensures Tracking(r.(wal := wal))
  {
    match ParseHeader(r.wal)
    case None =>
      if ParseHeader(wal).Some? {
        assert FileFrames(wal, ParseHeader(wal).value)[..0] == [];
      }
    case Some(h) =>
      var n := Committed(FileFrames(r.wal, h));
      HeaderKept(r.wal, wal, Offset(h, n));
      FramesKept(r.wal, wal, h, n);
      ShippedToKept(FileFrames(r.wal, h), FileFrames(wal, h), Rebase(r.cursor, h).frame, r.past, r.shipped, h.pageSize,
                    r.start);
  }

  lemma RestParsed(frames: seq<RawFrame>, c: nat, past: seq<Delta>, shipped: seq<Delta>, pageSize: nat, start: nat)
    requires ShippedTo(frames, c, past, shipped, pageSize, start)
    ensures past + Deltas(frames, pageSize, start + |past|)
            == shipped + Deltas(frames[c..], pageSize, start + |shipped|)
  {
    assert frames[..c] + frames[c..] == frames;
    ParseConcat(frames[..c], frames[c..], pageSize, start + |past|);
  }

  lemma RestCommitted(frames: seq<RawFrame>, c: nat)
    requires c <= |frames| && Committed(frames[..c]) == c
    ensures Committed(frames) == c + Committed(frames[c..]) <= |frames|
    ensures Committed(frames[..Committed(frames)]) == Committed(frames)
  {
    assert frames[..c] + frames[c..] == frames;
    CommittedConcat(frames[..c], frames[c..]);
    CommittedPrefix(frames);
  }

  /** What a sync reads completes one parse of the whole file. */
  lemma RestOfParse(frames: seq<RawFrame>, c: nat, past: seq<Delta>, shipped: seq<Delta>, pageSize: nat, start: nat)
    requires ShippedTo(frames, c, past, shipped, pageSize, start)
    ensures var rest := Deltas(frames[c..], pageSize, start + |shipped|);
            && past + Deltas(frames, pageSize, start + |past|) == shipped + rest
            && ShippedTo(frames, c + Committed(frames[c..]), past, shipped + rest, pageSize, start)
    ensures Deltas(frames[c..], pageSize, start + |shipped|) == [] ==>
              ShippedTo(frames, c + Committed(frames[c..]), past, shipped, pageSize, start)
  {
    RestParsed(frames, c, past, shipped, pageSize, start);
    RestCommitted(frames, c);
    UncommittedTail(frames, pageSize, start + |past|);
  }

  lemma SyncFramesTracks(r: Recorder, frames: seq<RawFrame>, pageSize: nat, c: Cursor, durable: bool)
    requires ShippedTo(frames, c.frame, r.past, r.shipped, pageSize, r.start)
    ensures var r' := SyncFrames(r, frames, pageSize, c, durable);
            && r'.wal == r.wal && r'.past == r.past && r'.start == r.start
            && (r'.cursor.salt1, r'.cursor.salt2) == (c.salt1, c.salt2)
            && ShippedTo(frames, r'.cursor.frame, r.past, r'.shipped, pageSize, r.start)
            && r.shipped <= r'.shipped
            && r.shipped <= r.past + Deltas(frames, pageSize, r.start + |r.past|)
            && (durable ==> r'.shipped == r.past + Deltas(frames, pageSize, r.start + |r.past|))
  {
    RestOfParse(frames, c.frame, r.past, r.shipped, pageSize, r.start);
  }

  lemma SyncTracks(r: Recorder, durable: bool)
    requires Tracking(r)
    ensures Tracking(SyncStep(r, durable))
    ensures r.shipped <= SyncStep(r, durable).shipped
    ensures durable ==> SyncStep(r, durable).shipped == Truth(r)
    ensures r.shipped <= Truth(r)
  {
    if ParseHeader(r.wal).Some? {
      var h := ParseHeader(r.wal).value;
      SyncFramesTracks(r, FileFrames(r.wal, h), h.pageSize, Rebase(r.cursor, h), durable);
    }
  }

  lemma StepTracks(r: Recorder, op: Op)
    requires Tracking(r) && Allowed(r, op)
    ensures Tracking(Step(r, op))
    ensures r.shipped <= Step(r, op).shipped
  {
    match op
    case Grow(wal) => GrowTracks(r, wal);
    case Sync(durable) => SyncTracks(r, durable);
    case Truncate =>
  }

  function Run(r: Recorder, ops: seq<Op>): Option<Recorder> {
    if ops == [] then Some(r)
    else
      var before := Run(r, ops[..|ops| - 1]);
      if before.Some? && Allowed(before.value, ops[|ops| - 1]) then Some(Step(before.value, ops[|ops| - 1])) else None
  }

  function Opened(start: nat): Recorder { Recorder([], Cursor(0, 0, 0), [], [], start) }

  lemma {:induction false} RunTracks(start: nat, ops: seq<Op>)
    requires Run(Opened(start), ops).Some?
    ensures Tracking(Run(Opened(start), ops).value)
  {
    if ops != [] {
      RunTracks(start, ops[..|ops| - 1]);
      StepTracks(Run(Opened(start), ops[..|ops| - 1]).value, ops[|ops| - 1]);
    }
  }

  /** Incremental capture: however the log grew, was overwritten behind its last commit, was truncated and
      restarted, and however many syncs failed, what has been shipped is a prefix of one parse of everything, and
      after a durable sync it is all of it. */
  lemma CaptureIsOneParse(start: nat, ops: seq<Op>)
    requires Run(Opened(start), ops).Some?
    ensures var r := Run(Opened(start), ops).value;
            && r.shipped <= Truth(r)
            && SyncStep(r, true).shipped == Truth(r)
            && NumberedFrom(start, r.shipped)
  {
    RunTracks(start, ops);
    var r := Run(Opened(start), ops).value;
    SyncTracks(r, true);
    RunNumbers(start, ops);
  }

  lemma {:induction false} DeltasNumbered(frames: seq<RawFrame>, pageSize: nat, txid: nat)
    ensures forall i :: 0 <= i < |Deltas(frames, pageSize, txid)| ==>
              Deltas(frames, pageSize, txid)[i].txid == txid + i + 1
  {
    if frames != [] {
      DeltasNumbered(frames[..|frames| - 1], pageSize, txid);
      var before := Deltas(frames[..|frames| - 1], pageSize, txid);
      assert Deltas(frames, pageSize, txid)[..|before|] == before;
    }
  }

  predicate NumberedFrom(start: nat, deltas: seq<Delta>) {
    forall i :: 0 <= i < |deltas| ==> deltas[i].txid == start + i + 1
  }

  lemma SyncFramesNumbers(r: Recorder, frames: seq<RawFrame>, pageSize: nat, c: Cursor, durable: bool)
    requires NumberedFrom(r.start, r.shipped)
    ensures NumberedFrom(r.start, SyncFrames(r, frames, pageSize, c, durable).shipped)
  {
    if c.frame <= |frames| {
      DeltasNumbered(frames[c.frame..], pageSize, r.start + |r.shipped|);
    }
  }

  lemma StepNumbers(r: Recorder, op: Op)
    requires NumberedFrom(r.start, r.shipped)
    ensures Step(r, op).start == r.start && NumberedFrom(r.start, Step(r, op).shipped)
  {
    if op.Sync? && ParseHeader(r.wal).Some? {
      var h := ParseHeader(r.wal).value;
      SyncFramesNumbers(r, FileFrames(r.wal, h), h.pageSize, Rebase(r.cursor, h), op.durable);
    }
  }

  lemma {:induction false} RunNumbers(start: nat, ops: seq<Op>)
    requires Run(Opened(start), ops).Some?
    ensures var r := Run(Opened(start), ops).value;
            r.start == start && NumberedFrom(start, r.shipped)
  {
    if ops != [] {
      RunNumbers(start, ops[..|ops| - 1]);
      StepNumbers(Run(Opened(start), ops[..|ops| - 1]).value, ops[|ops| - 1]);
    }
  }
}
