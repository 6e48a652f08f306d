/**
 A commit whose append is refused has re-blocked the handle's image already. Trying again is safe; further changes to
 the re-blocked files are not always.
 */
module FsRetry {
  import opened Prelude
  import opened FsImage
  import opened FsBlocks
  import opened FsUpgrade
  import opened FsCommit

  // ---- trying again ----

  /** Every block of every file that the batch chunks is in the bucket. */
  predicate BlocksStored(hash: Bytes -> string, store: BlockStore, image: Tree, pending: seq<Delta>) {
    forall p :: p in ChunkedPaths(image, pending) ==> Stored(store, FileRefs(hash, image, p))
  }

  /** The image after a commit whose append was refused. */
  function AfterFailure(hash: Bytes -> string, image: Tree, pending: seq<Delta>, now: int): Tree {
    Reblocked(image, Upgrade(hash, image, pending), now)
  }

  lemma AfterFailureAt(hash: Bytes -> string, image: Tree, pending: seq<Delta>, now: int, q: Path)
    requires InlineBatch(pending)
    ensures Get(AfterFailure(hash, image, pending, now), q)
         == if q in ChunkedPaths(image, pending)
            then Some(ChunkNode(hash, image, q, image[q].meta)) else Get(image, q)
  {
    assert pending[..|pending|] == pending;
    ReblockedAt(hash, image, pending, |pending|, now, q);
  }

  lemma {:induction false} UpgradePlain(hash: Bytes -> string, final: Tree, pending: seq<Delta>)
    requires forall i :: 0 <= i < |pending| ==> !ChunkedWrite(final, pending[i])
    ensures Upgrade(hash, final, pending) == pending
  {
    if pending != [] {
      UpgradePlain(hash, final, pending[..|pending| - 1]);
      assert pending == pending[..|pending| - 1] + [pending[|pending| - 1]];
    }
  }

  lemma {:induction false} ReblockedPlain(final: Tree, pending: seq<Delta>, now: int)
    requires InlineBatch(pending)
    ensures Reblocked(final, pending, now) == final
  {
    if pending != [] {
      ReblockedPlain(final, pending[..|pending| - 1], now);
    }
  }

  /** After a failed commit nothing is left to chunk: trying again appends the batch as it is, and changes the image no
      further, however often it fails. */
  lemma RetryIsPlain(hash: Bytes -> string, image: Tree, pending: seq<Delta>, now: int)
    requires InlineBatch(pending)
    ensures var failed := AfterFailure(hash, image, pending, now);
            Upgrade(hash, failed, pending) == pending && AfterFailure(hash, failed, pending, now) == failed
  {
    var failed := AfterFailure(hash, image, pending, now);
    forall i | 0 <= i < |pending| ensures !ChunkedWrite(failed, pending[i]) {
      if pending[i].Write? {
        AfterFailureAt(hash, image, pending, now, pending[i].path);
        assert NeedsChunks(image, pending[i].path) ==> pending[i].path in ChunkedPaths(image, pending);
      }
    }
    UpgradePlain(hash, failed, pending);
    ReblockedPlain(failed, pending, now);
  }

  /** And the image shows the same files as before. */
  lemma FailureSameFiles(hash: Bytes -> string, store: BlockStore, image: Tree, pending: seq<Delta>, now: int)
    requires InlineBatch(pending) && Injective(hash) && Addressed(hash, store)
    requires BlocksStored(hash, store, image, pending)
    ensures SameFiles(store, AfterFailure(hash, image, pending, now), image)
  {
    var failed := AfterFailure(hash, image, pending, now);
    forall p ensures SameNode(store, Get(failed, p), Get(image, p)) {
      AfterFailureAt(hash, image, pending, now, p);
      if p in ChunkedPaths(image, pending) {
        RefsRead(hash, store, image[p].content.bytes);
      }
    }
  }

  // ---- several writes to one file ----

  datatype Extent = Extent(offset: nat, data: Bytes)

  /** The inline writes of the deltas to `p`, in order. */
  function Extents(deltas: seq<Delta>, p: Path): seq<Extent>
    requires InlineBatch(deltas)
  {
    if deltas == [] then []
    else
      var n := |deltas| - 1;
      var d := deltas[n];
      Extents(deltas[..n], p) + if Writes(d, p) then [Extent(d.offset, d.data.bytes)] else []
  }

  function SpliceAll(c: Bytes, ws: seq<Extent>): Bytes {
    if ws == [] then c else Splice(SpliceAll(c, ws[..|ws| - 1]), ws[|ws| - 1].offset, ws[|ws| - 1].data)
  }

  predicate Within(w: Extent, i: nat) { w.offset <= i < w.offset + |w.data| }

  /** Some write rewrites byte `i`. */
  predicate Rewritten(ws: seq<Extent>, i: nat) { exists k :: 0 <= k < |ws| && Within(ws[k], i) }

  /** How far the writes reach. */
  function Reach(ws: seq<Extent>): nat {
    if ws == [] then 0 else Max(Reach(ws[..|ws| - 1]), ws[|ws| - 1].offset + |ws[|ws| - 1].data|)
  }

  lemma RewrittenSnoc(ws: seq<Extent>, i: nat)
    requires ws != []
    ensures Rewritten(ws, i) <==> Rewritten(ws[..|ws| - 1], i) || Within(ws[|ws| - 1], i)
  {
    var n := |ws| - 1;
    if k :| 0 <= k < n && Within(ws[..n][k], i) {
      assert ws[k] == ws[..n][k];
    }
    if k :| 0 <= k < |ws| && Within(ws[k], i) {
      assert k < n ==> ws[..n][k] == ws[k];
    }
  }

  /** What shows at byte `i`, written over an empty file and over `c`. */
  ghost predicate SameWhereRewritten(c: Bytes, ws: seq<Extent>, i: nat) {
    var a, b := SpliceAll([], ws), SpliceAll(c, ws);
    && |a| == Reach(ws) && |b| == Max(|c|, Reach(ws))
    && (i < |b| && Rewritten(ws, i) ==> i < |a| && a[i] == b[i])
    && (i < |b| && !Rewritten(ws, i) ==> (i < |a| ==> a[i] == 0) && b[i] == if i < |c| then c[i] else 0)
  }

  lemma {:induction false} SpliceBoth(c: Bytes, ws: seq<Extent>, i: nat)
    ensures SameWhereRewritten(c, ws, i)
  {
    if ws != [] {
      SpliceBoth(c, ws[..|ws| - 1], i);
      RewrittenSnoc(ws, i);
    }
  }

  /** Nothing of the old content shows: it reaches no further than the writes and is zero where none of them is. */
  predicate NothingShows(content: Bytes, ws: seq<Extent>) {
    |content| <= Reach(ws) && forall i :: 0 <= i < |content| ==> Rewritten(ws, i) || content[i] == 0
  }

  /** Writing over an empty file gives the same bytes exactly then. */
  lemma SpliceFreshIff(content: Bytes, ws: seq<Extent>)
    ensures SpliceAll([], ws) == SpliceAll(content, ws) <==> NothingShows(content, ws)
  {
    var a, b := SpliceAll([], ws), SpliceAll(content, ws);
    SpliceBoth(content, ws, 0);
    if a == b {
      forall i | 0 <= i < |content| ensures Rewritten(ws, i) || content[i] == 0 {
        SpliceBoth(content, ws, i);
      }
    }
    if NothingShows(content, ws) {
      forall i | 0 <= i < |a| ensures |a| == |b| && a[i] == b[i] {
        SpliceBoth(content, ws, i);
      }
    }
  }

  // ---- a file that is only written and its attributes changed ----

  /** What gentle deltas make of a file. */
  function FileAfter(node: Node, deltas: seq<Delta>, p: Path, now: int): Node
    requires node.File? && InlineBatch(deltas)
  {
    var ws := Extents(deltas, p);
    var bytes := if node.content.Inline? then node.content.bytes else [];
    File(if ws == [] then node.content else Inline(SpliceAll(bytes, ws)),
         WrittenMeta(node.meta, node.content.Inline?, deltas, p, now).0)
  }

  lemma {:induction false} WrittenStaysInline(m: Meta, inline: bool, deltas: seq<Delta>, p: Path, now: int)
    requires InlineBatch(deltas)
    ensures WrittenMeta(m, inline, deltas, p, now).1 == (inline || Extents(deltas, p) != [])
  {
    if deltas != [] {
      WrittenStaysInline(m, inline, deltas[..|deltas| - 1], p, now);
    }
  }

  lemma FileWritten(node: Node, deltas: seq<Delta>, p: Path, now: int)
    requires node.File? && InlineBatch(deltas) && deltas != [] && Writes(deltas[|deltas| - 1], p)
    ensures var n := |deltas| - 1;
            Edited(Some(FileAfter(node, deltas[..n], p, now)), deltas[n], p, now)
              == Some(FileAfter(node, deltas, p, now))
  {
    var n := |deltas| - 1;
    var d, ws, all := deltas[n], Extents(deltas[..n], p), Extents(deltas, p);
    WrittenStaysInline(node.meta, node.content.Inline?, deltas[..n], p, now);
    assert all == ws + [Extent(d.offset, d.data.bytes)] && all[..|all| - 1] == ws;
    var bytes := if node.content.Inline? then node.content.bytes else [];
    assert SpliceAll(bytes, all) == Splice(SpliceAll(bytes, ws), d.offset, d.data.bytes);
    assert ws == [] ==> SpliceAll(bytes, ws) == bytes;
  }

  lemma FileKept(node: Node, deltas: seq<Delta>, p: Path, now: int)
    requires node.File? && InlineBatch(deltas) && deltas != []
    requires var d := deltas[|deltas| - 1]; !d.Rename? && Gentle(d, p) && !Writes(d, p)
    ensures var n := |deltas| - 1;
            Edited(Some(FileAfter(node, deltas[..n], p, now)), deltas[n], p, now)
              == Some(FileAfter(node, deltas, p, now))
  {
    var n := |deltas| - 1;
    var before := FileAfter(node, deltas[..n], p, now);
    assert Extents(deltas, p) == Extents(deltas[..n], p);
    EditedAt(map[p := before], deltas[n], p, now);
    assert Get(map[p := before], p) == Some(before);
  }

  lemma FileNext(t: Tree, node: Node, deltas: seq<Delta>, p: Path, now: int)
    requires node.File? && InlineBatch(deltas) && deltas != [] && Gentle(deltas[|deltas| - 1], p)
    requires Get(t, p) == Some(FileAfter(node, deltas[..|deltas| - 1], p, now))
    ensures Get(ApplyDelta(t, deltas[|deltas| - 1], now), p) == Some(FileAfter(node, deltas, p, now))
  {
    var d := deltas[|deltas| - 1];
    if d.Rename? {
      RenameSpares(t, d, p);
      assert Extents(deltas, p) == Extents(deltas[..|deltas| - 1], p);
    } else {
      EditedAt(t, d, p, now);
      if Writes(d, p) {
        FileWritten(node, deltas, p, now);
      } else {
        FileKept(node, deltas, p, now);
      }
    }
  }

  lemma {:induction false} GentleNode(nodes: Tree, deltas: seq<Delta>, p: Path, now: int)
    requires p in nodes && nodes[p].File? && InlineBatch(deltas) && GentleAll(deltas, p)
    ensures Get(ApplyAll(nodes, deltas, now), p) == Some(FileAfter(nodes[p], deltas, p, now))
  {
    if deltas != [] {
      var n := |deltas| - 1;
      GentleNode(nodes, deltas[..n], p, now);
      FileNext(ApplyAll(nodes, deltas[..n], now), nodes[p], deltas, p, now);
    }
  }

  // ---- the image after further changes ----

  /** Removes `p` or puts a link there. */
  predicate Displaces(d: Delta, p: Path) { (d.Remove? || d.MakeSymlink?) && Touches(d, p) }

  predicate Displaced(deltas: seq<Delta>, p: Path) { exists j :: 0 <= j < |deltas| && Displaces(deltas[j], p) }

  /** No rename touches the paths. */
  predicate NoneMoved(deltas: seq<Delta>, paths: set<Path>) {
    forall j, p :: 0 <= j < |deltas| && p in paths && deltas[j].Rename? ==> !Touches(deltas[j], p)
  }

  lemma GentleOrDisplaced(deltas: seq<Delta>, paths: set<Path>, p: Path)
    requires NoneMoved(deltas, paths) && p in paths
    ensures GentleAll(deltas, p) || Displaced(deltas, p)
  {
    if !Displaced(deltas, p) {
      forall j | 0 <= j < |deltas| ensures Gentle(deltas[j], p) {
        assert !Displaces(deltas[j], p);
      }
    }
  }

  lemma DisplacedSnoc(deltas: seq<Delta>, p: Path)
    requires deltas != [] && Displaced(deltas, p)
    ensures Displaced(deltas[..|deltas| - 1], p) || Displaces(deltas[|deltas| - 1], p)
  {
    var j :| 0 <= j < |deltas| && Displaces(deltas[j], p);
    if j < |deltas| - 1 {
      assert deltas[..|deltas| - 1][j] == deltas[j];
    }
  }

  /** Outside `differ` the trees agree; there they agree or both hold files, in the second one inline. */
  ghost predicate Alike(a: Tree, b: Tree, differ: set<Path>, deltas: seq<Delta>, q: Path) {
    || Get(a, q) == Get(b, q)
    || (q in differ && !Displaced(deltas, q) && q in a && a[q].File? && FoundInline(b, q))
  }

  ghost predicate AlikeTrees(a: Tree, b: Tree, differ: set<Path>, deltas: seq<Delta>) {
    forall q :: Alike(a, b, differ, deltas, q)
  }

  lemma AlikeEdit(a: Tree, b: Tree, differ: set<Path>, deltas: seq<Delta>, now: int, q: Path)
    requires deltas != [] && InlineBatch(deltas) && !deltas[|deltas| - 1].Rename?
    requires Alike(a, b, differ, deltas[..|deltas| - 1], q)
    ensures Alike(ApplyDelta(a, deltas[|deltas| - 1], now), ApplyDelta(b, deltas[|deltas| - 1], now), differ, deltas, q)
  {
    var d := deltas[|deltas| - 1];
    EditedAt(a, d, q, now);
    EditedAt(b, d, q, now);
    if Displaced(deltas, q) { DisplacedSnoc(deltas, q); }
  }

  lemma AlikeMove(a: Tree, b: Tree, differ: set<Path>, deltas: seq<Delta>, now: int)
    requires deltas != [] && NoneMoved(deltas, differ) && deltas[|deltas| - 1].Rename?
    requires AlikeTrees(a, b, differ, deltas[..|deltas| - 1])
    ensures AlikeTrees(ApplyDelta(a, deltas[|deltas| - 1], now), ApplyDelta(b, deltas[|deltas| - 1], now), differ,
                       deltas)
  {
    var d := deltas[|deltas| - 1];
    forall q | q !in differ ensures Get(a, q) == Get(b, q) {
      assert Alike(a, b, differ, deltas[..|deltas| - 1], q);
    }
    RenameAlike(b, a, d.from, d.to, differ);
    forall q ensures Alike(ApplyDelta(a, d, now), ApplyDelta(b, d, now), differ, deltas, q) {
      assert Alike(a, b, differ, deltas[..|deltas| - 1], q);
      if q in differ {
        RenameSpares(a, d, q);
        RenameSpares(b, d, q);
        if Displaced(deltas, q) { DisplacedSnoc(deltas, q); }
      } else {
        assert q !in DifferAfter(b, d.from, d.to, differ);
      }
    }
  }

  lemma {:induction false} AlikeAll(a: Tree, b: Tree, differ: set<Path>, deltas: seq<Delta>, now: int)
    requires InlineBatch(deltas) && NoneMoved(deltas, differ) && AlikeTrees(a, b, differ, [])
    ensures AlikeTrees(ApplyAll(a, deltas, now), ApplyAll(b, deltas, now), differ, deltas)
  {
    if deltas != [] {
      var n := |deltas| - 1;
      var x, y := ApplyAll(a, deltas[..n], now), ApplyAll(b, deltas[..n], now);
      AlikeAll(a, b, differ, deltas[..n], now);
      if deltas[n].Rename? {
        AlikeMove(x, y, differ, deltas, now);
      } else {
        forall q ensures Alike(ApplyDelta(x, deltas[n], now), ApplyDelta(y, deltas[n], now), differ, deltas, q) {
          assert Alike(x, y, differ, deltas[..n], q);
          AlikeEdit(x, y, differ, deltas, now, q);
        }
      }
    }
  }

  /** The image as it is and as the batch means it, after further changes. */
  lemma FurtherAlike(hash: Bytes -> string, image: Tree, pending: seq<Delta>, more: seq<Delta>, now: int)
    requires InlineBatch(pending) && InlineBatch(more) && NoneMoved(more, ChunkedPaths(image, pending))
    ensures var failed, differ := AfterFailure(hash, image, pending, now), ChunkedPaths(image, pending);
            AlikeTrees(ApplyAll(failed, more, now), ApplyAll(image, more, now), differ, more)
  {
    var failed, differ := AfterFailure(hash, image, pending, now), ChunkedPaths(image, pending);
    forall q ensures Alike(failed, image, differ, [], q) {
      AfterFailureAt(hash, image, pending, now, q);
    }
    AlikeAll(failed, image, differ, more, now);
  }

  /** Nothing of a file that the failed commit re-blocked shows through the further writes to it, and the metadata,
      which the first of them resets, comes to the same. */
  predicate Overwritten(image: Tree, p: Path, more: seq<Delta>, now: int)
    requires InlineBatch(more) && FoundInline(image, p)
  {
    && NothingShows(image[p].content.bytes, Extents(more, p))
    && WrittenMeta(image[p].meta, false, more, p, now).0 == WrittenMeta(image[p].meta, true, more, p, now).0
  }

  /** Both nodes at a re-blocked file that is gently changed. */
  lemma FurtherNodes(hash: Bytes -> string, image: Tree, pending: seq<Delta>, more: seq<Delta>, p: Path, now: int)
    requires InlineBatch(pending) && InlineBatch(more) && p in ChunkedPaths(image, pending) && GentleAll(more, p)
    ensures var failed := AfterFailure(hash, image, pending, now);
            && p in failed && failed[p] == ChunkNode(hash, image, p, image[p].meta)
            && Get(ApplyAll(failed, more, now), p) == Some(FileAfter(failed[p], more, p, now))
            && Get(ApplyAll(image, more, now), p) == Some(FileAfter(image[p], more, p, now))
  {
    AfterFailureAt(hash, image, pending, now, p);
    GentleNode(AfterFailure(hash, image, pending, now), more, p, now);
    GentleNode(image, more, p, now);
  }

  lemma {:induction false} UnwrittenMeta(m: Meta, a: bool, b: bool, deltas: seq<Delta>, p: Path, now: int)
    requires InlineBatch(deltas) && Extents(deltas, p) == []
    ensures WrittenMeta(m, a, deltas, p, now).0 == WrittenMeta(m, b, deltas, p, now).0
  {
    if deltas != [] {
      UnwrittenMeta(m, a, b, deltas[..|deltas| - 1], p, now);
    }
  }

  lemma FurtherSameIff(
    hash: Bytes -> string, store: BlockStore, image: Tree, pending: seq<Delta>, more: seq<Delta>, p: Path, now: int)
    requires InlineBatch(pending) && InlineBatch(more) && Injective(hash) && Addressed(hash, store)
    requires p in ChunkedPaths(image, pending) && GentleAll(more, p) && Stored(store, FileRefs(hash, image, p))
    ensures var failed := AfterFailure(hash, image, pending, now);
            SameNode(store, Get(ApplyAll(failed, more, now), p), Get(ApplyAll(image, more, now), p))
            <==> Extents(more, p) == [] || Overwritten(image, p, more, now)
  {
    FurtherNodes(hash, image, pending, more, p, now);
    RefsRead(hash, store, image[p].content.bytes);
    if Extents(more, p) == [] {
      UnwrittenMeta(image[p].meta, false, true, more, p, now);
    } else {
      SpliceFreshIff(image[p].content.bytes, Extents(more, p));
    }
  }

  /** The handle's image after any further changes that move none of the files a failed commit has re-blocked: it shows
      what the batch means if and only if each of these is removed or replaced by a link, or not written, or nothing of
      its old content shows through the writes and the metadata comes to the same. */
  lemma ImageAfterFailureIff(
    hash: Bytes -> string, store: BlockStore, image: Tree, pending: seq<Delta>, more: seq<Delta>, now: int)
    requires InlineBatch(pending) && InlineBatch(more) && Injective(hash) && Addressed(hash, store)
    requires BlocksStored(hash, store, image, pending) && NoneMoved(more, ChunkedPaths(image, pending))
    ensures var failed := AfterFailure(hash, image, pending, now);
            SameFiles(store, ApplyAll(failed, more, now), ApplyAll(image, more, now))
            <==> forall p :: p in ChunkedPaths(image, pending) ==>
                   Displaced(more, p) || Extents(more, p) == [] || Overwritten(image, p, more, now)
  {
    var failed, differ := AfterFailure(hash, image, pending, now), ChunkedPaths(image, pending);
    var a, b := ApplyAll(failed, more, now), ApplyAll(image, more, now);
    FurtherAlike(hash, image, pending, more, now);
    forall p
      ensures SameNode(store, Get(a, p), Get(b, p))
              <==> (p in differ ==> Displaced(more, p) || Extents(more, p) == [] || Overwritten(image, p, more, now))
    {
      assert Alike(a, b, differ, more, p);
      if p in differ && !Displaced(more, p) {
        GentleOrDisplaced(more, differ, p);
        FurtherSameIff(hash, store, image, pending, more, p, now);
      }
    }
  }

  // ---- what the next commit then puts on the stream ----

  /** The image and the batch of the next commit. */
  function NextTry(
    hash: Bytes -> string, start: Tree, pending: seq<Delta>, more: seq<Delta>, now: int): (Tree, seq<Delta>) {
    (ApplyAll(AfterFailure(hash, ApplyAll(start, pending, now), pending, now), more, now), pending + more)
  }

  lemma {:induction false} ApplyAllConcat(nodes: Tree, a: seq<Delta>, b: seq<Delta>, now: int)
    ensures ApplyAll(nodes, a + b, now) == ApplyAll(ApplyAll(nodes, a, now), b, now)
    decreases |b|
  {
    if b == [] {
      assert a + b == a;
    } else {
      assert (a + b)[..|a + b| - 1] == a + b[..|b| - 1];
      ApplyAllConcat(nodes, a, b[..|b| - 1], now);
    }
  }

  lemma CarriedBefore(start: Tree, final: Tree, all: seq<Delta>, p: Path, now: int)
    requires all != [] && p in ChunkedPaths(final, all[..|all| - 1])
    requires p in Statuses(start, final, all, now) && Statuses(start, final, all, now)[p].Carried?
    ensures !Displaces(all[|all| - 1], p)
    ensures var st := Statuses(start, final, all[..|all| - 1], now); p in st && st[p].Carried?
  {
    StatusPaths(start, final, all[..|all| - 1], now);
  }

  /** A path that is carried at the end was neither removed nor replaced by a link since it was first written. */
  lemma {:induction false} CarriedUndisplaced(
    start: Tree, final: Tree, pending: seq<Delta>, more: seq<Delta>, p: Path, now: int)
    requires p in ChunkedPaths(final, pending) && p in Statuses(start, final, pending + more, now)
    requires Statuses(start, final, pending + more, now)[p].Carried?
    ensures !Displaced(more, p)
    decreases |more|
  {
    if more != [] {
      var n, all := |more| - 1, pending + more;
      assert all[..|all| - 1] == pending + more[..n] && all[|all| - 1] == more[n];
      ChunkedGrow(final, pending, more[..n], p);
      CarriedBefore(start, final, all, p, now);
      CarriedUndisplaced(start, final, pending, more[..n], p, now);
      if Displaced(more, p) { DisplacedSnoc(more, p); }
    }
  }

  lemma ChunkedGrow(final: Tree, a: seq<Delta>, b: seq<Delta>, p: Path)
    requires p in ChunkedPaths(final, a)
    ensures p in ChunkedPaths(final, a + b)
  {
    var i :| 0 <= i < |a| && ChunkedWrite(final, a[i]) && a[i].path == p;
    assert (a + b)[i] == a[i];
  }

  /** A re-blocked file that the next commit chunks was written in the refused batch. */
  lemma StillChunked(image: Tree, final: Tree, pending: seq<Delta>, p: Path)
    requires p in ChunkedPaths(image, pending) && NeedsChunks(final, p)
    ensures p in ChunkedPaths(final, pending)
  {
    var i :| 0 <= i < |pending| && ChunkedWrite(image, pending[i]) && pending[i].path == p;
    assert ChunkedWrite(final, pending[i]);
  }

  /** Whether the next commit looks at the right content of a file. */
  lemma ContentSeenIff(hash: Bytes -> string, start: Tree, pending: seq<Delta>, more: seq<Delta>, p: Path, now: int)
    requires InlineBatch(pending) && InlineBatch(more)
             && NoneMoved(more, ChunkedPaths(ApplyAll(start, pending, now), pending))
    requires var (image', pending') := NextTry(hash, start, pending, more, now); p in ChunkedPaths(image', pending')
    ensures var image := ApplyAll(start, pending, now);
            var (image', pending') := NextTry(hash, start, pending, more, now);
            var st := Statuses(start, image', pending', now);
            && p in st && NeedsChunks(image', p) && FoundInline(ApplyAll(start, pending', now), p)
            && (ContentSeen(image', ApplyAll(start, pending', now), st[p], p)
                <==> (st[p].Carried? && p in ChunkedPaths(image, pending) ==>
                        FoundInline(image, p) && NothingShows(image[p].content.bytes, Extents(more, p))))
  {
    var image := ApplyAll(start, pending, now);
    var (image', pending') := NextTry(hash, start, pending, more, now);
    var st, differ := Statuses(start, image', pending', now), ChunkedPaths(image, pending);
    StatusPaths(start, image', pending', now);
    ApplyAllConcat(start, pending, more, now);
    FurtherAlike(hash, image, pending, more, now);
    assert Alike(image', ApplyAll(image, more, now), differ, more, p);
    if st[p].Carried? && p in differ {
      StillChunked(image, image', pending, p);
      CarriedUndisplaced(start, image', pending, more, p, now);
      GentleOrDisplaced(more, differ, p);
      FurtherNodes(hash, image, pending, more, p, now);
      SpliceFreshIff(image[p].content.bytes, Extents(more, p));
    }
  }

  /** What the next commit puts on the stream after any further changes that move none of the re-blocked files, exactly.
      A batch in which nothing is chunked any more is appended as it is, and the stream is right whatever the image
      shows. Otherwise the stream is right if and only if every file it does chunk is preserved and, if it was
      re-blocked, nothing of its old content shows through the further writes. */
  lemma StreamAfterFailureIff(
    hash: Bytes -> string, store: BlockStore, start: Tree, pending: seq<Delta>, more: seq<Delta>, now: int)
    requires InlineBatch(pending) && InlineBatch(more) && Injective(hash) && Addressed(hash, store)
    requires NoneMoved(more, ChunkedPaths(ApplyAll(start, pending, now), pending))
    requires var (image', pending') := NextTry(hash, start, pending, more, now);
             MildBatch(start, image', pending', now) && BlocksStored(hash, store, image', pending')
    ensures var image := ApplyAll(start, pending, now);
            var (image', pending') := NextTry(hash, start, pending, more, now);
            var st := Statuses(start, image', pending', now);
            && st.Keys == ChunkedPaths(image', pending')
            && (ChunkedPaths(image', pending') == {} ==> Upgrade(hash, image', pending') == pending')
            && (SameFiles(store, ApplyAll(start, Upgrade(hash, image', pending'), now), ApplyAll(start, pending', now))
                <==> forall p :: p in ChunkedPaths(image', pending') ==>
                       && Preserved(store, start, image', pending', st[p], p, now)
                       && (st[p].Carried? && p in ChunkedPaths(image, pending) ==>
                             FoundInline(image, p) && NothingShows(image[p].content.bytes, Extents(more, p))))
  {
    var (image', pending') := NextTry(hash, start, pending, more, now);
    forall p | p in ChunkedPaths(image', pending') ensures FoundInline(ApplyAll(start, pending', now), p) {
      ContentSeenIff(hash, start, pending, more, p, now);
    }
    CommitShowsIff(hash, start, image', pending', store, now);
    if ChunkedPaths(image', pending') == {} {
      NoneChunked(hash, image', pending');
    }
    forall p | p in ChunkedPaths(image', pending')
      ensures var image, st := ApplyAll(start, pending, now), Statuses(start, image', pending', now);
              p in st && NeedsChunks(image', p) && FoundInline(ApplyAll(start, pending', now), p)
              && (ContentSeen(image', ApplyAll(start, pending', now), st[p], p)
                  <==> (st[p].Carried? && p in ChunkedPaths(image, pending) ==>
                          FoundInline(image, p) && NothingShows(image[p].content.bytes, Extents(more, p))))
    {
      ContentSeenIff(hash, start, pending, more, p, now);
    }
  }

  lemma NoneChunked(hash: Bytes -> string, final: Tree, pending: seq<Delta>)
    requires ChunkedPaths(final, pending) == {}
    ensures Upgrade(hash, final, pending) == pending
  {
    forall i | 0 <= i < |pending| ensures !ChunkedWrite(final, pending[i]) {
      ChunkedIn(final, pending, i);
    }
    UpgradePlain(hash, final, pending);
  }

  lemma ChunkedIn(final: Tree, pending: seq<Delta>, i: nat)
    requires i < |pending|
    ensures ChunkedWrite(final, pending[i]) ==> pending[i].Write? && pending[i].path in ChunkedPaths(final, pending)
  {
  }

  // ---- an input for which both go wrong ----

  lemma OneExtent(p: Path, data: Bytes, now: int)
    ensures var more := [Write(p, 0, InlineData(data))];
            && InlineBatch(more) && Extents(more, p) == [Extent(0, data)] && Reach([Extent(0, data)]) == |data|
            && !Displaced(more, p) && GentleAll(more, p)
  {
    var more := [Write(p, 0, InlineData(data))];
    assert more[..0] == [];
    assert Extents(more[..0], p) == [];
    assert [Extent(0, data)][..0] == [];
  }

  lemma LargeImage(p: Path, written: Bytes, now: int)
    requires |written| > CHUNK
    ensures var pending := [Write(p, 0, InlineData(written))];
            var image := ApplyAll(map[], pending, now);
            image == map[p := File(Inline(written), FileMeta(now))] && ChunkedPaths(image, pending) == {p}
  {
    var pending := [Write(p, 0, InlineData(written))];
    OneWrite(map[], p, written, now);
    assert Splice([], 0, written) == written;
    var image: Tree := map[p := File(Inline(written), FileMeta(now))];
    assert ChunkedWrite(image, pending[0]);
  }

  lemma NextImage(hash: Bytes -> string, p: Path, written: Bytes, data: Bytes, now: int)
    requires |written| > CHUNK
    ensures var (image', pending') :=
            NextTry(hash, map[], [Write(p, 0, InlineData(written))], [Write(p, 0, InlineData(data))], now);
            && p in image' && image'[p] == File(Inline(data), FileMeta(now))
            && ChunkedPaths(image', pending') == if |data| > CHUNK then {p} else {}
  {
    var d1, d2 := Write(p, 0, InlineData(written)), Write(p, 0, InlineData(data));
    var (image', pending') := NextTry(hash, map[], [d1], [d2], now);
    LargeImage(p, written, now);
    OneExtent(p, data, now);
    var image := ApplyAll(map[], [d1], now);
    FurtherNodes(hash, image, [d1], [d2], p, now);
    WrittenInline(FileMeta(now), false, [d2], p, now);
    assert Splice([], 0, data) == data;
    assert [Extent(0, data)][..0] == [];
    assert SpliceAll([], [Extent(0, data)]) == data;
    assert AttrsOver(FileMeta(now), [d2], p) == FileMeta(now) by { assert [d2][..0] == []; }
    assert pending' == [d1, d2];
    assert ChunkedWrite(image', pending'[0]) <==> |data| > CHUNK;
    assert ChunkedWrite(image', pending'[1]) <==> |data| > CHUNK;
  }

  /** A large file written, its commit refused, and a shorter write to the same place: the image shows only the second
      write. If that one is larger than a chunk, the next commit leaves the end of the file out of the stream too. */
  lemma WriteAfterFailureLosesBytes(
    hash: Bytes -> string, store: BlockStore, p: Path, written: Bytes, data: Bytes, now: int)
    requires Injective(hash) && Addressed(hash, store) && |written| > CHUNK && |data| < |written|
    requires Stored(store, RefsOf(hash, Chunks(written))) && Stored(store, RefsOf(hash, Chunks(data)))
    ensures var pending, more := [Write(p, 0, InlineData(written))], [Write(p, 0, InlineData(data))];
            var (image', pending') := NextTry(hash, map[], pending, more, now);
            && !SameFiles(store, image', ApplyAll(map[], pending', now))
            && (SameFiles(store, ApplyAll(map[], Upgrade(hash, image', pending'), now), ApplyAll(map[], pending', now))
                <==> |data| <= CHUNK)
  {
    var pending, more := [Write(p, 0, InlineData(written))], [Write(p, 0, InlineData(data))];
    var (image', pending') := NextTry(hash, map[], pending, more, now);
    LargeImage(p, written, now);
    OneExtent(p, data, now);
    NextImage(hash, p, written, data, now);
    ApplyAllConcat(map[], pending, more, now);
    ImageAfterFailureIff(hash, store, ApplyAll(map[], pending, now), pending, more, now);
    AllCarried(map[], image', pending', now);
    StreamAfterFailureIff(hash, store, map[], pending, more, now);
  }
}
