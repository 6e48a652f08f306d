/**
 When a commit preserves what its batch means: conditions on the batch and on what its writes find, for the stream and
 for the image the handle keeps.
 */
module FsCommit {
  import opened Prelude
  import opened FsImage
  import opened FsBlocks
  import opened FsUpgrade

  // ---- metadata along a batch ----

  /** The attribute changes of `p` on top of its metadata. */
  function AttrsOver(m: Meta, deltas: seq<Delta>, p: Path): Meta {
    if deltas == [] then m
    else
      var n := |deltas| - 1;
      var before := AttrsOver(m, deltas[..n], p);
      if Attr(deltas[n]) && deltas[n].path == p then AttrMeta(before, deltas[n]) else before
  }

  /** The metadata that writes and attribute changes of `p` leave, and whether the content is inline: an inline write
      over anything but an inline file starts from the metadata of a new file, a block write keeps what is there. */
  function WrittenMeta(m: Meta, inline: bool, deltas: seq<Delta>, p: Path, now: int): (Meta, bool) {
    if deltas == [] then (m, inline)
    else
      var n := |deltas| - 1;
      var (m', inline') := WrittenMeta(m, inline, deltas[..n], p, now);
      if Writes(deltas[n], p) then
        if deltas[n].data.BlockData? then (m', false) else (if inline' then m' else FileMeta(now), true)
      else if Attr(deltas[n]) && deltas[n].path == p then (AttrMeta(m', deltas[n]), inline')
      else (m', inline')
  }

  /** The batch up to the first write of a chunked path. */
  function Front(final: Tree, pending: seq<Delta>, p: Path): seq<Delta>
    requires p in ChunkedPaths(final, pending)
  {
    var n := |pending| - 1;
    if p in ChunkedPaths(final, pending[..n]) then Front(final, pending[..n], p) else pending[..n]
  }

  /** The batch from that write on. */
  function Since(final: Tree, pending: seq<Delta>, p: Path): seq<Delta>
    requires p in ChunkedPaths(final, pending)
  {
    var n := |pending| - 1;
    if p in ChunkedPaths(final, pending[..n]) then Since(final, pending[..n], p) + [pending[n]] else [pending[n]]
  }

  lemma {:induction false} FrontAndSince(final: Tree, pending: seq<Delta>, p: Path)
    requires p in ChunkedPaths(final, pending)
    ensures Front(final, pending, p) + Since(final, pending, p) == pending
    ensures Since(final, pending, p) != [] && Writes(Since(final, pending, p)[0], p) && NeedsChunks(final, p)
  {
    var n := |pending| - 1;
    ChunkedSnoc(final, pending);
    assert pending == pending[..n] + [pending[n]];
    if p in ChunkedPaths(final, pending[..n]) {
      FrontAndSince(final, pending[..n], p);
      JoinSnoc(Front(final, pending[..n], p), Since(final, pending[..n], p), pending[n]);
    }
  }

  lemma JoinSnoc(a: seq<Delta>, b: seq<Delta>, d: Delta)
    ensures a + (b + [d]) == (a + b) + [d]
  {
  }

  /** Carrying along the metadata that the first of these deltas finds in `t` comes to the same as replaying the writes.
      */
  predicate MetaKept(t: Tree, since: seq<Delta>, p: Path, now: int) {
    AttrsOver(FoundMeta(t, p, now), since, p) == WrittenMeta(FoundMeta(t, p, now), FoundInline(t, p), since, p, now).0
  }

  /** For a chunked path of a batch. */
  predicate BatchKeepsMeta(start: Tree, final: Tree, pending: seq<Delta>, p: Path, now: int)
    requires p in ChunkedPaths(final, pending)
  {
    MetaKept(ApplyAll(start, Front(final, pending, p), now), Since(final, pending, p), p, now)
  }

  lemma {:induction false} WrittenInline(m: Meta, inline: bool, deltas: seq<Delta>, p: Path, now: int)
    requires InlineBatch(deltas) && deltas != [] && Writes(deltas[0], p)
    ensures WrittenMeta(m, inline, deltas, p, now) == (AttrsOver(if inline then m else FileMeta(now), deltas, p), true)
  {
    var n := |deltas| - 1;
    if n == 0 {
      assert deltas[..0] == [];
    } else {
      WrittenInline(m, inline, deltas[..n], p, now);
    }
  }

  /** For inline writes: the attribute changes behind the first write make the same of the metadata it finds and of the
      metadata it leaves. */
  lemma MetaKeptInlineIff(start: Tree, final: Tree, pending: seq<Delta>, p: Path, now: int)
    requires InlineBatch(pending) && p in ChunkedPaths(final, pending)
    ensures var t, since := ApplyAll(start, Front(final, pending, p), now), Since(final, pending, p);
            BatchKeepsMeta(start, final, pending, p, now)
            <==> AttrsOver(FoundMeta(t, p, now), since, p) == AttrsOver(InlineBase(t, p, now).1, since, p)
  {
    var t, front, since := ApplyAll(start, Front(final, pending, p), now), Front(final, pending, p),
      Since(final, pending, p);
    FrontAndSince(final, pending, p);
    assert InlineBatch(since) by { InlineParts(front, since); }
    WrittenInline(FoundMeta(t, p, now), FoundInline(t, p), since, p, now);
  }

  lemma InlineParts(a: seq<Delta>, b: seq<Delta>)
    requires InlineBatch(a + b)
    ensures InlineBatch(b)
  {
    forall i | 0 <= i < |b| && b[i].Write? ensures b[i].data.InlineData? {
      assert (a + b)[|a| + i] == b[i];
    }
  }

  // ---- what carried metadata comes to ----

  /** What the original replay holds at a path that is still carried, by the batch alone: `rest` begins with
      its first write, which finds `t`. */
  ghost predicate CarriedFrom(
    t: Tree, rest: seq<Delta>, p: Path, meta: Meta, nodes: Tree, now: int)
  {
    && meta == AttrsOver(FoundMeta(t, p, now), rest, p)
    && p in nodes && nodes[p].File?
    && (nodes[p].meta, nodes[p].content.Inline?) == WrittenMeta(FoundMeta(t, p, now), FoundInline(t, p), rest, p, now)
  }

  lemma AttrsSnoc(m: Meta, deltas: seq<Delta>, d: Delta, p: Path)
    ensures var before := AttrsOver(m, deltas, p);
            AttrsOver(m, deltas + [d], p) == if Attr(d) && d.path == p then AttrMeta(before, d) else before
  {
    assert (deltas + [d])[..|deltas|] == deltas;
  }

  lemma WrittenSnoc(m: Meta, inline: bool, deltas: seq<Delta>, d: Delta, p: Path, now: int)
    ensures var (m', inline') := WrittenMeta(m, inline, deltas, p, now);
            WrittenMeta(m, inline, deltas + [d], p, now)
            == if Writes(d, p) then
                 if d.data.BlockData? then (m', false) else (if inline' then m' else FileMeta(now), true)
               else if Attr(d) && d.path == p then (AttrMeta(m', d), inline')
               else (m', inline')
  {
    assert (deltas + [d])[..|deltas|] == deltas;
  }

  lemma CarriedBegins(t: Tree, final: Tree, d: Delta, now: int)
    requires ChunkedWrite(final, d)
    ensures CarriedFrom(t, [d], d.path, FoundMeta(t, d.path, now), ApplyDelta(t, d, now), now)
  {
    assert [] + [d] == [d];
    AttrsSnoc(FoundMeta(t, d.path, now), [], d, d.path);
    WrittenSnoc(FoundMeta(t, d.path, now), FoundInline(t, d.path), [], d, d.path, now);
  }

  lemma CarriedEdits(t: Tree, rest: seq<Delta>, p: Path, meta: Meta, nodes: Tree, d: Delta, now: int)
    requires CarriedFrom(t, rest, p, meta, nodes, now)
    requires !d.Rename? && (Touches(d, p) ==> Writes(d, p) || Attr(d) || d.Mkdir?)
    ensures CarriedFrom(t, rest + [d], p, if Attr(d) && d.path == p then AttrMeta(meta, d) else meta,
                        ApplyDelta(nodes, d, now), now)
  {
    AttrsSnoc(FoundMeta(t, p, now), rest, d, p);
    WrittenSnoc(FoundMeta(t, p, now), FoundInline(t, p), rest, d, p, now);
    EditedAt(nodes, d, p, now);
  }

  lemma CarriedMoves(t: Tree, rest: seq<Delta>, p: Path, meta: Meta, nodes: Tree, d: Delta, now: int)
    requires CarriedFrom(t, rest, p, meta, nodes, now) && d.Rename?
    requires Mild(Carried(meta), d, p) && NextStatus(Carried(meta), nodes, d, p, now) == Carried(meta)
    ensures CarriedFrom(t, rest + [d], p, meta, ApplyDelta(nodes, d, now), now)
  {
    AttrsSnoc(FoundMeta(t, p, now), rest, d, p);
    WrittenSnoc(FoundMeta(t, p, now), FoundInline(t, p), rest, d, p, now);
    assert p == d.to ==> !Under(p, d.to);
    RenameSpares(nodes, d, p);
  }

  lemma CarriedNext(t: Tree, rest: seq<Delta>, p: Path, meta: Meta, nodes: Tree, d: Delta, now: int)
    requires CarriedFrom(t, rest, p, meta, nodes, now)
    requires Mild(Carried(meta), d, p) && NextStatus(Carried(meta), nodes, d, p, now).Carried?
    ensures CarriedFrom(t, rest + [d], p, NextStatus(Carried(meta), nodes, d, p, now).meta, ApplyDelta(nodes, d, now),
                        now)
  {
    if d.Rename? {
      CarriedMoves(t, rest, p, meta, nodes, d, now);
    } else {
      CarriedEdits(t, rest, p, meta, nodes, d, now);
    }
  }

  lemma {:induction false} CarriedIs(start: Tree, final: Tree, pending: seq<Delta>, p: Path, now: int)
    requires MildBatch(start, final, pending, now) && p in ChunkedPaths(final, pending)
    requires p in Statuses(start, final, pending, now) && Statuses(start, final, pending, now)[p].Carried?
    ensures CarriedFrom(ApplyAll(start, Front(final, pending, p), now), Since(final, pending, p), p,
                        Statuses(start, final, pending, now)[p].meta, ApplyAll(start, pending, now), now)
  {
    var n := |pending| - 1;
    ChunkedSnoc(final, pending);
    if p in ChunkedPaths(final, pending[..n]) {
      CarriedSoFar(start, final, pending, p, now);
      CarriedIs(start, final, pending[..n], p, now);
      CarriedNext(ApplyAll(start, Front(final, pending[..n], p), now), Since(final, pending[..n], p), p,
                  Statuses(start, final, pending[..n], now)[p].meta, ApplyAll(start, pending[..n], now), pending[n],
                    now);
    } else {
      StatusPaths(start, final, pending[..n], now);
      CarriedBegins(ApplyAll(start, pending[..n], now), final, pending[n], now);
    }
  }

  /** What is carried was carried before, and moved by how its last delta changes it. */
  lemma CarriedSoFar(start: Tree, final: Tree, pending: seq<Delta>, p: Path, now: int)
    requires MildBatch(start, final, pending, now) && pending != []
             && p in ChunkedPaths(final, pending[..|pending| - 1])
    requires p in Statuses(start, final, pending, now) && Statuses(start, final, pending, now)[p].Carried?
    ensures var n := |pending| - 1;
            var st, nodes := Statuses(start, final, pending[..n], now), ApplyAll(start, pending[..n], now);
            && p in st && st[p].Carried? && Mild(st[p], pending[n], p)
            && Statuses(start, final, pending, now)[p] == NextStatus(st[p], nodes, pending[n], p, now)
  {
    StatusPaths(start, final, pending[..|pending| - 1], now);
  }

  // ---- the stream ----

  /** What the commit makes of a chunked file is what the batch makes of it: `plain` is the replay of the batch, and the
      commit may have looked at another image. */
  ghost predicate Preserved(
    store: BlockStore, start: Tree, final: Tree, pending: seq<Delta>, s: Status, p: Path, now: int)
    requires p in ChunkedPaths(final, pending)
  {
    match s
    case Carried(_) => BatchKeepsMeta(start, final, pending, p, now)
    case Shown(node) => SameNode(store, node, Get(ApplyAll(start, pending, now), p))
    case Settled => true
    case Lost => false
  }

  /** The commit looked at the content that the batch leads to. */
  predicate ContentSeen(final: Tree, plain: Tree, s: Status, p: Path)
    requires NeedsChunks(final, p) && FoundInline(plain, p)
  {
    s.Carried? ==> plain[p].content == final[p].content
  }

  lemma RightIsPreserved(store: BlockStore, start: Tree, final: Tree, pending: seq<Delta>, p: Path, now: int)
    requires MildBatch(start, final, pending, now) && p in ChunkedPaths(final, pending) && NeedsChunks(final, p)
    requires p in Statuses(start, final, pending, now) && FoundInline(ApplyAll(start, pending, now), p)
    ensures var plain, s := ApplyAll(start, pending, now), Statuses(start, final, pending, now)[p];
            Right(store, final, plain, s, p)
            <==> ContentSeen(final, plain, s, p) && Preserved(store, start, final, pending, s, p, now)
  {
    if Statuses(start, final, pending, now)[p].Carried? {
      CarriedIs(start, final, pending, p, now);
    }
  }

  /** What a commit puts on the stream, by the batch: it shows what the batch means if and only if, for every chunked
      file, the commit looked at the content that the batch leads to and the metadata comes to the same, or what was
      moved there behind its first write is what the batch leads to. */
  lemma CommitShowsIff(
    hash: Bytes -> string, start: Tree, final: Tree, pending: seq<Delta>, store: BlockStore, now: int)
    requires MildBatch(start, final, pending, now) && Injective(hash) && Addressed(hash, store)
    requires forall p :: p in ChunkedPaths(final, pending) ==> Stored(store, FileRefs(hash, final, p))
    requires forall p :: p in ChunkedPaths(final, pending) ==> FoundInline(ApplyAll(start, pending, now), p)
    ensures var plain, st := ApplyAll(start, pending, now), Statuses(start, final, pending, now);
            && st.Keys == ChunkedPaths(final, pending)
            && (SameFiles(store, ApplyAll(start, Upgrade(hash, final, pending), now), plain)
                <==> forall p :: p in ChunkedPaths(final, pending) ==>
                       ContentSeen(final, plain, st[p], p) && Preserved(store, start, final, pending, st[p], p, now))
  {
    var plain, st := ApplyAll(start, pending, now), Statuses(start, final, pending, now);
    UpgradeShowsIff(hash, start, final, pending, store, now);
    forall p | p in ChunkedPaths(final, pending)
      ensures Right(store, final, plain, st[p], p)
              <==> ContentSeen(final, plain, st[p], p) && Preserved(store, start, final, pending, st[p], p, now)
    {
      RightIsPreserved(store, start, final, pending, p, now);
    }
  }

  /** The block upgrade, exactly: replaying the upgraded batch gives the same files, bytes and metadata if and only if
      every chunked file is preserved. One that stays in place from its first write on is, if carrying along the
      metadata which that write finds comes to the same as replaying the writes. One that is moved away, removed or
      replaced by a link is not, unless something is moved there behind that, and then the writes behind the move must
      change nothing. */
  lemma UpgradePreservesIff(hash: Bytes -> string, start: Tree, pending: seq<Delta>, store: BlockStore, now: int)
    requires Injective(hash) && Addressed(hash, store)
    requires var final := ApplyAll(start, pending, now);
             && MildBatch(start, final, pending, now)
             && forall p :: p in ChunkedPaths(final, pending) ==> Stored(store, FileRefs(hash, final, p))
    ensures var final := ApplyAll(start, pending, now);
            var st := Statuses(start, final, pending, now);
            && st.Keys == ChunkedPaths(final, pending)
            && (SameFiles(store, ApplyAll(start, Upgrade(hash, final, pending), now), final)
                <==> forall p :: p in ChunkedPaths(final, pending) ==>
                  Preserved(store, start, final, pending, st[p], p, now))
  {
    var final := ApplyAll(start, pending, now);
    StatusPaths(start, final, pending, now);
    CommitShowsIff(hash, start, final, pending, store, now);
  }

  // ---- batches that only write and change attributes ----

  /** Nothing but writes, attribute changes and superfluous directories touch `p`. */
  predicate Gentle(d: Delta, p: Path) {
    Touches(d, p) ==> d.Write? || Attr(d) || d.Mkdir?
  }

  predicate GentleAll(deltas: seq<Delta>, p: Path) { forall d :: d in deltas ==> Gentle(d, p) }

  /** From its first write on, every chunked file. */
  predicate GentleBatch(final: Tree, pending: seq<Delta>) {
    forall p :: p in ChunkedPaths(final, pending) ==> GentleAll(Since(final, pending, p), p)
  }

  lemma GentleBefore(final: Tree, pending: seq<Delta>, p: Path)
    requires pending != [] && p in ChunkedPaths(final, pending[..|pending| - 1])
    requires p in ChunkedPaths(final, pending) && GentleAll(Since(final, pending, p), p)
    ensures Gentle(pending[|pending| - 1], p) && GentleAll(Since(final, pending[..|pending| - 1], p), p)
  {
    var n, before := |pending| - 1, Since(final, pending[..|pending| - 1], p);
    assert Since(final, pending, p) == before + [pending[n]];
    assert pending[n] in before + [pending[n]];
    forall d | d in before ensures Gentle(d, p) {
      assert d in before + [pending[n]];
    }
  }

  lemma {:induction false} AllCarried(start: Tree, final: Tree, pending: seq<Delta>, now: int)
    requires GentleBatch(final, pending)
    ensures MildBatch(start, final, pending, now) && InPlace(Statuses(start, final, pending, now))
  {
    if pending != [] {
      var n := |pending| - 1;
      ChunkedSnoc(final, pending);
      forall p | p in ChunkedPaths(final, pending[..n])
        ensures GentleAll(Since(final, pending[..n], p), p) && Gentle(pending[n], p)
      {
        GentleBefore(final, pending, p);
      }
      AllCarried(start, final, pending[..n], now);
      StatusPaths(start, final, pending[..n], now);
      GentleStep(final, Statuses(start, final, pending[..n], now), ApplyAll(start, pending[..n], now), pending[n], now);
    }
  }

  predicate GentleTo(d: Delta, paths: set<Path>) { forall p :: p in paths ==> Gentle(d, p) }

  predicate InPlace(st: map<Path, Status>) { forall p :: p in st ==> st[p].Carried? }

  /** A gentle delta moves nothing from where it is carried. */
  lemma GentleStep(final: Tree, st: map<Path, Status>, nodes: Tree, d: Delta, now: int)
    requires InPlace(st) && GentleTo(d, st.Keys)
    ensures MildStep(st, d) && InPlace(NextStatuses(final, st, nodes, d, now))
  {
    forall p | p in st ensures Mild(st[p], d, p) && NextStatus(st[p], nodes, d, p, now).Carried? {
      assert p in st.Keys && Gentle(d, p);
    }
  }

  /** The first write of every chunked file finds nothing or an inline file. */
  predicate FreshOrInline(start: Tree, final: Tree, pending: seq<Delta>, now: int) {
    forall p :: p in ChunkedPaths(final, pending) ==>
      var t := ApplyAll(start, Front(final, pending, p), now);
      p !in t || FoundInline(t, p)
  }

  lemma FreshKeepsMeta(start: Tree, final: Tree, pending: seq<Delta>, p: Path, now: int)
    requires InlineBatch(pending) && FreshOrInline(start, final, pending, now) && p in ChunkedPaths(final, pending)
    ensures BatchKeepsMeta(start, final, pending, p, now)
  {
    MetaKeptInlineIff(start, final, pending, p, now);
  }

  /** The block upgrade preserves meaning: when the first write of every large file finds nothing or an inline file, and
      from there on the file is only written and its attributes changed, replaying the upgraded batch gives the same
      files, bytes and metadata. */
  lemma UpgradePreserves(hash: Bytes -> string, start: Tree, pending: seq<Delta>, store: BlockStore, now: int)
    requires Injective(hash) && Addressed(hash, store) && InlineBatch(pending)
    requires var final := ApplyAll(start, pending, now);
             && GentleBatch(final, pending) && FreshOrInline(start, final, pending, now)
             && forall p :: p in ChunkedPaths(final, pending) ==> Stored(store, FileRefs(hash, final, p))
    ensures SameFiles(store, ApplyAll(start, Upgrade(hash, ApplyAll(start, pending, now), pending), now),
                      ApplyAll(start, pending, now))
  {
    var final := ApplyAll(start, pending, now);
    AllCarried(start, final, pending, now);
    UpgradePreservesIff(hash, start, pending, store, now);
    forall p | p in ChunkedPaths(final, pending)
      ensures Preserved(store, start, final, pending, Statuses(start, final, pending, now)[p], p, now)
    {
      assert p in Statuses(start, final, pending, now).Keys;
      FreshKeepsMeta(start, final, pending, p, now);
    }
  }

  // ---- the image the handle keeps ----

  /** The handle's image and the upgraded replay hold the very same node. */
  predicate SameImage(
    hash: Bytes -> string, start: Tree, final: Tree, pending: seq<Delta>, s: Status, p: Path, now: int)
    requires p in ChunkedPaths(final, pending)
  {
    && NeedsChunks(final, p)
    && match s
       case Carried(_) => BatchKeepsMeta(start, final, pending, p, now)
       case Shown(node) => node == Some(ChunkNode(hash, final, p, final[p].meta))
       case _ => false
  }

  lemma SameImageIff(hash: Bytes -> string, start: Tree, pending: seq<Delta>, now: int, p: Path)
    requires MildBatch(start, ApplyAll(start, pending, now), pending, now) && InlineBatch(pending)
    requires p in ChunkedPaths(ApplyAll(start, pending, now), pending)
    ensures var final := ApplyAll(start, pending, now);
            var upgraded, st := Upgrade(hash, final, pending), Statuses(start, final, pending, now);
            && p in st
            && ((st[p].Lost? || NoneLost(st)) ==>
                  (Get(Reblocked(final, upgraded, now), p) == Get(ApplyAll(start, upgraded, now), p)
                   <==> SameImage(hash, start, final, pending, st[p], p, now)))
  {
    var final := ApplyAll(start, pending, now);
    var upgraded, st := Upgrade(hash, final, pending), Statuses(start, final, pending, now);
    assert pending[..|pending|] == pending;
    StatusPaths(start, final, pending, now);
    ReblockedAt(hash, final, pending, |pending|, now, p);
    if st[p].Lost? {
      LostStays(hash, start, final, pending, now, p);
    } else if NoneLost(st) {
      BatchTracks(hash, start, final, pending, now);
      assert Shows(hash, final, final, ApplyAll(start, upgraded, now), st, p);
      if st[p].Carried? { CarriedIs(start, final, pending, p, now); }
    }
  }

  /** After a commit of inline writes the handle's image is exactly what replaying the upgraded batch gives, if and only
      if every chunked file stays in place from its first write on and the metadata comes to the same, or else the block
      file itself was moved there. */
  lemma CommitImageIsReplayIff(hash: Bytes -> string, start: Tree, pending: seq<Delta>, now: int)
    requires MildBatch(start, ApplyAll(start, pending, now), pending, now) && InlineBatch(pending)
    ensures var final := ApplyAll(start, pending, now);
            var upgraded, st := Upgrade(hash, final, pending), Statuses(start, final, pending, now);
            && st.Keys == ChunkedPaths(final, pending)
            && (Reblocked(final, upgraded, now) == ApplyAll(start, upgraded, now)
                <==> forall p :: p in ChunkedPaths(final, pending) ==>
                  SameImage(hash, start, final, pending, st[p], p, now))
  {
    var final := ApplyAll(start, pending, now);
    var upgraded, st := Upgrade(hash, final, pending), Statuses(start, final, pending, now);
    var image, up := Reblocked(final, upgraded, now), ApplyAll(start, upgraded, now);
    StatusPaths(start, final, pending, now);
    forall p | p in ChunkedPaths(final, pending)
      ensures st[p].Lost? || NoneLost(st) ==>
                (Get(image, p) == Get(up, p) <==> SameImage(hash, start, final, pending, st[p], p, now))
    {
      SameImageIff(hash, start, pending, now, p);
    }
    if NoneLost(st) {
      forall q | q !in ChunkedPaths(final, pending) ensures Get(image, q) == Get(up, q) {
        UnchunkedSame(hash, start, pending, now, q);
      }
      if forall p :: p in ChunkedPaths(final, pending) ==> SameImage(hash, start, final, pending, st[p], p, now) {
        GetExtensional(image, up);
      }
    } else {
      var p :| p in st && st[p].Lost?;
      assert p in ChunkedPaths(final, pending);
    }
  }

  lemma UnchunkedSame(hash: Bytes -> string, start: Tree, pending: seq<Delta>, now: int, q: Path)
    requires MildBatch(start, ApplyAll(start, pending, now), pending, now) && InlineBatch(pending)
    requires NoneLost(Statuses(start, ApplyAll(start, pending, now), pending, now))
    requires q !in ChunkedPaths(ApplyAll(start, pending, now), pending)
    ensures var upgraded := Upgrade(hash, ApplyAll(start, pending, now), pending);
            Get(Reblocked(ApplyAll(start, pending, now), upgraded, now), q) == Get(ApplyAll(start, upgraded, now), q)
  {
    var final := ApplyAll(start, pending, now);
    assert pending[..|pending|] == pending;
    StatusPaths(start, final, pending, now);
    ReblockedAt(hash, final, pending, |pending|, now, q);
    BatchTracks(hash, start, final, pending, now);
    assert Shows(hash, final, final, ApplyAll(start, Upgrade(hash, final, pending), now),
                 Statuses(start, final, pending, now), q);
  }

  // ---- inputs ----

  lemma OneWrite(start: Tree, p: Path, data: Bytes, now: int)
    ensures ApplyAll(start, [Write(p, 0, InlineData(data))], now)
         == start[p := File(Inline(Splice(InlineBase(start, p, now).0, 0, data)), InlineBase(start, p, now).1)]
  {
    var d := Write(p, 0, InlineData(data));
    assert [] + [d] == [d];
    ApplyAllSnoc(start, [], d, now);
  }

  /** A block-backed file, directory or link overwritten by one large write: the metadata comes to the same exactly when
      it was that of a new file. */
  lemma OverwriteMetaIff(start: Tree, p: Path, data: Bytes, now: int)
    requires |data| > CHUNK && p in start && !FoundInline(start, p)
    ensures var pending := [Write(p, 0, InlineData(data))];
            var final := ApplyAll(start, pending, now);
            && ChunkedPaths(final, pending) == {p} && GentleBatch(final, pending)
            && (BatchKeepsMeta(start, final, pending, p, now) <==> start[p].meta == FileMeta(now))
  {
    var pending := [Write(p, 0, InlineData(data))];
    var final := ApplyAll(start, pending, now);
    OneWrite(start, p, data, now);
    assert ChunkedWrite(final, pending[0]);
    assert pending[..0] == [];
    assert ChunkedPaths(final, pending) == {p} && ChunkedPaths(final, pending[..0]) == {};
    assert Front(final, pending, p) == [] && Since(final, pending, p) == pending;
    MetaKeptInlineIff(start, final, pending, p, now);
    assert AttrsOver(start[p].meta, pending, p) == start[p].meta
           && AttrsOver(FileMeta(now), pending, p) == FileMeta(now);
  }

  /** Save by rename: a file is written, its next version is written beside it and moved over it. */
  function Saving(p: Path, t: Path, a: Bytes, b: Bytes): seq<Delta> {
    [Write(p, 0, InlineData(a))] + [Write(t, 0, InlineData(b))] + [Rename(t, p)]
  }

  predicate Apart(p: Path, t: Path) { p != t && !Under(p, t) && !Under(t, p) }

  lemma MovedOver(nodes: Tree, p: Path, t: Path)
    requires Apart(p, t) && nodes.Keys == {p, t}
    ensures RenameSubtree(nodes, t, p) == map[p := nodes[t]]
  {
    var top := MoveTop(nodes, t, p);
    assert top == map[p := nodes[t]];
    assert (set k | k in top.Keys && t + "/" <= k) == {};
  }

  /** The replay, part-way and whole. */
  lemma SavingReplay(p: Path, t: Path, a: Bytes, b: Bytes, now: int)
    requires Apart(p, t)
    ensures var d1, d2 := Write(p, 0, InlineData(a)), Write(t, 0, InlineData(b));
            && ApplyAll(map[], [d1], now) == map[p := File(Inline(a), FileMeta(now))]
            && ApplyAll(map[], [d1] + [d2], now)
               == map[p := File(Inline(a), FileMeta(now)), t := File(Inline(b), FileMeta(now))]
            && ApplyAll(map[], Saving(p, t, a, b), now) == map[p := File(Inline(b), FileMeta(now))]
  {
    var d1, d2 := Write(p, 0, InlineData(a)), Write(t, 0, InlineData(b));
    OneWrite(map[], p, a, now);
    assert Splice([], 0, a) == a && Splice([], 0, b) == b;
    ApplyAllSnoc(map[], [d1], d2, now);
    ApplyAllSnoc(map[], [d1] + [d2], Rename(t, p), now);
    MovedOver(map[p := File(Inline(a), FileMeta(now)), t := File(Inline(b), FileMeta(now))], p, t);
  }

  lemma StatusesSnoc(start: Tree, final: Tree, pending: seq<Delta>, d: Delta, now: int)
    ensures Statuses(start, final, pending + [d], now)
         == NextStatuses(final, Statuses(start, final, pending, now), ApplyAll(start, pending, now), d, now)
    ensures MildBatch(start, final, pending + [d], now)
            <==> MildBatch(start, final, pending, now) && MildStep(Statuses(start, final, pending, now), d)
  {
    assert (pending + [d])[..|pending|] == pending;
  }

  /** One chunked path, and a delta that brings up no other. */
  lemma NextOne(final: Tree, s: Status, nodes: Tree, d: Delta, p: Path, now: int)
    requires ChunkedWrite(final, d) ==> d.path == p
    ensures NextStatuses(final, map[p := s], nodes, d, now) == map[p := NextStatus(s, nodes, d, p, now)]
    ensures MildStep(map[p := s], d) <==> Mild(s, d, p)
  {
    var st := map[p := s];
    assert p in st && st[p] == s;
  }

  /** The file is carried until the new version is moved over it. */
  lemma SavingCarries(final: Tree, p: Path, t: Path, a: Bytes, b: Bytes, now: int)
    requires Apart(p, t) && NeedsChunks(final, p) && !NeedsChunks(final, t)
    ensures var front := [Write(p, 0, InlineData(a))] + [Write(t, 0, InlineData(b))];
            Statuses(map[], final, front, now) == map[p := Carried(FileMeta(now))]
              && MildBatch(map[], final, front, now)
  {
    var d1, d2 := Write(p, 0, InlineData(a)), Write(t, 0, InlineData(b));
    var none: seq<Delta> := [];
    StatusesSnoc(map[], final, none, d1, now);
    assert none + [d1] == [d1];
    assert Statuses(map[], final, [d1], now) == map[p := Carried(FileMeta(now))];
    StatusesSnoc(map[], final, [d1], d2, now);
    NextOne(final, Carried(FileMeta(now)), ApplyAll(map[], [d1], now), d2, p, now);
  }

  /** Then it is settled, whatever large image the commit looks at. */
  lemma SavingSettles(final: Tree, p: Path, t: Path, a: Bytes, b: Bytes, now: int)
    requires Apart(p, t) && NeedsChunks(final, p) && !NeedsChunks(final, t)
    ensures Statuses(map[], final, Saving(p, t, a, b), now) == map[p := Settled]
    ensures MildBatch(map[], final, Saving(p, t, a, b), now)
  {
    var front := [Write(p, 0, InlineData(a))] + [Write(t, 0, InlineData(b))];
    SavingReplay(p, t, a, b, now);
    SavingCarries(final, p, t, a, b, now);
    StatusesSnoc(map[], final, front, Rename(t, p), now);
    NextOne(final, Carried(FileMeta(now)), ApplyAll(map[], front, now), Rename(t, p), p, now);
  }

  /** Saving by rename in one batch is preserved. */
  lemma SavedByRename(hash: Bytes -> string, store: BlockStore, p: Path, t: Path, a: Bytes, b: Bytes, now: int)
    requires Injective(hash) && Addressed(hash, store) && Stored(store, RefsOf(hash, Chunks(b))) && Apart(p, t)
             && |b| > CHUNK
    ensures var final := ApplyAll(map[], Saving(p, t, a, b), now);
            SameFiles(store, ApplyAll(map[], Upgrade(hash, final, Saving(p, t, a, b)), now), final)
  {
    var final := ApplyAll(map[], Saving(p, t, a, b), now);
    SavingReplay(p, t, a, b, now);
    SavingSettles(final, p, t, a, b, now);
    StatusPaths(map[], final, Saving(p, t, a, b), now);
    UpgradePreservesIff(hash, map[], Saving(p, t, a, b), store, now);
  }

  /** A further write behind the move is dropped, and not preserved unless it changes nothing. */
  lemma WriteBehindSaveIff(
    hash: Bytes -> string, store: BlockStore, p: Path, t: Path, a: Bytes, b: Bytes, c: Bytes, now: int)
    requires Injective(hash) && Addressed(hash, store) && Apart(p, t) && |b| > CHUNK
    requires Stored(store, RefsOf(hash, Chunks(Splice(b, 0, c))))
    ensures var pending := Saving(p, t, a, b) + [Write(p, 0, InlineData(c))];
            var final := ApplyAll(map[], pending, now);
            SameFiles(store, ApplyAll(map[], Upgrade(hash, final, pending), now), final) <==> Splice(b, 0, c) == b
  {
    var pending := Saving(p, t, a, b) + [Write(p, 0, InlineData(c))];
    var final := ApplyAll(map[], pending, now);
    BehindSave(p, t, a, b, c, now);
    StatusPaths(map[], final, pending, now);
    UpgradePreservesIff(hash, map[], pending, store, now);
    PreservedBehindSave(store, p, pending, b, Splice(b, 0, c), now);
  }

  /** Where the batch leads, and what the upgraded replay shows instead. */
  lemma BehindSave(p: Path, t: Path, a: Bytes, b: Bytes, c: Bytes, now: int)
    requires Apart(p, t) && |b| > CHUNK
    ensures var pending := Saving(p, t, a, b) + [Write(p, 0, InlineData(c))];
            var final := ApplyAll(map[], pending, now);
            && final == map[p := File(Inline(Splice(b, 0, c)), FileMeta(now))]
            && MildBatch(map[], final, pending, now)
            && Statuses(map[], final, pending, now) == map[p := Shown(Some(File(Inline(b), FileMeta(now))))]
  {
    var d := Write(p, 0, InlineData(c));
    var saved: Tree := map[p := File(Inline(b), FileMeta(now))];
    var final: Tree := map[p := File(Inline(Splice(b, 0, c)), FileMeta(now))];
    assert ApplyAll(map[], Saving(p, t, a, b), now) == saved by { SavingReplay(p, t, a, b, now); }
    assert ApplyAll(map[], Saving(p, t, a, b) + [d], now) == final by {
      ApplyAllSnoc(map[], Saving(p, t, a, b), d, now);
      assert ApplyDelta(saved, d, now) == final;
    }
    SettledWritten(final, p, t, a, b, d, saved, now);
  }

  lemma SettledWritten(final: Tree, p: Path, t: Path, a: Bytes, b: Bytes, d: Delta, saved: Tree, now: int)
    requires Apart(p, t) && NeedsChunks(final, p) && !NeedsChunks(final, t) && Writes(d, p)
    requires ApplyAll(map[], Saving(p, t, a, b), now) == saved
    ensures Statuses(map[], final, Saving(p, t, a, b) + [d], now) == map[p := Shown(Get(saved, p))]
    ensures MildBatch(map[], final, Saving(p, t, a, b) + [d], now)
  {
    SavingSettles(final, p, t, a, b, now);
    StatusesSnoc(map[], final, Saving(p, t, a, b), d, now);
    NextOne(final, Settled, saved, d, p, now);
  }

  lemma PreservedBehindSave(store: BlockStore, p: Path, pending: seq<Delta>, b: Bytes, c: Bytes, now: int)
    requires ApplyAll(map[], pending, now) == map[p := File(Inline(c), FileMeta(now))]
    requires p in ChunkedPaths(ApplyAll(map[], pending, now), pending)
    ensures Preserved(store, map[], ApplyAll(map[], pending, now), pending,
                      Shown(Some(File(Inline(b), FileMeta(now)))), p, now)
            <==> c == b
  {
  }
}
