/**
 What the block upgrade makes of a batch. The upgraded replay is followed along the original one, path by path: a
 chunked file gets its final content at its first write, and its later writes are dropped, wherever removals, links
 and renames have left it by then.
 */
module FsUpgrade {
  import opened Prelude
  import opened KeyOrder
  import opened FsImage
  import opened FsBlocks

  // ---- deltas, one path at a time ----

  /** The delta creates, changes, moves or removes something at `p`. */
  predicate Touches(d: Delta, p: Path) {
    match d
    case Remove(path) => p == path || Under(p, path)
    case Rename(from, to) => p == from || Under(p, from) || p == to || Under(p, to)
    case _ => p == d.path
  }

  predicate Attr(d: Delta) { d.SetAttr? || d.SetXattr? }

  predicate Writes(d: Delta, p: Path) { d.Write? && d.path == p }

  /** The tree with nothing but this at `p`. */
  function Only(p: Path, o: Option<Node>): Tree {
    if o.Some? then map[p := o.value] else map[]
  }

  /** What a delta other than a rename makes of the node at `p`. */
  function Edited(o: Option<Node>, d: Delta, p: Path, now: int): Option<Node>
    requires !d.Rename?
  {
    Get(ApplyDelta(Only(p, o), d, now), p)
  }

  lemma EditedAt(nodes: Tree, d: Delta, p: Path, now: int)
    requires !d.Rename?
    ensures Get(ApplyDelta(nodes, d, now), p) == Edited(Get(nodes, p), d, p, now)
    ensures !Touches(d, p) ==> Get(ApplyDelta(nodes, d, now), p) == Get(nodes, p)
  {
    var only := Only(p, Get(nodes, p));
    assert Get(only, p) == Get(nodes, p);
  }

  /** What a rename moves away from `p`, to another place. */
  predicate MovesAway(d: Delta, p: Path) {
    d.Rename? && (p == d.from || Under(p, d.from)) && p != d.to && !Under(p, d.to)
  }

  /** The rename replaces what is at `p`, from outside. */
  predicate MovesOnto(d: Delta, p: Path) {
    d.Rename? && p == d.to && p != d.from && !Under(p, d.from)
  }

  // ---- renames on two trees ----

  /** The moves of descendants act alike on trees that differ only in places they neither come from nor go to. */
  lemma {:induction false} MoveAllAlike(a: Tree, b: Tree, moved: seq<Path>, from: Path, to: Path, differ: set<Path>)
    requires forall q :: q !in differ ==> Get(b, q) == Get(a, q)
    requires forall q :: q in differ ==> !Under(q, from) && !Under(q, to)
    requires Movable(a, moved, from) && Movable(b, moved, from)
    ensures forall q :: q !in differ ==> Get(MoveAll(b, moved, from, to), q) == Get(MoveAll(a, moved, from, to), q)
    ensures forall q :: q in differ ==> Get(MoveAll(b, moved, from, to), q) == Get(b, q)
    decreases |moved|
  {
    if moved != [] {
      var n := |moved| - 1;
      var p := moved[n];
      MoveAllAlike(a, b, moved[..n], from, to, differ);
      assert p !in moved[..n];
      assert p !in differ;
      assert Get(MoveAll(b, moved[..n], from, to), p) == Get(MoveAll(a, moved[..n], from, to), p);
      var r := Relocate(p, from, to);
      assert Under(r, to) by { assert r[..|to| + 1] == to + "/"; }
    }
  }

  lemma SameKeysUnder(a: Tree, b: Tree, from: Path, differ: set<Path>)
    requires forall q :: q !in differ ==> Get(b, q) == Get(a, q)
    requires forall q :: q in differ ==> !Under(q, from)
    ensures KeysUnder(a.Keys, from + "/") == KeysUnder(b.Keys, from + "/")
  {
    forall q ensures q in b && Under(q, from) <==> q in a && Under(q, from) {
      if q !in differ { assert Get(b, q) == Get(a, q); }
    }
    assert (set k | k in a.Keys && from + "/" <= k) == (set k | k in b.Keys && from + "/" <= k);
  }

  /** Where two trees still differ once the node at `from` has moved. */
  function DifferAfter(a: Tree, from: Path, to: Path, differ: set<Path>): set<Path> {
    if from in a then differ - {to} else differ
  }

  lemma MoveTopAlike(a: Tree, b: Tree, from: Path, to: Path, differ: set<Path>)
    requires forall q :: q !in differ ==> Get(b, q) == Get(a, q)
    requires from !in differ
    ensures forall q :: q !in DifferAfter(a, from, to, differ) ==>
              Get(MoveTop(b, from, to), q) == Get(MoveTop(a, from, to), q)
    ensures forall q :: q in DifferAfter(a, from, to, differ) ==> Get(MoveTop(b, from, to), q) == Get(b, q)
  {
    assert Get(b, from) == Get(a, from);
    forall q | q !in DifferAfter(a, from, to, differ)
      ensures Get(MoveTop(b, from, to), q) == Get(MoveTop(a, from, to), q)
    {
      if q !in differ { assert Get(b, q) == Get(a, q); }
    }
  }

  /** A rename that moves nothing away from where two trees differ, and nothing below such a place: afterwards they
      differ there still, except at its target if something was moved there. */
  lemma RenameAlike(a: Tree, b: Tree, from: Path, to: Path, differ: set<Path>)
    requires forall q :: q !in differ ==> Get(b, q) == Get(a, q)
    requires forall q :: q in differ ==> q != from && !Under(q, from) && !Under(q, to)
    ensures forall q :: q !in DifferAfter(a, from, to, differ) ==>
              Get(RenameSubtree(b, from, to), q) == Get(RenameSubtree(a, from, to), q)
    ensures forall q :: q in DifferAfter(a, from, to, differ) ==> Get(RenameSubtree(b, from, to), q) == Get(b, q)
  {
    var x, y, rest := MoveTop(a, from, to), MoveTop(b, from, to), DifferAfter(a, from, to, differ);
    MoveTopAlike(a, b, from, to, differ);
    SameKeysUnder(x, y, from, rest);
    MoveAllAlike(x, y, KeysUnder(x.Keys, from + "/"), from, to, rest);
  }

  /** A rename leaves alone what it neither moves away nor replaces. */
  lemma RenameSpares(nodes: Tree, d: Delta, p: Path)
    requires d.Rename? && p != d.from && !Under(p, d.from) && !Under(p, d.to) && (p == d.to ==> d.from !in nodes)
    ensures Get(RenameSubtree(nodes, d.from, d.to), p) == Get(nodes, p)
  {
    RenameAlike(nodes, nodes, d.from, d.to, {p});
    assert p in DifferAfter(nodes, d.from, d.to, {p});
  }

  lemma {:induction false} MoveAllAbsent(nodes: Tree, moved: seq<Path>, from: Path, to: Path, p: Path)
    requires Movable(nodes, moved, from) && !Under(p, to) && (p in moved || p !in nodes)
    ensures p !in MoveAll(nodes, moved, from, to)
    decreases |moved|
  {
    if moved != [] {
      var n := |moved| - 1;
      var last := moved[n];
      assert last !in moved[..n];
      var r := Relocate(last, from, to);
      assert Under(r, to) by { assert r[..|to| + 1] == to + "/"; }
      if p in moved[..n] || p !in nodes {
        MoveAllAbsent(nodes, moved[..n], from, to, p);
      }
    }
  }

  /** What a rename moves away is not there afterwards. */
  lemma RenameEmpties(nodes: Tree, d: Delta, p: Path)
    requires MovesAway(d, p)
    ensures p !in RenameSubtree(nodes, d.from, d.to)
  {
    var top := MoveTop(nodes, d.from, d.to);
    MoveAllAbsent(top, KeysUnder(top.Keys, d.from + "/"), d.from, d.to, p);
  }

  // ---- where a chunked path stands ----

  /** What the upgraded replay shows at a chunked path. `Carried`: the final content, under this metadata. `Shown`:
      this, after a removal or a link, or since a write behind a move was dropped. `Settled`: the same as the original
      replay, after something was moved there. `Lost`: no file, after the path was moved away. */
  datatype Status = Carried(meta: Meta) | Shown(node: Option<Node>) | Settled | Lost

  function FoundMeta(nodes: Tree, p: Path, now: int): Meta {
    if p in nodes then nodes[p].meta else FileMeta(now)
  }

  predicate FoundInline(nodes: Tree, p: Path) {
    p in nodes && nodes[p].File? && nodes[p].content.Inline?
  }

  /** How one delta changes it; `nodes` is the original replay so far. */
  function NextStatus(s: Status, nodes: Tree, d: Delta, p: Path, now: int): Status {
    if s.Lost? then Lost
    else if s.Settled? then if Writes(d, p) then Shown(Get(nodes, p)) else Settled
    else if MovesAway(d, p) then Lost
    else if MovesOnto(d, p) && d.from in nodes then Settled
    else if d.Rename? || Writes(d, p) || !Touches(d, p) then s
    else if s.Shown? then Shown(Edited(s.node, d, p, now))
    else if Attr(d) then Carried(AttrMeta(s.meta, d))
    else if d.Remove? || d.MakeSymlink? then Shown(Edited(None, d, p, now))
    else s
  }

  function NextStatuses(final: Tree, st: map<Path, Status>, nodes: Tree, d: Delta, now: int): map<Path, Status> {
    var next := map p | p in st :: NextStatus(st[p], nodes, d, p, now);
    if ChunkedWrite(final, d) && d.path !in st then next[d.path := Carried(FoundMeta(nodes, d.path, now))] else next
  }

  /** Where every chunked path stands behind the batch. */
  function Statuses(start: Tree, final: Tree, pending: seq<Delta>, now: int): map<Path, Status> {
    if pending == [] then map[]
    else
      var n := |pending| - 1;
      NextStatuses(final, Statuses(start, final, pending[..n], now), ApplyAll(start, pending[..n], now), pending[n],
                   now)
  }

  lemma ChunkedSnoc(final: Tree, pending: seq<Delta>)
    requires pending != []
    ensures var n := |pending| - 1;
            ChunkedPaths(final, pending)
            == ChunkedPaths(final, pending[..n]) + (if ChunkedWrite(final, pending[n]) then {pending[n].path} else {})
  {
    ChunkedPathsStep(final, pending, |pending| - 1);
    assert pending[..|pending|] == pending;
  }

  lemma {:induction false} StatusPaths(start: Tree, final: Tree, pending: seq<Delta>, now: int)
    ensures Statuses(start, final, pending, now).Keys == ChunkedPaths(final, pending)
    ensures forall p :: p in ChunkedPaths(final, pending) ==> NeedsChunks(final, p)
  {
    if pending == [] {
      assert ChunkedPaths(final, pending) == {};
    } else {
      StatusPaths(start, final, pending[..|pending| - 1], now);
      ChunkedSnoc(final, pending);
    }
  }

  /** The renames this follows: away from the path, onto it unless it was moved away before, or anywhere once it is
      settled. */
  predicate Mild(s: Status, d: Delta, p: Path) {
    d.Rename? && Touches(d, p) ==> s.Settled? || MovesAway(d, p) || (!s.Lost? && MovesOnto(d, p))
  }

  predicate MildStep(st: map<Path, Status>, d: Delta) {
    forall p :: p in st ==> Mild(st[p], d, p)
  }

  predicate MildBatch(start: Tree, final: Tree, pending: seq<Delta>, now: int) {
    pending == [] ||
    var n := |pending| - 1;
    MildBatch(start, final, pending[..n], now) && MildStep(Statuses(start, final, pending[..n], now), pending[n])
  }

  // ---- the two replays side by side ----

  /** What the two replays show at `q`. */
  ghost predicate Shows(hash: Bytes -> string, final: Tree, plain: Tree, up: Tree, st: map<Path, Status>, q: Path) {
    if q !in st || st[q].Settled? then Get(up, q) == Get(plain, q)
    else match st[q]
      case Carried(meta) => NeedsChunks(final, q) && Get(up, q) == Some(ChunkNode(hash, final, q, meta))
      case Shown(node) => Get(up, q) == node
      case Lost => NoFile(up, q)
  }

  predicate NoFile(nodes: Tree, p: Path) { p in nodes ==> !nodes[p].File? }

  ghost predicate Tracks(hash: Bytes -> string, final: Tree, plain: Tree, up: Tree, st: map<Path, Status>) {
    forall q :: Shows(hash, final, plain, up, st, q)
  }

  predicate NoneLost(st: map<Path, Status>) { forall p :: p in st ==> !st[p].Lost? }

  /** The effect of one pending delta on the upgraded side. */
  function UpgradedStep(hash: Bytes -> string, final: Tree, chunked: set<Path>, up: Tree, d: Delta, now: int): Tree {
    if !ChunkedWrite(final, d) then ApplyDelta(up, d, now)
    else if d.path in chunked then up
    else ApplyDelta(up, Write(d.path, 0, BlockData(FileRefs(hash, final, d.path))), now)
  }

  lemma UpgradedNext(hash: Bytes -> string, start: Tree, final: Tree, pending: seq<Delta>, now: int)
    requires pending != []
    ensures var n := |pending| - 1;
            ApplyAll(start, Upgrade(hash, final, pending), now)
            == UpgradedStep(hash, final, ChunkedPaths(final, pending[..n]),
                            ApplyAll(start, Upgrade(hash, final, pending[..n]), now), pending[n], now)
  {
    var n := |pending| - 1;
    var d, before := pending[n], Upgrade(hash, final, pending[..n]);
    if !ChunkedWrite(final, d) {
      ApplyAllSnoc(start, before, d, now);
    } else if d.path !in ChunkedPaths(final, pending[..n]) {
      ApplyAllSnoc(start, before, Write(d.path, 0, BlockData(FileRefs(hash, final, d.path))), now);
    }
  }

  /** Deltas that are neither renames nor chunked writes. */
  lemma EditShows(
    hash: Bytes -> string, final: Tree, plain: Tree, up: Tree, st: map<Path, Status>, d: Delta, now: int, q: Path)
    requires Shows(hash, final, plain, up, st, q) && !d.Rename? && !ChunkedWrite(final, d)
    requires q in st ==> NeedsChunks(final, q) && !st[q].Lost?
    ensures Shows(hash, final, ApplyDelta(plain, d, now), ApplyDelta(up, d, now),
                  NextStatuses(final, st, plain, d, now), q)
  {
    EditedAt(plain, d, q, now);
    EditedAt(up, d, q, now);
  }

  /** A write to a path that is chunked already: only the original replay sees it. */
  lemma DroppedShows(
    hash: Bytes -> string, final: Tree, plain: Tree, up: Tree, st: map<Path, Status>, d: Delta, now: int, q: Path)
    requires Shows(hash, final, plain, up, st, q) && ChunkedWrite(final, d) && d.path in st
    requires q in st ==> !st[q].Lost?
    ensures Shows(hash, final, ApplyDelta(plain, d, now), up, NextStatuses(final, st, plain, d, now), q)
  {
    var next := NextStatuses(final, st, plain, d, now);
    assert q in next <==> q in st;
    if q != d.path {
      EditedAt(plain, d, q, now);
      assert q in st ==> next[q] == st[q];
    } else {
      assert next[q] == if st[q].Settled? then Shown(Get(plain, q)) else st[q];
    }
  }

  /** The first write to a chunked path: the upgraded replay gets all of the file at once. */
  lemma FirstShows(
    hash: Bytes -> string, final: Tree, plain: Tree, up: Tree, st: map<Path, Status>, d: Delta, now: int, q: Path)
    requires Shows(hash, final, plain, up, st, q) && ChunkedWrite(final, d) && d.path !in st
    requires q in st ==> !st[q].Lost?
    ensures Shows(hash, final, ApplyDelta(plain, d, now),
                  ApplyDelta(up, Write(d.path, 0, BlockData(FileRefs(hash, final, d.path))), now),
                  NextStatuses(final, st, plain, d, now), q)
  {
    EditedAt(plain, d, q, now);
    EditedAt(up, Write(d.path, 0, BlockData(FileRefs(hash, final, d.path))), q, now);
  }

  /** The chunked paths at which the two replays need not agree. */
  function Differing(st: map<Path, Status>): set<Path> { set q | q in st && !st[q].Settled? }

  /** No place at which the replays differ is moved away, or overwritten from below. */
  lemma DifferingSpared(final: Tree, st: map<Path, Status>, nodes: Tree, d: Delta, now: int, q: Path)
    requires d.Rename? && MildStep(st, d) && q in Differing(st) && NoneLost(NextStatuses(final, st, nodes, d, now))
    ensures q != d.from && !Under(q, d.from) && !Under(q, d.to) && (q == d.to ==> MovesOnto(d, q))
  {
    assert Mild(st[q], d, q);
    assert !NextStatuses(final, st, nodes, d, now)[q].Lost?;
    assert q == d.to ==> !Under(q, d.to);
  }

  lemma MoveShows(hash: Bytes -> string, final: Tree, plain: Tree, up: Tree, st: map<Path, Status>, d: Delta, now: int,
                  q: Path, plain': Tree, up': Tree)
    requires Shows(hash, final, plain, up, st, q) && d.Rename? && (q in st ==> !st[q].Lost?)
    requires q in Differing(st) ==>
               q != d.from && !Under(q, d.from) && !Under(q, d.to) && (q == d.to ==> MovesOnto(d, q))
    requires q !in DifferAfter(plain, d.from, d.to, Differing(st)) ==> Get(up', q) == Get(plain', q)
    requires q in DifferAfter(plain, d.from, d.to, Differing(st)) ==> Get(up', q) == Get(up, q)
    ensures Shows(hash, final, plain', up', NextStatuses(final, st, plain, d, now), q)
  {
  }

  lemma MoveTracks(hash: Bytes -> string, final: Tree, plain: Tree, up: Tree, st: map<Path, Status>, d: Delta, now: int)
    requires Tracks(hash, final, plain, up, st) && d.Rename? && MildStep(st, d)
    requires NoneLost(st) && NoneLost(NextStatuses(final, st, plain, d, now))
    ensures Tracks(hash, final, ApplyDelta(plain, d, now), ApplyDelta(up, d, now),
                   NextStatuses(final, st, plain, d, now))
  {
    var differ, plain', up' := Differing(st), ApplyDelta(plain, d, now), ApplyDelta(up, d, now);
    forall q | q !in differ ensures Get(up, q) == Get(plain, q) {
      assert Shows(hash, final, plain, up, st, q);
    }
    forall q | q in differ
      ensures q != d.from && !Under(q, d.from) && !Under(q, d.to) && (q == d.to ==> MovesOnto(d, q))
    {
      DifferingSpared(final, st, plain, d, now, q);
    }
    RenameAlike(plain, up, d.from, d.to, differ);
    forall q ensures Shows(hash, final, plain', up', NextStatuses(final, st, plain, d, now), q) {
      assert Shows(hash, final, plain, up, st, q);
      MoveShows(hash, final, plain, up, st, d, now, q, plain', up');
    }
  }

  lemma StepTracks(hash: Bytes -> string, final: Tree, plain: Tree, up: Tree, st: map<Path, Status>, d: Delta, now: int)
    requires Tracks(hash, final, plain, up, st) && MildStep(st, d) && (forall p :: p in st ==> NeedsChunks(final, p))
    requires NoneLost(st) && NoneLost(NextStatuses(final, st, plain, d, now))
    ensures Tracks(hash, final, ApplyDelta(plain, d, now), UpgradedStep(hash, final, st.Keys, up, d, now),
                   NextStatuses(final, st, plain, d, now))
  {
    if d.Rename? {
      MoveTracks(hash, final, plain, up, st, d, now);
    } else {
      forall q
        ensures Shows(hash, final, ApplyDelta(plain, d, now), UpgradedStep(hash, final, st.Keys, up, d, now),
                      NextStatuses(final, st, plain, d, now), q)
      {
        assert Shows(hash, final, plain, up, st, q);
        if !ChunkedWrite(final, d) {
          EditShows(hash, final, plain, up, st, d, now, q);
        } else if d.path in st {
          DroppedShows(hash, final, plain, up, st, d, now, q);
        } else {
          FirstShows(hash, final, plain, up, st, d, now, q);
        }
      }
    }
  }

  lemma NoneLostBefore(final: Tree, st: map<Path, Status>, nodes: Tree, d: Delta, now: int)
    requires NoneLost(NextStatuses(final, st, nodes, d, now))
    ensures NoneLost(st)
  {
    forall p | p in st ensures !st[p].Lost? {
      assert !NextStatuses(final, st, nodes, d, now)[p].Lost?;
    }
  }

  /** Part-way through any mild batch that has moved no chunked file away, every path shows what its status says.
      `final` need not be where the batch leads: it is the image the commit looks at. */
  lemma {:induction false} BatchTracks(hash: Bytes -> string, start: Tree, final: Tree, pending: seq<Delta>, now: int)
    requires MildBatch(start, final, pending, now) && NoneLost(Statuses(start, final, pending, now))
    ensures Tracks(hash, final, ApplyAll(start, pending, now), ApplyAll(start, Upgrade(hash, final, pending), now),
                   Statuses(start, final, pending, now))
  {
    if pending != [] {
      var n := |pending| - 1;
      var st, plain := Statuses(start, final, pending[..n], now), ApplyAll(start, pending[..n], now);
      NoneLostBefore(final, st, plain, pending[n], now);
      BatchTracks(hash, start, final, pending[..n], now);
      StatusPaths(start, final, pending[..n], now);
      UpgradedNext(hash, start, final, pending, now);
      StepTracks(hash, final, plain, ApplyAll(start, Upgrade(hash, final, pending[..n]), now), st, pending[n], now);
    }
  }

  // ---- what a lost path comes to ----

  lemma LostStep(
    hash: Bytes -> string, final: Tree, st: map<Path, Status>, plain: Tree, up: Tree, d: Delta, now: int, p: Path)
    requires p in st && NeedsChunks(final, p) && MildStep(st, d) && NextStatuses(final, st, plain, d, now)[p].Lost?
    requires st[p].Lost? ==> NoFile(up, p)
    ensures NoFile(UpgradedStep(hash, final, st.Keys, up, d, now), p)
  {
    assert Mild(st[p], d, p);
    if MovesAway(d, p) {
      RenameEmpties(up, d, p);
    } else if d.Rename? {
      RenameSpares(up, d, p);
    } else if !ChunkedWrite(final, d) {
      EditedAt(up, d, p, now);
    } else if d.path !in st {
      EditedAt(up, Write(d.path, 0, BlockData(FileRefs(hash, final, d.path))), p, now);
    }
  }

  /** A chunked path that was moved away after its first write is no file in the upgraded replay from then on. */
  lemma {:induction false} LostStays(
    hash: Bytes -> string, start: Tree, final: Tree, pending: seq<Delta>, now: int, p: Path)
    requires MildBatch(start, final, pending, now)
    requires p in Statuses(start, final, pending, now) && Statuses(start, final, pending, now)[p].Lost?
    ensures NoFile(ApplyAll(start, Upgrade(hash, final, pending), now), p)
  {
    if pending != [] {
      var n := |pending| - 1;
      var st := Statuses(start, final, pending[..n], now);
      StatusPaths(start, final, pending[..n], now);
      UpgradedNext(hash, start, final, pending, now);
      assert p in st;
      if st[p].Lost? {
        LostStays(hash, start, final, pending[..n], now, p);
      }
      LostStep(hash, final, st, ApplyAll(start, pending[..n], now),
               ApplyAll(start, Upgrade(hash, final, pending[..n]), now),
               pending[n], now, p);
    }
  }

  // ---- what the commit puts on the stream ----

  /** The upgraded replay is right at a chunked path that stands like this. */
  ghost predicate Right(store: BlockStore, final: Tree, plain: Tree, s: Status, p: Path)
    requires NeedsChunks(final, p) && FoundInline(plain, p)
  {
    match s
    case Carried(meta) => plain[p].content == final[p].content && plain[p].meta == meta
    case Shown(node) => SameNode(store, node, Some(plain[p]))
    case Settled => true
    case Lost => false
  }

  lemma TrackedIff(
    hash: Bytes -> string, store: BlockStore, final: Tree, plain: Tree, up: Tree, st: map<Path, Status>, p: Path)
    requires Injective(hash) && Addressed(hash, store) && p in st && !st[p].Lost? && NeedsChunks(final, p)
             && FoundInline(plain, p)
    requires Stored(store, FileRefs(hash, final, p)) && Shows(hash, final, plain, up, st, p)
    ensures SameNode(store, Get(up, p), Get(plain, p)) <==> Right(store, final, plain, st[p], p)
  {
    RefsRead(hash, store, final[p].content.bytes);
  }

  /** What a commit puts on the stream, exactly, whatever image `final` it looks at. */
  lemma UpgradeShowsIff(
    hash: Bytes -> string, start: Tree, final: Tree, pending: seq<Delta>, store: BlockStore, now: int)
    requires MildBatch(start, final, pending, now) && Injective(hash) && Addressed(hash, store)
    requires forall p :: p in ChunkedPaths(final, pending) ==> Stored(store, FileRefs(hash, final, p))
    requires forall p :: p in ChunkedPaths(final, pending) ==> FoundInline(ApplyAll(start, pending, now), p)
    ensures var plain, st := ApplyAll(start, pending, now), Statuses(start, final, pending, now);
            && st.Keys == ChunkedPaths(final, pending)
            && (SameFiles(store, ApplyAll(start, Upgrade(hash, final, pending), now), plain)
                <==> forall p :: p in ChunkedPaths(final, pending) ==> Right(store, final, plain, st[p], p))
  {
    var plain, st := ApplyAll(start, pending, now), Statuses(start, final, pending, now);
    var up := ApplyAll(start, Upgrade(hash, final, pending), now);
    StatusPaths(start, final, pending, now);
    if NoneLost(st) {
      BatchTracks(hash, start, final, pending, now);
      forall p ensures SameNode(store, Get(up, p), Get(plain, p)) <==>
        (p in st ==> Right(store, final, plain, st[p], p)) {
        assert Shows(hash, final, plain, up, st, p);
        if p in st {
          assert p in ChunkedPaths(final, pending);
          TrackedIff(hash, store, final, plain, up, st, p);
        }
      }
    } else {
      var p :| p in st && st[p].Lost?;
      LostStays(hash, start, final, pending, now, p);
      assert p in ChunkedPaths(final, pending) && !Right(store, final, plain, st[p], p);
      assert !SameNode(store, Get(up, p), Get(plain, p));
    }
  }
}
