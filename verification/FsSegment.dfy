/**
 Checkpoint segments: folding a window of deltas into per-path entries with tombstones, and merging such
 a segment back onto the image it was folded from.
 */
module FsSegment {
  import opened Prelude
  import opened KeyOrder
  import opened FsImage
  import opened FsRename

  /** path -> node, or a tombstone for the path and everything below it. */
  type Entries = map<Path, Option<Node>>

  // ---- merging ----

  function MergeEntry(nodes: Tree, path: Path, entry: Option<Node>): Tree {
    match entry
    case Some(node) => nodes[path := node]
    case None => RemoveSubtree(nodes, path)
  }

  function MergeKeys(base: Tree, entries: Entries, keys: seq<Path>): Tree
    requires forall k :: k in keys ==> k in entries
  {
    if keys == [] then base
    else
      var last := keys[|keys| - 1];
      MergeEntry(MergeKeys(base, entries, keys[..|keys| - 1]), last, entries[last])
  }

  /** Merging in the map's own key order. */
  function MergeSegment(base: Tree, entries: Entries): Tree {
    MergeKeys(base, entries, SortedKeys(entries.Keys))
  }

  lemma MergeKeysStep(base: Tree, entries: Entries, keys: seq<Path>, i: nat)
    requires i < |keys| && forall k :: k in keys ==> k in entries
    ensures MergeKeys(base, entries, keys[..i + 1])
         == MergeEntry(MergeKeys(base, entries, keys[..i]), keys[i], entries[keys[i]])
  {
    assert keys[..i + 1][..i] == keys[..i];
  }

  method MergeInPlace(image: Image, entries: Entries)
    modifies image
    ensures image.nodes == MergeSegment(old(image.nodes), entries)
  {
    var keys := SortedKeys(entries.Keys);
    var nodes := image.nodes;
    for i := 0 to |keys|
      invariant nodes == MergeKeys(old(image.nodes), entries, keys[..i])
    {
      MergeKeysStep(old(image.nodes), entries, keys, i);
      var path := keys[i];
      match entries[path] {
        case Some(node) => nodes := nodes[path := node];
        case None => nodes := RemoveSubtree(nodes, path);
      }
    }
    assert keys[..|keys|] == keys;
    image.nodes := nodes;
  }

  /** Some directory above `q` is tombstoned. */
  ghost predicate Buried(entries: Entries, keys: seq<Path>, q: Path) {
    exists a :: a in keys && a in entries && entries[a] == None && Under(q, a)
  }

  /** An entry decides its own path; otherwise a tombstoned directory hides it; otherwise the base shows. */
  ghost function MergedAt(base: Tree, entries: Entries, keys: seq<Path>, q: Path): Option<Node> {
    if q in keys && q in entries then entries[q]
    else if Buried(entries, keys, q) then None
    else Get(base, q)
  }

  lemma UnderIsLater(q: Path, a: Path)
    requires Under(q, a)
    ensures Lt(a, q)
  {
    PrefixLe(a, q);
  }

  /** In key order a directory's tombstone is merged before any entry below it, so it never hides one. */
  lemma {:induction false} MergeKeysAt(base: Tree, entries: Entries, keys: seq<Path>, q: Path)
    requires Increasing(keys)
    requires forall k :: k in keys ==> k in entries
    ensures Get(MergeKeys(base, entries, keys), q) == MergedAt(base, entries, keys, q)
    decreases |keys|
  {
    if keys != [] {
      var n := |keys| - 1;
      var k := keys[n];
      var before := keys[..n];
      assert keys == before + [k];
      MergeKeysAt(base, entries, before, q);
      BuriedStep(entries, before, k, q);
      if Under(q, k) {
        NotBefore(keys, q);
      }
    }
  }

  lemma BuriedStep(entries: Entries, before: seq<Path>, k: Path, q: Path)
    requires k in entries
    ensures Buried(entries, before + [k], q) <==> Buried(entries, before, q) || (entries[k] == None && Under(q, k))
  {
    assert k in before + [k];
    if a :| a in before && a in entries && entries[a] == None && Under(q, a) {
      assert a in before + [k];
    }
  }

  /** A path below the last key is behind it. */
  lemma NotBefore(keys: seq<Path>, q: Path)
    requires Increasing(keys) && keys != [] && Under(q, keys[|keys| - 1])
    ensures q !in keys[..|keys| - 1]
  {
    UnderIsLater(q, keys[|keys| - 1]);
    if q in keys[..|keys| - 1] {
      LeAntisymmetric(q, keys[|keys| - 1]);
    }
  }

  lemma MergeSegmentAt(base: Tree, entries: Entries, q: Path)
    ensures Get(MergeSegment(base, entries), q) == MergedAt(base, entries, SortedKeys(entries.Keys), q)
  {
    MergeKeysAt(base, entries, SortedKeys(entries.Keys), q);
  }

  // ---- folding ----

  /** A checkpoint fold in progress. */
  datatype Fold = Fold(entries: Entries, live: Tree)

  function BuryAll(entries: Entries, paths: seq<Path>): (r: Entries)
    ensures forall q :: Get(r, q) == if q in paths then Some(None) else Get(entries, q)
  {
    if paths == [] then entries
    else
      var n := |paths| - 1;
      assert paths == paths[..n] + [paths[n]];
      BuryAll(entries, paths[..n])[paths[n] := None]
  }

  /** The entry updates for the descendants of a renamed directory, in order. */
  function MoveEntries(entries: Entries, live: Tree, paths: seq<Path>, from: Path, to: Path): Entries
    requires Movable(live, paths, from)
  {
    if paths == [] then entries
    else
      var n := |paths| - 1;
      var before := MoveEntries(entries, live, paths[..n], from, to);
      before[paths[n] := None][Relocate(paths[n], from, to) := Some(live[paths[n]])]
  }

  function RenameTopEntries(f: Fold, from: Path, to: Path): Entries {
    var e := f.entries[from := None];
    if from in f.live then e[to := Some(f.live[from])] else e
  }

  function FoldDelta(f: Fold, d: Delta, now: int): Fold {
    var live := ApplyDelta(f.live, d, now);
    match d
    case Remove(path) =>
      Fold(BuryAll(f.entries[path := None], KeysUnder(f.live.Keys, path + "/")), live)
    case Rename(from, to) =>
      var paths := KeysUnder(f.live.Keys, from + "/");
      Fold(MoveEntries(RenameTopEntries(f, from, to), f.live, paths, from, to), live)
    case _ =>
      if d.path in live then Fold(f.entries[d.path := Some(live[d.path])], live) else Fold(f.entries, live)
  }

  function FoldEvent(f: Fold, e: Event, now: int): Fold {
    match e
    case Change(d) => FoldDelta(f, d, now)
    case Foreign => f
  }

  function FoldEvents(f: Fold, events: seq<Event>, now: int): Fold {
    if events == [] then f
    else FoldEvent(FoldEvents(f, events[..|events| - 1], now), events[|events| - 1], now)
  }

  /** The fold as the checkpoint runs it: entries and a running image, both edited in place. */
  class DeltaImage {
    var entries: Entries
    const live: Image

    constructor (live: Image)
      ensures this.live == live && entries == map[]
    {
      this.live := live;
      entries := map[];
    }

    ghost function Value(): Fold
      reads this, live
    {
      Fold(entries, live.nodes)
    }

    method Apply(d: Delta, now: int)
      modifies this, live
      ensures Value() == FoldDelta(old(Value()), d, now)
    {
      match d
      case Remove(path) =>
        entries := entries[path := None];
        BuryInPlace(KeysUnder(live.nodes.Keys, path + "/"));
        live.Apply(d, now);
      case Rename(from, to) =>
        RenameEntries(from, to);
        live.Apply(d, now);
      case _ =>
        live.Apply(d, now);
        if d.path in live.nodes {
          entries := entries[d.path := Some(live.nodes[d.path])];
        }
    }

    method BuryInPlace(paths: seq<Path>)
      modifies this
      ensures entries == BuryAll(old(entries), paths)
    {
      for i := 0 to |paths|
        invariant entries == BuryAll(old(entries), paths[..i])
      {
        assert paths[..i + 1][..i] == paths[..i];
        entries := entries[paths[i] := None];
      }
      assert paths[..|paths|] == paths;
    }

    method RenameEntries(from: Path, to: Path)
      modifies this
      ensures entries == MoveEntries(RenameTopEntries(old(Value()), from, to), live.nodes,
                                     KeysUnder(live.nodes.Keys, from + "/"), from, to)
    {
      entries := entries[from := None];
      if from in live.nodes {
        entries := entries[to := Some(live.nodes[from])];
      }
      MoveEntriesInPlace(KeysUnder(live.nodes.Keys, from + "/"), from, to);
    }

    method MoveEntriesInPlace(paths: seq<Path>, from: Path, to: Path)
      requires Movable(live.nodes, paths, from)
      modifies this
      ensures entries == MoveEntries(old(entries), live.nodes, paths, from, to)
    {
      for i := 0 to |paths|
        invariant Movable(live.nodes, paths[..i], from)
        invariant entries == MoveEntries(old(entries), live.nodes, paths[..i], from, to)
      {
        MoveAllStep(live.nodes, paths, i, from, to);
        assert paths[..i + 1][..i] == paths[..i];
        var p := paths[i];
        var node := live.nodes[p];
        entries := entries[p := None];
        entries := entries[to + "/" + p[|from| + 1..] := Some(node)];
      }
      assert paths[..|paths|] == paths;
    }
  }

  // ---- soundness ----

  /** Entries say what the running image holds; paths without an entry are as in the base, and no base node
      without an entry sits below a tombstone. */
  ghost predicate Agrees(base: Tree, f: Fold) {
    && (forall q :: q in f.entries ==> Get(f.live, q) == f.entries[q])
    && (forall q :: q !in f.entries ==> Get(f.live, q) == Get(base, q))
    && (forall q, a :: q in base && q !in f.entries && a in f.entries && f.entries[a] == None ==> !Under(q, a))
  }

  lemma AgreesMerges(base: Tree, f: Fold)
    requires Agrees(base, f)
    ensures MergeSegment(base, f.entries) == f.live
  {
    forall q ensures Get(MergeSegment(base, f.entries), q) == Get(f.live, q) {
      MergeSegmentAt(base, f.entries, q);
    }
    GetExtensional(MergeSegment(base, f.entries), f.live);
  }

  /** A delta that touches one path and buries nothing. */
  lemma AgreesPoint(base: Tree, f: Fold, d: Delta, now: int)
    requires Agrees(base, f) && !d.Remove? && !d.Rename?
    ensures Agrees(base, FoldDelta(f, d, now))
  {
  }

  lemma UnderTransitive(q: Path, a: Path, b: Path)
    requires Under(q, a) && Under(a, b)
    ensures Under(q, b)
  {
    assert (b + "/") == a[..|b| + 1] == q[..|b| + 1];
  }

  lemma AgreesRemove(base: Tree, f: Fold, path: Path, now: int)
    requires Agrees(base, f)
    ensures Agrees(base, FoldDelta(f, Remove(path), now))
  {
    var g := FoldDelta(f, Remove(path), now);
    var below := KeysUnder(f.live.Keys, path + "/");
    forall q ensures Get(g.entries, q) == if q in below || q == path then Some(None) else Get(f.entries, q) {
    }
    forall q ensures q in below <==> q in f.live && Under(q, path) {
    }
    forall q ensures q in g.entries ==> Get(g.live, q) == g.entries[q] {
      assert Get(g.entries, q) == if q in below || q == path then Some(None) else Get(f.entries, q);
    }
    forall q ensures q !in g.entries ==> Get(g.live, q) == Get(base, q) {
      assert Get(g.entries, q) == if q in below || q == path then Some(None) else Get(f.entries, q);
    }
    forall q, a | q in base && q !in g.entries && a in g.entries && g.entries[a] == None
      ensures !Under(q, a)
    {
      assert Get(g.entries, q) == if q in below || q == path then Some(None) else Get(f.entries, q);
      assert Get(g.entries, a) == if a in below || a == path then Some(None) else Get(f.entries, a);
      if Under(q, a) && a in below { UnderTransitive(q, a, path); }
    }
  }

  lemma {:induction false} MoveEntriesAt(entries: Entries, live: Tree, paths: seq<Path>, from: Path, to: Path, q: Path)
    requires Movable(live, paths, from)
    requires Untangled(from, to) && from != to
    ensures Get(MoveEntries(entries, live, paths, from, to), q)
         == if Under(q, to) && Relocate(q, to, from) in paths then Some(Some(live[Relocate(q, to, from)]))
            else if q in paths then Some(None)
            else Get(entries, q)
    decreases |paths|
  {
    if paths != [] {
      var n := |paths| - 1;
      var p := paths[n];
      assert paths == paths[..n] + [p];
      MoveEntriesAt(entries, live, paths[..n], from, to, q);
      SubtreesDisjoint(from, to, p);
      SubtreesDisjoint(from, to, q);
      RelocateInverse(p, from, to);
      if Under(q, to) {
        RelocateInverse(q, to, from);
      }
    }
  }

  lemma {:induction false} MoveEntriesOntoItself(entries: Entries, live: Tree, paths: seq<Path>, from: Path, q: Path)
    requires Movable(live, paths, from)
    ensures Get(MoveEntries(entries, live, paths, from, from), q)
         == if q in paths then Some(Some(live[q])) else Get(entries, q)
    decreases |paths|
  {
    if paths != [] {
      var n := |paths| - 1;
      assert paths == paths[..n] + [paths[n]];
      MoveEntriesOntoItself(entries, live, paths[..n], from, q);
      RelocateSelf(paths[n], from);
    }
  }

  /** The entries after an untangled rename: what the simultaneous rename puts on or takes from the path. */
  lemma RenameEntriesAt(f: Fold, from: Path, to: Path, now: int, q: Path)
    requires Untangled(from, to)
    ensures Get(FoldDelta(f, Rename(from, to), now).entries, q)
         == if q == to && from in f.live then Some(Some(f.live[from]))
            else if Under(q, to) && Relocate(q, to, from) in f.live then Some(Some(f.live[Relocate(q, to, from)]))
            else if q == from || (Under(q, from) && q in f.live) then Some(None)
            else Get(f.entries, q)
  {
    var paths := KeysUnder(f.live.Keys, from + "/");
    assert Movable(f.live, paths, from);
    if from == to {
      MoveEntriesOntoItself(RenameTopEntries(f, from, to), f.live, paths, from, q);
      if Under(q, to) { RelocateSelf(q, to); }
    } else {
      MoveEntriesAt(RenameTopEntries(f, from, to), f.live, paths, from, to, q);
      SubtreesDisjoint(from, to, q);
      if Under(q, to) { RelocateInverse(q, to, from); }
    }
  }

  lemma AgreesRename(base: Tree, f: Fold, from: Path, to: Path, now: int)
    requires Agrees(base, f) && Untangled(from, to)
    ensures Agrees(base, FoldDelta(f, Rename(from, to), now))
  {
    var g := FoldDelta(f, Rename(from, to), now);
    forall q ensures q in g.entries ==> Get(g.live, q) == g.entries[q]
             ensures q !in g.entries ==> Get(g.live, q) == Get(base, q)
    {
      RenameEntriesAt(f, from, to, now, q);
      RenameIsSimultaneous(f.live, from, to, q);
    }
    forall q, a | q in base && q !in g.entries && a in g.entries && g.entries[a] == None
      ensures !Under(q, a)
    {
      RenameEntriesAt(f, from, to, now, q);
      RenameEntriesAt(f, from, to, now, a);
      if Under(q, a) && Under(a, from) { UnderTransitive(q, a, from); }
    }
  }

  predicate UntangledEvent(e: Event) {
    e.Change? && e.delta.Rename? ==> Untangled(e.delta.from, e.delta.to)
  }

  predicate UntangledEvents(events: seq<Event>) {
    forall i :: 0 <= i < |events| ==> UntangledEvent(events[i])
  }

  lemma AgreesStep(base: Tree, f: Fold, e: Event, now: int)
    requires Agrees(base, f) && UntangledEvent(e)
    ensures Agrees(base, FoldEvent(f, e, now))
  {
    if e.Change? {
      match e.delta {
        case Remove(path) => AgreesRemove(base, f, path, now);
        case Rename(from, to) => AgreesRename(base, f, from, to, now);
        case _ => AgreesPoint(base, f, e.delta, now);
      }
    }
  }

  lemma {:induction false} FoldAgrees(base: Tree, events: seq<Event>, now: int)
    requires UntangledEvents(events)
    ensures Agrees(base, FoldEvents(Fold(map[], base), events, now))
    decreases |events|
  {
    if events != [] {
      var n := |events| - 1;
      FoldAgrees(base, events[..n], now);
      AgreesStep(base, FoldEvents(Fold(map[], base), events[..n], now), events[n], now);
    }
  }

  /** The running image of the fold is the replay. */
  lemma {:induction false} FoldLive(base: Tree, events: seq<Event>, now: int)
    ensures FoldEvents(Fold(map[], base), events, now).live == Replay(base, events, now)
  {
    if events != [] {
      FoldLive(base, events[..|events| - 1], now);
    }
  }

  /** Segment soundness: sealing any window of untangled deltas and merging the segment onto the image the
      window started from gives the image of applying the deltas one by one. */
  lemma SegmentSound(base: Tree, events: seq<Event>, now: int)
    requires UntangledEvents(events)
    ensures MergeSegment(base, FoldEvents(Fold(map[], base), events, now).entries) == Replay(base, events, now)
  {
    FoldAgrees(base, events, now);
    FoldLive(base, events, now);
    AgreesMerges(base, FoldEvents(Fold(map[], base), events, now));
  }
}
