/**
 Exactly which renames a segment can seal. When one path lies below the other, the move loop of the image and
 the entry loop of the fold disagree on some image, so the sealed segment loses or misplaces a node.
 */
module FsTangled {
  import opened Prelude
  import opened KeyOrder
  import opened FsImage
  import opened FsRename
  import opened FsSegment

  /** A window holding just this rename seals correctly over `base`. */
  ghost predicate Seals(base: Tree, from: Path, to: Path, now: int) {
    MergeSegment(base, FoldDelta(Fold(map[], base), Rename(from, to), now).entries)
    == ApplyDelta(base, Rename(from, to), now)
  }

  lemma SortedPair(a: string, b: string)
    requires Lt(a, b)
    ensures SortedKeys({a, b}) == [a, b]
  {
    IncreasingUnique(SortedKeys({a, b}), [a, b]);
  }

  lemma SortedOne(keys: set<string>, a: string)
    requires keys == {a}
    ensures SortedKeys(keys) == [a]
  {
    IncreasingUnique(SortedKeys(keys), [a]);
  }

  lemma DownwardReplay(from: Path, to: Path, n: Node)
    requires Under(to, from)
    ensures to !in RenameSubtree(map[from := n], from, to)
  {
    var top := map[to := n];
    assert MoveTop(map[from := n], from, to) == top;
    SortedOne((set k | k in top.Keys && from + "/" <= k), to);
    assert [to][..0] == [];
    assert MoveAll(top, [to], from, to) == MoveOne(top, to, from, to);
  }

  lemma DownwardEntries(from: Path, to: Path, n: Node, now: int)
    ensures FoldDelta(Fold(map[], map[from := n]), Rename(from, to), now).entries == map[from := None][to := Some(n)]
  {
    var base := map[from := n];
    assert (set k | k in base.Keys && from + "/" <= k) == {};
    assert KeysUnder(base.Keys, from + "/") == [];
  }

  /** Moving a directory below itself: the loop also picks up the node just placed at the target. */
  lemma DownwardFails(from: Path, to: Path, n: Node, now: int)
    requires Under(to, from)
    ensures !Seals(map[from := n], from, to, now)
  {
    var base := map[from := n];
    var entries := FoldDelta(Fold(map[], base), Rename(from, to), now).entries;
    DownwardReplay(from, to, n);
    DownwardEntries(from, to, n, now);
    MergeSegmentAt(base, entries, to);
    assert to in entries;
    assert Get(MergeSegment(base, entries), to) == Some(n);
  }

  /** Two descendants whose moves collide when a directory is lifted above itself. */
  function Inner(from: Path, r: string): Path { from + "/" + (r + "/" + (r + "0")) }
  function Outer(from: Path, r: string): Path { from + "/" + (r + "0") }

  lemma CollisionOrder(from: Path, to: Path, r: string)
    requires from == to + "/" + r
    ensures Lt(Inner(from, r), Outer(from, r))
    ensures Under(Inner(from, r), from) && Under(Outer(from, r), from)
    ensures Relocate(Inner(from, r), from, to) == Outer(from, r)
    ensures Relocate(Outer(from, r), from, to) == to + "/" + (r + "0")
  {
    var i, o := Inner(from, r), Outer(from, r);
    LeAppend(r, "/" + (r + "0"), "0");
    assert r + ("/" + (r + "0")) == r + "/" + (r + "0");
    LeAppend(from + "/", r + "/" + (r + "0"), r + "0");
    assert |i| != |o|;
    assert i[|from| + 1..] == r + "/" + (r + "0");
    assert o[|from| + 1..] == r + "0";
    assert to + "/" + (r + "/" + (r + "0")) == (to + "/" + r) + "/" + (r + "0");
  }

  /** Moving a directory above itself: a node is overwritten by an earlier move before its own turn. */
  lemma UpwardFails(from: Path, to: Path, r: string, n1: Node, n2: Node, now: int)
    requires from == to + "/" + r && n1 != n2
    ensures !Seals(map[Inner(from, r) := n1, Outer(from, r) := n2], from, to, now)
  {
    var i, o, target := Inner(from, r), Outer(from, r), to + "/" + (r + "0");
    var base := map[i := n1, o := n2];
    UpwardKeys(from, to, r, n1, n2);
    UpwardReplay(from, to, r, n1, n2, now);
    var f := FoldDelta(Fold(map[], base), Rename(from, to), now);
    assert f.entries == MoveEntries(map[from := None], base, [i, o], from, to);
    assert [i, o][..1] == [i] && [i][..0] == [];
    assert Get(f.entries, target) == Some(Some(n2));
    MergeSegmentAt(base, f.entries, target);
    assert Get(MergeSegment(base, f.entries), target) == Some(n2);
  }

  /** What the rename finds to move. */
  lemma UpwardKeys(from: Path, to: Path, r: string, n1: Node, n2: Node)
    requires from == to + "/" + r
    ensures var i, o := Inner(from, r), Outer(from, r);
            var base := map[i := n1, o := n2];
            && i != o && Under(i, from) && Under(o, from) && Lt(i, o)
            && from !in base && KeysUnder(base.Keys, from + "/") == [i, o] && Movable(base, [i, o], from)
            && Relocate(i, from, to) == o && Relocate(o, from, to) == to + "/" + (r + "0")
            && o != to + "/" + (r + "0") && i != to + "/" + (r + "0")
  {
    var i, o := Inner(from, r), Outer(from, r);
    CollisionOrder(from, to, r);
    var base := map[i := n1, o := n2];
    assert from !in base by { assert |i| > |from| && |o| > |from|; }
    assert (set k | k in base.Keys && from + "/" <= k) == {i, o};
    SortedPair(i, o);
  }

  /** The first move lands on the second source. */
  lemma UpwardReplay(from: Path, to: Path, r: string, n1: Node, n2: Node, now: int)
    requires from == to + "/" + r
    ensures var base := map[Inner(from, r) := n1, Outer(from, r) := n2];
            Get(ApplyDelta(base, Rename(from, to), now), to + "/" + (r + "0")) == Some(n1)
  {
    var i, o := Inner(from, r), Outer(from, r);
    var base := map[i := n1, o := n2];
    UpwardKeys(from, to, r, n1, n2);
    assert [i, o][..1] == [i] && [i][..0] == [];
    assert Movable(base, [i], from) && Movable(base, [], from);
    assert MoveAll(base, [i], from, to) == MoveOne(base, i, from, to) == map[o := n1];
    assert MoveAll(base, [i, o], from, to) == MoveOne(map[o := n1], o, from, to);
  }

  /** A rename seals correctly over every image if and only if its paths are untangled. */
  lemma RenameSealsIff(from: Path, to: Path, now: int)
    ensures (forall base: Tree :: Seals(base, from, to, now)) <==> Untangled(from, to)
  {
    if Untangled(from, to) {
      forall base: Tree ensures Seals(base, from, to, now) {
        var events := [Change(Rename(from, to))];
        assert events[..0] == [];
        assert UntangledEvents(events);
        SegmentSound(base, events, now);
      }
    } else if Under(to, from) {
      DownwardFails(from, to, Dir(DirMeta(now)), now);
    } else {
      var r := from[|to| + 1..];
      assert from == to + "/" + r;
      UpwardFails(from, to, r, Dir(DirMeta(now)), Dir(DirMeta(now + 1)), now);
    }
  }
}
