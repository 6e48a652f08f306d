/** Renaming a subtree: when the in-place move loop equals moving every node at once. */
module FsRename {
  import opened Prelude
  import opened KeyOrder
  import opened FsImage

  /** Neither path lies strictly below the other. */
  predicate Untangled(from: Path, to: Path) {
    !Under(to, from) && !Under(from, to)
  }

  /** The simultaneous rename: `q` holds what the path moving to it held, moved-away paths are empty,
      everything else is as before. */
  function RenamedAt(nodes: Tree, from: Path, to: Path, q: Path): Option<Node> {
    if q == to && from in nodes then Some(nodes[from])
    else if Under(q, to) && Relocate(q, to, from) in nodes then Some(nodes[Relocate(q, to, from)])
    else if q == from || Under(q, from) then None
    else Get(nodes, q)
  }

  lemma RelocateInverse(p: Path, from: Path, to: Path)
    requires Under(p, from)
    ensures Under(Relocate(p, from, to), to)
    ensures Relocate(Relocate(p, from, to), to, from) == p
  {
    var q := Relocate(p, from, to);
    assert q[..|to| + 1] == to + "/";
    assert q[|to| + 1..] == p[|from| + 1..];
    assert p == (from + "/") + p[|from| + 1..];
  }

  lemma RelocateSelf(p: Path, from: Path)
    requires Under(p, from)
    ensures Relocate(p, from, from) == p
  {
    assert p == (from + "/") + p[|from| + 1..];
  }

  /** Directories with a common descendant are nested or equal. */
  lemma CommonDescendant(from: Path, to: Path, q: Path)
    requires Under(q, from) && Under(q, to)
    ensures Under(to, from) || Under(from, to) || from == to
  {
    if |from| < |to| {
      assert (from + "/") == q[..|from| + 1] == (to + "/")[..|from| + 1] == to[..|from| + 1];
    } else if |to| < |from| {
      assert (to + "/") == q[..|to| + 1] == (from + "/")[..|to| + 1] == from[..|to| + 1];
    } else {
      assert from == (from + "/")[..|from|] == q[..|from|] == (to + "/")[..|to|] == to;
    }
  }

  /** Two distinct untangled directories share no descendant. */
  lemma SubtreesDisjoint(from: Path, to: Path, q: Path)
    requires Untangled(from, to) && from != to
    ensures !(Under(q, from) && Under(q, to))
    ensures Under(q, from) ==> q != to
    ensures Under(q, to) ==> q != from
  {
    if Under(q, from) && Under(q, to) {
      CommonDescendant(from, to, q);
    }
  }

  /** What the move loop has done after any number of paths. */
  lemma {:induction false} MoveAllAt(nodes: Tree, moved: seq<Path>, from: Path, to: Path, q: Path)
    requires Movable(nodes, moved, from)
    requires Untangled(from, to) && from != to
    ensures Get(MoveAll(nodes, moved, from, to), q)
         == if Under(q, to) && Relocate(q, to, from) in moved then Some(nodes[Relocate(q, to, from)])
            else if q in moved then None
            else Get(nodes, q)
    decreases |moved|
  {
    if moved != [] {
      var n := |moved| - 1;
      var p := moved[n];
      assert moved == moved[..n] + [p];
      assert p !in moved[..n];
      MoveAllAt(nodes, moved[..n], from, to, q);
      MoveAllAt(nodes, moved[..n], from, to, p);
      SubtreesDisjoint(from, to, p);
      SubtreesDisjoint(from, to, q);
      RelocateInverse(p, from, to);
      if Under(q, to) {
        RelocateInverse(q, to, from);
      }
    }
  }

  lemma {:induction false} MoveAllOntoItself(nodes: Tree, moved: seq<Path>, from: Path)
    requires Movable(nodes, moved, from)
    ensures MoveAll(nodes, moved, from, from) == nodes
    decreases |moved|
  {
    if moved != [] {
      var n := |moved| - 1;
      assert moved[n] !in moved[..n];
      MoveAllOntoItself(nodes, moved[..n], from);
      RelocateSelf(moved[n], from);
    }
  }

  /** The in-place rename is the simultaneous rename of the subtree whenever the two paths are untangled. */
  lemma RenameIsSimultaneous(nodes: Tree, from: Path, to: Path, q: Path)
    requires Untangled(from, to)
    ensures Get(RenameSubtree(nodes, from, to), q) == RenamedAt(nodes, from, to, q)
  {
    var top := MoveTop(nodes, from, to);
    var moved := KeysUnder(top.Keys, from + "/");
    assert Movable(top, moved, from);
    if from == to {
      MoveAllOntoItself(top, moved, from);
      if Under(q, to) { RelocateSelf(q, to); }
    } else {
      MoveAllAt(top, moved, from, to, q);
      SubtreesDisjoint(from, to, q);
      if Under(q, to) {
        RelocateInverse(q, to, from);
        SubtreesDisjoint(from, to, Relocate(q, to, from));
      }
    }
  }

  /** Renaming there and back restores the image when nothing was at or below the target. */
  lemma RenameRoundTrip(nodes: Tree, from: Path, to: Path)
    requires Untangled(from, to)
    requires from != to ==> forall p :: p in nodes ==> p != to && !Under(p, to)
    ensures RenameSubtree(RenameSubtree(nodes, from, to), to, from) == nodes
  {
    var there := RenameSubtree(nodes, from, to);
    var back := RenameSubtree(there, to, from);
    forall q ensures Get(back, q) == Get(nodes, q) {
      RenameIsSimultaneous(there, to, from, q);
      RenameIsSimultaneous(nodes, from, to, q);
      RenameIsSimultaneous(nodes, from, to, to);
      SubtreesDisjointOrSame(from, to, q);
      if Under(q, from) {
        RelocateInverse(q, from, to);
        RenameIsSimultaneous(nodes, from, to, Relocate(q, from, to));
        SubtreesDisjointOrSame(from, to, Relocate(q, from, to));
      }
    }
    GetExtensional(back, nodes);
  }

  lemma SubtreesDisjointOrSame(from: Path, to: Path, q: Path)
    requires Untangled(from, to)
    ensures from != to ==> !(Under(q, from) && Under(q, to))
                           && (Under(q, from) ==> q != to) && (Under(q, to) ==> q != from)
  {
    if from != to { SubtreesDisjoint(from, to, q); }
  }
}
