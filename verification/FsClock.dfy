/** The clock reaches the image only through modification times: replays at different times agree on the rest. */
module FsClock {
  import opened KeyOrder
  import opened FsImage

  function UntimedNode(node: Node): Node {
    SetNodeMeta(node, node.meta.(mtime := 0))
  }

  /** The image with every modification time erased. */
  function Untimed(nodes: Tree): Tree {
    map p | p in nodes :: UntimedNode(nodes[p])
  }

  lemma MoveOneUntimed(nodes: Tree, p: Path, from: Path, to: Path)
    requires p in nodes && Under(p, from)
    ensures Untimed(MoveOne(nodes, p, from, to)) == MoveOne(Untimed(nodes), p, from, to)
  {
  }

  lemma {:induction false} MoveAllUntimed(nodes: Tree, moved: seq<Path>, from: Path, to: Path)
    requires Movable(nodes, moved, from)
    ensures Movable(Untimed(nodes), moved, from)
    ensures Untimed(MoveAll(nodes, moved, from, to)) == MoveAll(Untimed(nodes), moved, from, to)
    decreases |moved|
  {
    if moved != [] {
      var n := |moved| - 1;
      MoveAllStep(nodes, moved, n, from, to);
      MoveAllUntimed(nodes, moved[..n], from, to);
      assert moved[..n + 1] == moved;
      assert Movable(Untimed(nodes), moved, from);
      MoveAllStep(Untimed(nodes), moved, n, from, to);
      MoveOneUntimed(MoveAll(nodes, moved[..n], from, to), moved[n], from, to);
    }
  }

  lemma RenameUntimed(nodes: Tree, from: Path, to: Path)
    ensures Untimed(RenameSubtree(nodes, from, to)) == RenameSubtree(Untimed(nodes), from, to)
  {
    var top := MoveTop(nodes, from, to);
    assert Untimed(top) == MoveTop(Untimed(nodes), from, to);
    assert Untimed(top).Keys == top.Keys;
    MoveAllUntimed(top, KeysUnder(top.Keys, from + "/"), from, to);
  }

  /** Trees alike up to times hold nodes alike up to times. */
  lemma UntimedNodes(a: Tree, b: Tree)
    requires Untimed(a) == Untimed(b)
    ensures a.Keys == b.Keys && forall p :: p in a ==> UntimedNode(a[p]) == UntimedNode(b[p])
  {
    assert a.Keys == Untimed(a).Keys == Untimed(b).Keys == b.Keys;
    forall p | p in a ensures UntimedNode(a[p]) == UntimedNode(b[p]) {
      assert Untimed(a)[p] == Untimed(b)[p];
    }
  }

  lemma PutUntimed(a: Tree, b: Tree, path: Path, x: Node, y: Node)
    requires Untimed(a) == Untimed(b) && UntimedNode(x) == UntimedNode(y)
    ensures Untimed(a[path := x]) == Untimed(b[path := y])
  {
    UntimedNodes(a, b);
  }

  lemma EditUntimed(a: Tree, b: Tree, d: Delta, now: int, now': int)
    requires Untimed(a) == Untimed(b) && !d.Rename?
    ensures Untimed(ApplyDelta(a, d, now)) == Untimed(ApplyDelta(b, d, now'))
  {
    UntimedNodes(a, b);
    match d
    case Write(path, offset, data) => PutUntimed(a, b, path, WriteNode(a, path, offset, data, now),
                                                 WriteNode(b, path, offset, data, now'));
    case Mkdir(path) => PutUntimed(a, b, path, Dir(DirMeta(now)), Dir(DirMeta(now')));
    case Remove(path) =>
    case MakeSymlink(path, target) => PutUntimed(a, b, path, Symlink(target, SymlinkMeta(now)),
                                                 Symlink(target, SymlinkMeta(now')));
    case SetAttr(_, _, _, _, _) => AttrUntimed(a, b, d);
    case SetXattr(_, _, _) => AttrUntimed(a, b, d);
  }

  lemma AttrUntimed(a: Tree, b: Tree, d: Delta)
    requires Untimed(a) == Untimed(b) && (d.SetAttr? || d.SetXattr?)
    ensures d.path in a <==> d.path in b
    ensures d.path in a ==>
              Untimed(a[d.path := SetNodeMeta(a[d.path], AttrMeta(a[d.path].meta, d))])
              == Untimed(b[d.path := SetNodeMeta(b[d.path], AttrMeta(b[d.path].meta, d))])
  {
    UntimedNodes(a, b);
    if d.path in a {
      PutUntimed(a, b, d.path, SetNodeMeta(a[d.path], AttrMeta(a[d.path].meta, d)),
                 SetNodeMeta(b[d.path], AttrMeta(b[d.path].meta, d)));
    }
  }

  lemma ApplyUntimed(a: Tree, b: Tree, d: Delta, now: int, now': int)
    requires Untimed(a) == Untimed(b)
    ensures Untimed(ApplyDelta(a, d, now)) == Untimed(ApplyDelta(b, d, now'))
  {
    if d.Rename? {
      RenameUntimed(a, d.from, d.to);
      RenameUntimed(b, d.from, d.to);
    } else {
      EditUntimed(a, b, d, now, now');
    }
  }

  /** Two replays of the same events, each at its own time, give images that differ in modification times only. */
  lemma {:induction false} ReplayUntimed(events: seq<Event>, now: int, now': int)
    ensures Untimed(Replay(map[], events, now)) == Untimed(Replay(map[], events, now'))
  {
    if events != [] {
      var n := |events| - 1;
      ReplayUntimed(events[..n], now, now');
      if events[n].Change? {
        ApplyUntimed(Replay(map[], events[..n], now), Replay(map[], events[..n], now'), events[n].delta, now, now');
      }
    }
  }
}
