/**
 The in-memory image of a volume: a map from path to node, and the interpretation of one delta over it.
 The clock that stamps new nodes is a parameter (`now`).
 */
module FsImage {
  import opened Prelude
  import opened KeyOrder

  type Path = string

  datatype Meta = Meta(mode: nat, uid: nat, gid: nat, mtime: int, xattrs: map<string, Bytes>)

  datatype BlockRef = BlockRef(hash: string, len: nat)

  datatype Content = Inline(bytes: Bytes) | Blocks(blocks: seq<BlockRef>, size: nat)

  datatype Node =
    | File(content: Content, meta: Meta)
    | Dir(meta: Meta)
    | Symlink(target: string, meta: Meta)

  datatype Data = InlineData(bytes: Bytes) | BlockData(blocks: seq<BlockRef>)

  datatype Delta =
    | Write(path: Path, offset: nat, data: Data)
    | Mkdir(path: Path)
    | Remove(path: Path)
    | Rename(from: Path, to: Path)
    | MakeSymlink(path: Path, target: string)
    | SetAttr(path: Path, mode: Option<nat>, uid: Option<nat>, gid: Option<nat>, mtime: Option<int>)
    | SetXattr(path: Path, name: string, value: Option<Bytes>)

  type Tree = map<Path, Node>

  function FileMeta(now: int): Meta { Meta(0x1A4, 0, 0, now, map[]) }
  function DirMeta(now: int): Meta { Meta(0x1ED, 0, 0, now, map[]) }
  function SymlinkMeta(now: int): Meta { Meta(0x1FF, 0, 0, now, map[]) }

  /** `p` lies strictly below the directory `dir`. */
  predicate Under(p: Path, dir: Path) {
    dir + "/" <= p
  }

  /** An extent write: bytes of the extent come from `data`, the rest from the old content, a gap reads zero. */
  function Splice(c: Bytes, offset: nat, data: Bytes): (r: Bytes)
    ensures |r| == Max(|c|, offset + |data|)
    ensures forall i :: offset <= i < offset + |data| ==> r[i] == data[i - offset]
    ensures forall i :: 0 <= i < |r| && !(offset <= i < offset + |data|) ==> r[i] == if i < |c| then c[i] else 0
  {
    var grown := if |c| < offset + |data| then c + Zeros(offset + |data| - |c|) else c;
    grown[..offset] + data + grown[offset + |data|..]
  }

  function TotalLen(blocks: seq<BlockRef>): nat {
    if blocks == [] then 0 else TotalLen(blocks[..|blocks| - 1]) + blocks[|blocks| - 1].len
  }

  /** What an inline write keeps of the node it lands on: only an inline file survives. */
  function InlineBase(nodes: Tree, path: Path, now: int): (Bytes, Meta) {
    if path in nodes && nodes[path].File? && nodes[path].content.Inline?
    then (nodes[path].content.bytes, nodes[path].meta)
    else ([], FileMeta(now))
  }

  function WriteNode(nodes: Tree, path: Path, offset: nat, data: Data, now: int): Node {
    match data
    case BlockData(blocks) =>
      File(Blocks(blocks, TotalLen(blocks)), if path in nodes then nodes[path].meta else FileMeta(now))
    case InlineData(bytes) =>
      var (kept, meta) := InlineBase(nodes, path, now);
      File(Inline(Splice(kept, offset, bytes)), meta)
  }

  function RemoveSubtree(nodes: Tree, path: Path): (r: Tree)
    ensures forall p :: Get(r, p) == if p == path || Under(p, path) then None else Get(nodes, p)
  {
    map p | p in nodes && p != path && !Under(p, path) :: nodes[p]
  }

  function SetNodeMeta(node: Node, meta: Meta): (r: Node)
    ensures r.meta == meta
    ensures node.File? ==> r == File(node.content, meta)
    ensures node.Symlink? ==> r == Symlink(node.target, meta)
    ensures node.Dir? ==> r.Dir?
  {
    node.(meta := meta)
  }

  function Or<T>(o: Option<T>, default: T): T { if o.Some? then o.value else default }

  function AttrMeta(m: Meta, d: Delta): Meta
    requires d.SetAttr? || d.SetXattr?
  {
    match d
    case SetAttr(_, mode, uid, gid, mtime) =>
      m.(mode := Or(mode, m.mode), uid := Or(uid, m.uid), gid := Or(gid, m.gid), mtime := Or(mtime, m.mtime))
    case SetXattr(_, name, value) =>
      m.(xattrs := if value.Some? then m.xattrs[name := value.value] else m.xattrs - {name})
  }

  // ---- rename ----

  /** The path a descendant `p` of `from` moves to. */
  function Relocate(p: Path, from: Path, to: Path): Path
    requires Under(p, from)
  {
    to + "/" + p[|from| + 1..]
  }

  function MoveOne(nodes: Tree, p: Path, from: Path, to: Path): Tree
    requires p in nodes && Under(p, from)
  {
    (nodes - {p})[Relocate(p, from, to) := nodes[p]]
  }

  /** A snapshot of descendant paths of `from`, each present and listed once. */
  predicate Movable(nodes: Tree, moved: seq<Path>, from: Path) {
    && Increasing(moved)
    && forall p :: p in moved ==> p in nodes && Under(p, from)
  }

  /** The move loop over a snapshot of the descendant paths. That its recursive calls are well defined says
      that the loop's `unwrap` never panics: every listed path is still present when its turn comes. */
  function MoveAll(nodes: Tree, moved: seq<Path>, from: Path, to: Path): (r: Tree)
    requires Movable(nodes, moved, from)
    ensures forall p :: p in nodes && p !in moved ==> p in r
    decreases |moved|
  {
    if moved == [] then nodes
    else
      var last := moved[|moved| - 1];
      var before := moved[..|moved| - 1];
      assert last !in before;
      MoveOne(MoveAll(nodes, before, from, to), last, from, to)
  }

  lemma MoveAllStep(nodes: Tree, moved: seq<Path>, i: nat, from: Path, to: Path)
    requires Movable(nodes, moved, from) && i < |moved|
    ensures Movable(nodes, moved[..i], from) && Movable(nodes, moved[..i + 1], from)
    ensures moved[i] !in moved[..i] && moved[i] in MoveAll(nodes, moved[..i], from, to)
    ensures MoveAll(nodes, moved[..i + 1], from, to)
         == MoveOne(MoveAll(nodes, moved[..i], from, to), moved[i], from, to)
  {
    assert moved[..i + 1][..i] == moved[..i];
  }

  /** The first step of a rename: the node at `from` itself. */
  function MoveTop(nodes: Tree, from: Path, to: Path): Tree {
    if from in nodes then (nodes - {from})[to := nodes[from]] else nodes
  }

  function RenameSubtree(nodes: Tree, from: Path, to: Path): Tree {
    var top := MoveTop(nodes, from, to);
    MoveAll(top, KeysUnder(top.Keys, from + "/"), from, to)
  }

  /** One delta applied to the path map. */
  function ApplyDelta(nodes: Tree, d: Delta, now: int): Tree {
    match d
    case Write(path, offset, data) => nodes[path := WriteNode(nodes, path, offset, data, now)]
    case Mkdir(path) => if path in nodes then nodes else nodes[path := Dir(DirMeta(now))]
    case Remove(path) => RemoveSubtree(nodes, path)
    case Rename(from, to) => RenameSubtree(nodes, from, to)
    case MakeSymlink(path, target) => nodes[path := Symlink(target, SymlinkMeta(now))]
    case SetAttr(path, _, _, _, _) =>
      if path in nodes then nodes[path := SetNodeMeta(nodes[path], AttrMeta(nodes[path].meta, d))] else nodes
    case SetXattr(path, _, _) =>
      if path in nodes then nodes[path := SetNodeMeta(nodes[path], AttrMeta(nodes[path].meta, d))] else nodes
  }

  /** The volume as it is kept in memory, edited in place. */
  class Image {
    var nodes: Tree

    constructor (nodes: Tree)
      ensures this.nodes == nodes
    {
      this.nodes := nodes;
    }

    /** Splices an extent into an inline file, which takes the place of anything else. */
    method WriteInline(path: Path, offset: nat, bytes: Bytes, now: int)
      modifies this
      ensures nodes == ApplyDelta(old(nodes), Write(path, offset, InlineData(bytes)), now)
    {
      var found := Get(nodes, path);
      nodes := nodes - {path};
      var content, meta := [], FileMeta(now);
      if found.Some? && found.value.File? && found.value.content.Inline? {
        content, meta := found.value.content.bytes, found.value.meta;
      }
      if |content| < offset + |bytes| {
        content := content + Zeros(offset + |bytes| - |content|);
      }
      content := content[..offset] + bytes + content[offset + |bytes|..];
      nodes := nodes[path := File(Inline(content), meta)];
    }

    method Apply(d: Delta, now: int)
      modifies this
      ensures nodes == ApplyDelta(old(nodes), d, now)
    {
      match d
      case Write(path, offset, data) =>
        match data {
          case BlockData(blocks) =>
            var meta := if path in nodes then nodes[path].meta else FileMeta(now);
            nodes := nodes[path := File(Blocks(blocks, TotalLen(blocks)), meta)];
          case InlineData(bytes) => WriteInline(path, offset, bytes, now);
        }
      case Mkdir(path) =>
        if path !in nodes {
          nodes := nodes[path := Dir(DirMeta(now))];
        }
      case Remove(path) =>
        nodes := RemoveSubtree(nodes, path);
      case Rename(from, to) =>
        RenameInPlace(from, to);
      case MakeSymlink(path, target) =>
        nodes := nodes[path := Symlink(target, SymlinkMeta(now))];
      case SetAttr(path, mode, uid, gid, mtime) =>
        if path in nodes {
          var meta := nodes[path].meta;
          if mode.Some? { meta := meta.(mode := mode.value); }
          if uid.Some? { meta := meta.(uid := uid.value); }
          if gid.Some? { meta := meta.(gid := gid.value); }
          if mtime.Some? { meta := meta.(mtime := mtime.value); }
          nodes := nodes[path := SetNodeMeta(nodes[path], meta)];
        }
      case SetXattr(path, name, value) =>
        if path in nodes {
          var meta := nodes[path].meta;
          match value {
            case Some(v) => meta := meta.(xattrs := meta.xattrs[name := v]);
            case None => meta := meta.(xattrs := meta.xattrs - {name});
          }
          nodes := nodes[path := SetNodeMeta(nodes[path], meta)];
        }
    }

    /** Rename as the image does it: the node itself, then a snapshot of the descendants, one by one. */
    method RenameInPlace(from: Path, to: Path)
      modifies this
      ensures nodes == RenameSubtree(old(nodes), from, to)
    {
      if from in nodes {
        var node := nodes[from];
        nodes := nodes - {from};
        nodes := nodes[to := node];
      }
      var moved := TakePrefix(nodes.Keys, from + "/");
      MoveInPlace(moved, from, to);
    }

    method MoveInPlace(moved: seq<Path>, from: Path, to: Path)
      requires Movable(nodes, moved, from)
      modifies this
      ensures nodes == MoveAll(old(nodes), moved, from, to)
    {
      for i := 0 to |moved|
        invariant Movable(old(nodes), moved[..i], from)
        invariant nodes == MoveAll(old(nodes), moved[..i], from, to)
      {
        MoveAllStep(old(nodes), moved, i, from, to);
        var p := moved[i];
        var node := nodes[p];
        nodes := nodes - {p};
        nodes := nodes[to + "/" + p[|from| + 1..] := node];
      }
      assert moved[..|moved|] == moved;
    }
  }

  // ---- replaying ----

  /** An event of the volume stream: a delta, or a payload that does not decode as one and is skipped. */
  datatype Event = Change(delta: Delta) | Foreign

  function ApplyEvent(nodes: Tree, e: Event, now: int): Tree {
    match e
    case Change(d) => ApplyDelta(nodes, d, now)
    case Foreign => nodes
  }

  /** The image after every event in order. */
  function Replay(base: Tree, events: seq<Event>, now: int): Tree {
    if events == [] then base
    else ApplyEvent(Replay(base, events[..|events| - 1], now), events[|events| - 1], now)
  }

  lemma {:induction false} ReplayConcat(base: Tree, a: seq<Event>, b: seq<Event>, now: int)
    ensures Replay(base, a + b, now) == Replay(Replay(base, a, now), b, now)
    decreases |b|
  {
    if b == [] {
      assert a + b == a;
    } else {
      var n := |b| - 1;
      assert (a + b)[..|a + b| - 1] == a + b[..n];
      ReplayConcat(base, a, b[..n], now);
    }
  }
}
