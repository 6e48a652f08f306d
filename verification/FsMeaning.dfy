/** What each delta does to a volume, field by field: the reading that the interpretation of deltas is held to. */
module FsMeaning {
  import opened Prelude
  import opened FsImage
  import opened FsBlocks

  /** A permission mode by its three octal digits. */
  function Octal(user: nat, group: nat, other: nat): nat { user * 64 + group * 8 + other }

  /** The metadata a new node gets: its mode, root as owner, the time, and no extended attributes. */
  predicate NewMeta(m: Meta, mode: nat, now: int) {
    m.mode == mode && m.uid == 0 && m.gid == 0 && m.mtime == now && |m.xattrs| == 0
  }

  /** The same kind of node with the same content or target. */
  predicate SameBody(a: Node, b: Node) {
    && (a.File? ==> b.File? && b.content == a.content)
    && (a.Dir? ==> b.Dir?)
    && (a.Symlink? ==> b.Symlink? && b.target == a.target)
  }

  /** Nothing changes but at `path`, where there is a node afterwards. */
  ghost predicate OnlyAt(before: Tree, after: Tree, path: Path) {
    path in after && forall q :: q != path ==> Get(after, q) == Get(before, q)
  }

  /** A field that may be given: the given value, or what was there. */
  predicate Given<T(==)>(o: Option<T>, before: T, after: T) {
    match o
    case Some(v) => after == v
    case None => after == before
  }

  /** Changing attributes: each given field has the given value, each other one and the extended attributes stay, the
      node keeps its kind and content, and no other path is touched. Nothing happens where there is no node. */
  lemma SetAttrMeans(
    nodes: Tree, path: Path, mode: Option<nat>, uid: Option<nat>, gid: Option<nat>, mtime: Option<int>, now: int)
    ensures var after := ApplyDelta(nodes, SetAttr(path, mode, uid, gid, mtime), now);
            && (path !in nodes ==> after == nodes)
            && (path in nodes ==>
                  && OnlyAt(nodes, after, path) && SameBody(nodes[path], after[path])
                  && var m, m' := nodes[path].meta, after[path].meta;
                  && Given(mode, m.mode, m'.mode) && Given(uid, m.uid, m'.uid) && Given(gid, m.gid, m'.gid)
                  && Given(mtime, m.mtime, m'.mtime) && m'.xattrs == m.xattrs)
  {
  }

  /** Changing one extended attribute: the name has the given value or is gone, other names and fields stay. */
  lemma SetXattrMeans(nodes: Tree, path: Path, name: string, value: Option<Bytes>, now: int)
    ensures var after := ApplyDelta(nodes, SetXattr(path, name, value), now);
            && (path !in nodes ==> after == nodes)
            && (path in nodes ==>
                  && OnlyAt(nodes, after, path) && SameBody(nodes[path], after[path])
                  && var m, m' := nodes[path].meta, after[path].meta;
                  && Get(m'.xattrs, name) == value
                  && (forall other :: other != name ==> Get(m'.xattrs, other) == Get(m.xattrs, other))
                  && m'.mode == m.mode && m'.uid == m.uid && m'.gid == m.gid && m'.mtime == m.mtime)
  {
  }

  /** A directory comes up only where nothing was. */
  lemma MkdirMeans(nodes: Tree, path: Path, now: int)
    ensures var after := ApplyDelta(nodes, Mkdir(path), now);
            && (path in nodes ==> after == nodes)
            && (path !in nodes ==>
                  OnlyAt(nodes, after, path) && after[path].Dir? && NewMeta(after[path].meta, Octal(7, 5, 5), now))
  {
  }

  /** A link replaces whatever was there. */
  lemma MakeSymlinkMeans(nodes: Tree, path: Path, target: string, now: int)
    ensures var after := ApplyDelta(nodes, MakeSymlink(path, target), now);
            && OnlyAt(nodes, after, path) && after[path].Symlink? && after[path].target == target
            && NewMeta(after[path].meta, Octal(7, 7, 7), now)
  {
  }

  /** An inline write leaves a file: over an inline file the extent is replaced and the metadata stays; over anything
      else, or nothing, the file is new and a gap before the extent reads zero. */
  lemma WriteInlineMeans(nodes: Tree, path: Path, offset: nat, data: Bytes, now: int)
    ensures var after := ApplyDelta(nodes, Write(path, offset, InlineData(data)), now);
            && OnlyAt(nodes, after, path) && after[path].File? && after[path].content.Inline?
            && var bytes := after[path].content.bytes;
            && (forall i :: 0 <= i < |data| ==> offset + i < |bytes| && bytes[offset + i] == data[i])
            && if path in nodes && nodes[path].File? && nodes[path].content.Inline? then
                 var was := nodes[path].content.bytes;
                 && |bytes| == Max(|was|, offset + |data|) && after[path].meta == nodes[path].meta
                 && forall i :: 0 <= i < |bytes| && !(offset <= i < offset + |data|) ==>
                      bytes[i] == if i < |was| then was[i] else 0
               else
                 && |bytes| == offset + |data| && NewMeta(after[path].meta, Octal(6, 4, 4), now)
                 && forall i :: 0 <= i < offset ==> bytes[i] == 0
  {
  }

  /** The lengths added up. */
  function SumOf(lengths: seq<nat>): nat {
    if lengths == [] then 0 else lengths[0] + SumOf(lengths[1..])
  }

  function Lengths(blocks: seq<BlockRef>): (r: seq<nat>)
    ensures |r| == |blocks| && forall i :: 0 <= i < |r| ==> r[i] == blocks[i].len
  {
    seq(|blocks|, i requires 0 <= i < |blocks| => blocks[i].len)
  }

  lemma {:induction false} SumOfSnoc(lengths: seq<nat>, n: nat)
    ensures SumOf(lengths + [n]) == SumOf(lengths) + n
  {
    if lengths == [] {
      assert [] + [n] == [n];
    } else {
      assert (lengths + [n])[1..] == lengths[1..] + [n];
      SumOfSnoc(lengths[1..], n);
    }
  }

  lemma {:induction false} SizeIsSum(blocks: seq<BlockRef>)
    ensures TotalLen(blocks) == SumOf(Lengths(blocks))
  {
    if blocks != [] {
      var n := |blocks| - 1;
      SizeIsSum(blocks[..n]);
      SumOfSnoc(Lengths(blocks[..n]), blocks[n].len);
      assert Lengths(blocks) == Lengths(blocks[..n]) + [blocks[n].len];
    }
  }

  /** A block write replaces the content by its blocks, with the sum of their lengths as the size, and keeps the
      metadata of whatever was there. */
  lemma WriteBlocksMeans(nodes: Tree, path: Path, offset: nat, blocks: seq<BlockRef>, now: int)
    ensures var after := ApplyDelta(nodes, Write(path, offset, BlockData(blocks)), now);
            && OnlyAt(nodes, after, path) && after[path].File? && after[path].content.Blocks?
            && after[path].content.blocks == blocks && after[path].content.size == SumOf(Lengths(blocks))
            && (path in nodes ==> after[path].meta == nodes[path].meta)
            && (path !in nodes ==> NewMeta(after[path].meta, Octal(6, 4, 4), now))
  {
    SizeIsSum(blocks);
  }

  // ---- which writes become block writes ----

  /** Every chunk but the last is one mebibyte, and the last is not longer. */
  lemma {:induction false} ChunkSizes(c: Bytes, i: nat)
    requires i < |Chunks(c)|
    ensures if i + 1 < |Chunks(c)| then |Chunks(c)[i]| == 1_048_576 else 0 < |Chunks(c)[i]| <= 1_048_576
  {
    if i > 0 {
      ChunkSizes(c[1_048_576..], i - 1);
    }
  }

  /** An inline file of more than one mebibyte. */
  predicate Large(node: Option<Node>) {
    node.Some? && node.value.File? && node.value.content.Inline? && |node.value.content.bytes| > 1_048_576
  }

  predicate WritesTo(d: Delta, path: Path) { d.Write? && d.path == path }

  /** The deltas that are no writes of a large file, in order. */
  function Others(final: Tree, deltas: seq<Delta>): seq<Delta> {
    if deltas == [] then []
    else
      var n := |deltas| - 1;
      Others(final, deltas[..n]) + if deltas[n].Write? && Large(Get(final, deltas[n].path)) then [] else [deltas[n]]
  }

  /** How many deltas write to `path`. */
  function WriteCount(deltas: seq<Delta>, path: Path): nat {
    if deltas == [] then 0
    else
      var n := |deltas| - 1;
      WriteCount(deltas[..n], path) + if WritesTo(deltas[n], path) then 1 else 0
  }

  lemma OthersSnoc(final: Tree, deltas: seq<Delta>, d: Delta, path: Path)
    ensures Others(final, deltas + [d])
         == Others(final, deltas) + if d.Write? && Large(Get(final, d.path)) then [] else [d]
    ensures WriteCount(deltas + [d], path) == WriteCount(deltas, path) + if WritesTo(d, path) then 1 else 0
  {
    assert (deltas + [d])[..|deltas|] == deltas;
  }

  /** The whole content of a large file as one write. */
  predicate WholeFile(hash: Bytes -> string, final: Tree, d: Delta) {
    && d.Write? && Large(Get(final, d.path)) && d.offset == 0 && d.data.BlockData?
    && d.data.blocks == RefsOf(hash, Chunks(final[d.path].content.bytes))
  }

  /** The upgrade of a batch: a file that ends up inline and larger than one mebibyte, and is written in the batch, gets
      one block write of its whole final content in place of all its writes; everything else stays, in order. */
  lemma {:induction false} UpgradeMeans(hash: Bytes -> string, final: Tree, pending: seq<Delta>, path: Path)
    ensures Others(final, Upgrade(hash, final, pending)) == Others(final, pending)
    ensures Large(Get(final, path)) ==>
              WriteCount(Upgrade(hash, final, pending), path) == if WriteCount(pending, path) > 0 then 1 else 0
    ensures forall d :: d in Upgrade(hash, final, pending) && d.Write? && Large(Get(final, d.path)) ==>
              WholeFile(hash, final, d)
  {
    if pending != [] {
      var n := |pending| - 1;
      var d := pending[n];
      UpgradeMeans(hash, final, pending[..n], path);
      if Large(Get(final, path)) {
        CountedIff(final, pending[..n], path);
      }
      if ChunkedWrite(final, d) {
        OthersSnoc(final, Upgrade(hash, final, pending[..n]),
                   Write(d.path, 0, BlockData(FileRefs(hash, final, d.path))), path);
      } else {
        OthersSnoc(final, Upgrade(hash, final, pending[..n]), d, path);
      }
    }
  }

  lemma {:induction false} CountedIff(final: Tree, pending: seq<Delta>, path: Path)
    requires Large(Get(final, path))
    ensures path in ChunkedPaths(final, pending) <==> WriteCount(pending, path) > 0
  {
    if pending != [] {
      var n := |pending| - 1;
      CountedIff(final, pending[..n], path);
      ChunkedPathsStep(final, pending, n);
      assert pending[..n + 1] == pending;
    }
  }
}
