/**
 The commit path: large files in a pending batch are replaced by one full-content block write, and the
 later extents of such a file are dropped.
 */
module FsBlocks {
  import opened Prelude
  import opened FsImage

  const CHUNK: nat := 1024 * 1024

  type BlockStore = map<string, Bytes>

  // ---- chunks and content addresses ----

  function Chunks(c: Bytes): (r: seq<Bytes>)
    ensures forall i :: 0 <= i < |r| ==> 0 < |r[i]| <= CHUNK
  {
    if c == [] then [] else if |c| <= CHUNK then [c] else [c[..CHUNK]] + Chunks(c[CHUNK..])
  }

  lemma {:induction false} ChunksFlatten(c: Bytes)
    ensures Flatten(Chunks(c)) == c
  {
    if |c| > CHUNK {
      ChunksFlatten(c[CHUNK..]);
      FlattenConcat([c[..CHUNK]], Chunks(c[CHUNK..]));
      assert Flatten([c[..CHUNK]]) == c[..CHUNK];
      assert c == c[..CHUNK] + c[CHUNK..];
    } else if c != [] {
      assert Flatten([c]) == Flatten([c][..0]) + c == c;
    }
  }

  ghost predicate Injective(hash: Bytes -> string) {
    forall a: Bytes, b: Bytes :: hash(a) == hash(b) ==> a == b
  }

  /** Every stored block sits under the hash of its bytes. */
  ghost predicate Addressed(hash: Bytes -> string, store: BlockStore) {
    forall h :: h in store ==> hash(store[h]) == h
  }

  function RefsOf(hash: Bytes -> string, chunks: seq<Bytes>): (r: seq<BlockRef>)
    ensures |r| == |chunks|
    ensures forall i :: 0 <= i < |r| ==> r[i] == BlockRef(hash(chunks[i]), |chunks[i]|)
  {
    seq(|chunks|, i requires 0 <= i < |chunks| => BlockRef(hash(chunks[i]), |chunks[i]|))
  }

  lemma {:induction false} RefsLen(hash: Bytes -> string, chunks: seq<Bytes>)
    ensures TotalLen(RefsOf(hash, chunks)) == |Flatten(chunks)|
  {
    if chunks != [] {
      var n := |chunks| - 1;
      assert RefsOf(hash, chunks)[..n] == RefsOf(hash, chunks[..n]);
      RefsLen(hash, chunks[..n]);
    }
  }

  /** All blocks of a list are in the store. */
  predicate Stored(store: BlockStore, blocks: seq<BlockRef>) {
    forall i :: 0 <= i < |blocks| ==> blocks[i].hash in store
  }

  /** The bytes a block list stands for. */
  function BlockBytes(store: BlockStore, blocks: seq<BlockRef>): Bytes
    requires Stored(store, blocks)
  {
    if blocks == [] then []
    else
      assert Stored(store, blocks[..|blocks| - 1]);
      BlockBytes(store, blocks[..|blocks| - 1]) + store[blocks[|blocks| - 1].hash]
  }

  lemma {:induction false} StoredChunksRead(hash: Bytes -> string, store: BlockStore, chunks: seq<Bytes>)
    requires Stored(store, RefsOf(hash, chunks))
    requires forall i :: 0 <= i < |chunks| ==> store[hash(chunks[i])] == chunks[i]
    ensures BlockBytes(store, RefsOf(hash, chunks)) == Flatten(chunks)
  {
    if chunks != [] {
      var n := |chunks| - 1;
      assert RefsOf(hash, chunks)[..n] == RefsOf(hash, chunks[..n]);
      StoredChunksRead(hash, store, chunks[..n]);
    }
  }

  // ---- the upgrade ----

  /** The batch's final content of `path` is inline and longer than one chunk. */
  predicate NeedsChunks(final: Tree, path: Path) {
    && path in final && final[path].File? && final[path].content.Inline?
    && |final[path].content.bytes| > CHUNK
  }

  function FileRefs(hash: Bytes -> string, final: Tree, path: Path): seq<BlockRef>
    requires NeedsChunks(final, path)
  {
    RefsOf(hash, Chunks(final[path].content.bytes))
  }

  /** The file that a block write of the final content leaves. */
  function ChunkNode(hash: Bytes -> string, final: Tree, path: Path, meta: Meta): Node
    requires NeedsChunks(final, path)
  {
    File(Blocks(FileRefs(hash, final, path), TotalLen(FileRefs(hash, final, path))), meta)
  }

  predicate ChunkedWrite(final: Tree, d: Delta) {
    d.Write? && NeedsChunks(final, d.path)
  }

  function ChunkedPaths(final: Tree, pending: seq<Delta>): set<Path> {
    set i | 0 <= i < |pending| && ChunkedWrite(final, pending[i]) :: pending[i].path
  }

  function Upgrade(hash: Bytes -> string, final: Tree, pending: seq<Delta>): seq<Delta> {
    if pending == [] then []
    else
      var n := |pending| - 1;
      var d := pending[n];
      var before := Upgrade(hash, final, pending[..n]);
      if !ChunkedWrite(final, d) then before + [d]
      else if d.path in ChunkedPaths(final, pending[..n]) then before
      else before + [Write(d.path, 0, BlockData(FileRefs(hash, final, d.path)))]
  }

  lemma ChunkedPathsStep(final: Tree, pending: seq<Delta>, i: nat)
    requires i < |pending|
    ensures ChunkedPaths(final, pending[..i + 1])
         == ChunkedPaths(final, pending[..i]) + (if ChunkedWrite(final, pending[i]) then {pending[i].path} else {})
  {
    var all := pending[..i + 1];
    forall p ensures p in ChunkedPaths(final, all) <==>
        p in ChunkedPaths(final, pending[..i]) || (ChunkedWrite(final, pending[i]) && p == pending[i].path)
    {
      if p in ChunkedPaths(final, pending[..i]) {
        var j :| 0 <= j < i && ChunkedWrite(final, pending[..i][j]) && p == pending[..i][j].path;
        assert all[j] == pending[j];
      }
      if p in ChunkedPaths(final, all) {
        var j :| 0 <= j < i + 1 && ChunkedWrite(final, all[j]) && p == all[j].path;
        if j < i { assert pending[..i][j] == all[j]; }
      }
      if ChunkedWrite(final, pending[i]) { assert all[i] == pending[i]; }
    }
  }

  lemma UpgradeStep(hash: Bytes -> string, final: Tree, pending: seq<Delta>, i: nat)
    requires i < |pending|
    ensures Upgrade(hash, final, pending[..i + 1])
         == var before := Upgrade(hash, final, pending[..i]);
            if !ChunkedWrite(final, pending[i]) then before + [pending[i]]
            else if pending[i].path in ChunkedPaths(final, pending[..i]) then before
            else before + [Write(pending[i].path, 0, BlockData(FileRefs(hash, final, pending[i].path)))]
  {
    assert pending[..i + 1][..i] == pending[..i];
  }

  /** Splits one file into blocks, queueing the ones the bucket does not hold yet. */
  method ChunkFile(hash: Bytes -> string, content: Bytes, bucket: BlockStore, uploads: BlockStore)
    returns (blocks: seq<BlockRef>, more: BlockStore)
    requires Addressed(hash, uploads) && uploads.Keys !! bucket.Keys
    ensures blocks == RefsOf(hash, Chunks(content))
    ensures forall h :: h in uploads ==> h in more
    ensures Stored(bucket + more, blocks)
    ensures Addressed(hash, more) && more.Keys !! bucket.Keys
  {
    blocks, more := [], uploads;
    var chunks := Chunks(content);
    for i := 0 to |chunks|
      invariant |blocks| == i
      invariant forall j :: 0 <= j < i ==> blocks[j] == BlockRef(hash(chunks[j]), |chunks[j]|)
      invariant forall j :: 0 <= j < i ==> blocks[j].hash in bucket || blocks[j].hash in more
      invariant forall h :: h in uploads ==> h in more
      invariant Addressed(hash, more) && more.Keys !! bucket.Keys
    {
      var h := hash(chunks[i]);
      if h !in bucket {
        more := more[h := chunks[i]];
      }
      blocks := blocks + [BlockRef(h, |chunks[i]|)];
    }
  }

  /** The commit loop: the upgraded batch, and the bucket with every block the batch refers to. */
  method UpgradeBatch(hash: Bytes -> string, final: Tree, pending: seq<Delta>, bucket: BlockStore)
    returns (upgraded: seq<Delta>, stored: BlockStore)
    requires Addressed(hash, bucket)
    ensures upgraded == Upgrade(hash, final, pending)
    ensures Addressed(hash, stored)
    ensures forall h :: h in bucket ==> h in stored && stored[h] == bucket[h]
    ensures forall p :: p in ChunkedPaths(final, pending) ==> Stored(stored, FileRefs(hash, final, p))
  {
    upgraded := [];
    var uploads: BlockStore := map[];
    var chunked: set<Path> := {};
    for i := 0 to |pending|
      invariant upgraded == Upgrade(hash, final, pending[..i])
      invariant chunked == ChunkedPaths(final, pending[..i])
      invariant Addressed(hash, uploads) && uploads.Keys !! bucket.Keys
      invariant forall p :: p in chunked ==> Stored(bucket + uploads, FileRefs(hash, final, p))
    {
      ChunkedPathsStep(final, pending, i);
      UpgradeStep(hash, final, pending, i);
      match pending[i] {
        case Write(path, _, _) =>
          if path in chunked {
            // the file's one block write stands for all its extents
          } else if !NeedsChunks(final, path) {
            upgraded := upgraded + [pending[i]];
          } else {
            chunked := chunked + {path};
            var blocks, more := ChunkFile(hash, final[path].content.bytes, bucket, uploads);
            uploads := more;
            upgraded := upgraded + [Write(path, 0, BlockData(blocks))];
          }
        case _ =>
          upgraded := upgraded + [pending[i]];
      }
    }
    assert pending[..|pending|] == pending;
    stored := bucket + uploads;
  }

  // ---- replaying a batch ----

  function ApplyAll(nodes: Tree, deltas: seq<Delta>, now: int): Tree {
    if deltas == [] then nodes
    else ApplyDelta(ApplyAll(nodes, deltas[..|deltas| - 1], now), deltas[|deltas| - 1], now)
  }

  lemma ApplyAllSnoc(nodes: Tree, deltas: seq<Delta>, d: Delta, now: int)
    ensures ApplyAll(nodes, deltas + [d], now) == ApplyDelta(ApplyAll(nodes, deltas, now), d, now)
  {
    assert (deltas + [d])[..|deltas|] == deltas;
  }

  // ---- files as a reader sees them ----

  ghost function FileBytes(store: BlockStore, node: Node): Option<Bytes>
  {
    if !node.File? then None
    else match node.content
      case Inline(b) => Some(b)
      case Blocks(blocks, _) => if Stored(store, blocks) then Some(BlockBytes(store, blocks)) else None
  }

  /** Nothing there on both sides, or the same kind of node with the same metadata, target and readable bytes. */
  ghost predicate SameNode(store: BlockStore, a: Option<Node>, b: Option<Node>) {
    || a == b
    || (a.Some? && b.Some? && a.value.File? && b.value.File? && a.value.meta == b.value.meta
        && FileBytes(store, a.value).Some? && FileBytes(store, a.value) == FileBytes(store, b.value))
  }

  ghost predicate SameFiles(store: BlockStore, a: Tree, b: Tree) {
    forall p :: SameNode(store, Get(a, p), Get(b, p))
  }

  lemma SameFilesTransitive(store: BlockStore, a: Tree, b: Tree, c: Tree)
    requires SameFiles(store, a, b) && SameFiles(store, b, c)
    ensures SameFiles(store, a, c)
  {
    forall p ensures SameNode(store, Get(a, p), Get(c, p)) {
      assert SameNode(store, Get(a, p), Get(b, p)) && SameNode(store, Get(b, p), Get(c, p));
    }
  }

  lemma SameFilesSymmetric(store: BlockStore, a: Tree, b: Tree)
    requires SameFiles(store, a, b)
    ensures SameFiles(store, b, a)
  {
    forall p ensures SameNode(store, Get(b, p), Get(a, p)) {
      assert SameNode(store, Get(a, p), Get(b, p));
    }
  }

  lemma RefsRead(hash: Bytes -> string, store: BlockStore, content: Bytes)
    requires Injective(hash) && Addressed(hash, store) && Stored(store, RefsOf(hash, Chunks(content)))
    ensures BlockBytes(store, RefsOf(hash, Chunks(content))) == content
  {
    var chunks := Chunks(content);
    var refs := RefsOf(hash, chunks);
    forall i | 0 <= i < |chunks| ensures store[hash(chunks[i])] == chunks[i] {
      assert refs[i].hash in store;
      assert hash(store[hash(chunks[i])]) == hash(chunks[i]);
    }
    StoredChunksRead(hash, store, chunks);
    ChunksFlatten(content);
  }

  // ---- the image after a commit ----

  /** The image a handle keeps after committing: the block writes of the batch on top of what it already shows. */
  function Reblocked(final: Tree, upgraded: seq<Delta>, now: int): Tree {
    if upgraded == [] then final
    else
      var n := |upgraded| - 1;
      var before := Reblocked(final, upgraded[..n], now);
      if upgraded[n].Write? && upgraded[n].data.BlockData? then ApplyDelta(before, upgraded[n], now) else before
  }

  predicate InlineBatch(pending: seq<Delta>) {
    forall i :: 0 <= i < |pending| && pending[i].Write? ==> pending[i].data.InlineData?
  }

  lemma {:induction false} ReblockedAt(
    hash: Bytes -> string, final: Tree, pending: seq<Delta>, k: nat, now: int, q: Path)
    requires InlineBatch(pending) && k <= |pending|
    ensures Get(Reblocked(final, Upgrade(hash, final, pending[..k]), now), q)
         == if q in ChunkedPaths(final, pending[..k])
            then Some(ChunkNode(hash, final, q, final[q].meta)) else Get(final, q)
  {
    if k > 0 {
      var i := k - 1;
      ReblockedAt(hash, final, pending, i, now, q);
      ChunkedPathsStep(final, pending, i);
      UpgradeStep(hash, final, pending, i);
      var before, after := Upgrade(hash, final, pending[..i]), Upgrade(hash, final, pending[..k]);
      if after != before {
        assert after[..|before|] == before;
        if ChunkedWrite(final, pending[i]) {
          ReblockedAt(hash, final, pending, i, now, pending[i].path);
        }
      }
    }
  }
}
