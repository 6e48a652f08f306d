/** Lazy range reads over block-backed files, through a cache keyed by content hash. */
module FsReads {
  import opened Prelude
  import opened FsImage
  import opened FsBlocks

  /** The bytes at `[lo, hi)`, clipped to the end. */
  function Range(b: Bytes, lo: nat, hi: nat): Bytes
    requires lo <= hi
  {
    if lo >= |b| then [] else b[lo..Min(hi, |b|)]
  }

  /** Every cached block is the bucket's block. */
  predicate Cached(cache: BlockStore, bucket: BlockStore) {
    forall h :: h in cache ==> h in bucket && bucket[h] == cache[h]
  }

  /** References carry the length of the block they name. */
  predicate WellSized(bucket: BlockStore, refs: seq<BlockRef>) {
    forall i :: 0 <= i < |refs| && refs[i].hash in bucket ==> |bucket[refs[i].hash]| == refs[i].len
  }

  /** Where block `i` starts in the file. */
  function Start(refs: seq<BlockRef>, i: nat): nat
    requires i <= |refs|
  {
    if i == 0 then 0 else Start(refs, i - 1) + refs[i - 1].len
  }

  /** The window of block `i` reaches past `offset` and starts before `end`. */
  predicate Overlaps(refs: seq<BlockRef>, i: nat, offset: nat, end: nat)
    requires i < |refs|
  {
    Start(refs, i) < end && offset < Start(refs, i) + refs[i].len
  }

  /** The hashes of the first `n` blocks that overlap the read. */
  function Needed(refs: seq<BlockRef>, n: nat, offset: nat, end: nat): set<string>
    requires n <= |refs|
  {
    if n == 0 then {}
    else if Overlaps(refs, n - 1, offset, end) then Needed(refs, n - 1, offset, end) + {refs[n - 1].hash}
    else Needed(refs, n - 1, offset, end)
  }

  lemma {:induction false} NeededMeaning(refs: seq<BlockRef>, n: nat, offset: nat, end: nat)
    requires n <= |refs|
    ensures forall i :: 0 <= i < n && Overlaps(refs, i, offset, end) ==> refs[i].hash in Needed(refs, n, offset, end)
    ensures forall h :: h in Needed(refs, n, offset, end) ==>
              exists i :: 0 <= i < n && Overlaps(refs, i, offset, end) && refs[i].hash == h
  {
    if n > 0 {
      NeededMeaning(refs, n - 1, offset, end);
    }
  }

  /** The bytes of the first `n` blocks. */
  function BytesUpTo(bucket: BlockStore, refs: seq<BlockRef>, n: nat): (r: Bytes)
    requires n <= |refs| && Stored(bucket, refs) && WellSized(bucket, refs)
    ensures |r| == Start(refs, n)
  {
    if n == 0 then [] else BytesUpTo(bucket, refs, n - 1) + bucket[refs[n - 1].hash]
  }

  lemma {:induction false} BytesUpToIsBlockBytes(bucket: BlockStore, refs: seq<BlockRef>, n: nat)
    requires n <= |refs| && Stored(bucket, refs) && WellSized(bucket, refs)
    ensures BytesUpTo(bucket, refs, n) == BlockBytes(bucket, refs[..n])
  {
    if n > 0 {
      BytesUpToIsBlockBytes(bucket, refs, n - 1);
      assert refs[..n][..n - 1] == refs[..n - 1];
    }
  }

  lemma SliceAcross(x: Bytes, b: Bytes, l: nat, h: nat)
    requires l <= |x| <= h <= |x| + |b|
    ensures (x + b)[l..h] == x[l..] + b[..h - |x|]
  {
  }

  lemma RangeAppend(x: Bytes, b: Bytes, lo: nat, hi: nat)
    requires lo <= hi
    ensures Range(x + b, lo, hi)
         == Range(x, lo, hi) + b[Min(Max(lo - |x|, 0), |b|)..Min(Max(hi - |x|, 0), |b|)]
  {
    var l, h := Min(lo, |x + b|), Min(hi, |x + b|);
    if l <= |x| <= h {
      SliceAcross(x, b, l, h);
    } else if |x| < l {
      assert (x + b)[l..h] == b[l - |x|..h - |x|];
    } else {
      assert (x + b)[l..h] == x[l..h];
    }
  }

  /** The part of a block, whose window is `[bstart, bend)`, that falls into the read. */
  function Clip(b: Bytes, bstart: nat, bend: nat, offset: nat, end: nat): Bytes
    requires bstart <= bend && bstart < end && offset < bend && offset <= end
  {
    var lo, hi := Max(offset - bstart, 0), Min(end, bend) - bstart;
    b[Min(lo, |b|)..Min(hi, |b|)]
  }

  /** What the read loop has collected before block `i`. */
  function Collected(bucket: BlockStore, refs: seq<BlockRef>, i: nat, offset: nat, end: nat): Bytes
    requires offset <= end && i <= |refs|
  {
    if i == 0 then []
    else
      var before := Collected(bucket, refs, i - 1, offset, end);
      if !Overlaps(refs, i - 1, offset, end) || refs[i - 1].hash !in bucket then before
      else before + Clip(bucket[refs[i - 1].hash], Start(refs, i - 1), Start(refs, i), offset, end)
  }

  /** A block adds its clip to a read, and nothing where it does not overlap. */
  lemma RangeClip(x: Bytes, b: Bytes, offset: nat, end: nat)
    requires offset <= end
    ensures Range(x + b, offset, end)
         == Range(x, offset, end)
            + if |x| < end && offset < |x| + |b| then Clip(b, |x|, |x| + |b|, offset, end) else []
  {
    RangeAppend(x, b, offset, end);
  }

  /** Before block `i`, exactly the part of the read that the earlier blocks hold has been collected. */
  ghost predicate CollectedRight(bucket: BlockStore, refs: seq<BlockRef>, i: nat, offset: nat, end: nat)
    requires offset <= end && i <= |refs| && Stored(bucket, refs) && WellSized(bucket, refs)
  {
    Collected(bucket, refs, i, offset, end) == Range(BytesUpTo(bucket, refs, i), offset, end)
  }

  lemma {:induction false} CollectedStep(bucket: BlockStore, refs: seq<BlockRef>, i: nat, offset: nat, end: nat)
    requires offset <= end && 0 < i <= |refs| && Stored(bucket, refs) && WellSized(bucket, refs)
    requires CollectedRight(bucket, refs, i - 1, offset, end)
    ensures CollectedRight(bucket, refs, i, offset, end)
  {
    var x, b := BytesUpTo(bucket, refs, i - 1), bucket[refs[i - 1].hash];
    assert |x| == Start(refs, i - 1) && |b| == refs[i - 1].len;
    assert Overlaps(refs, i - 1, offset, end) <==> |x| < end && offset < |x| + |b|;
    RangeClip(x, b, offset, end);
  }

  lemma {:induction false} CollectedIsRange(bucket: BlockStore, refs: seq<BlockRef>, i: nat, offset: nat, end: nat)
    requires offset <= end && i <= |refs| && Stored(bucket, refs) && WellSized(bucket, refs)
    ensures CollectedRight(bucket, refs, i, offset, end)
  {
    if i == 0 {
      CollectedNothing(bucket, refs, offset, end);
    } else {
      CollectedIsRange(bucket, refs, i - 1, offset, end);
      CollectedStep(bucket, refs, i, offset, end);
    }
  }

  lemma CollectedNothing(bucket: BlockStore, refs: seq<BlockRef>, offset: nat, end: nat)
    requires offset <= end && Stored(bucket, refs) && WellSized(bucket, refs)
    ensures CollectedRight(bucket, refs, 0, offset, end)
  {
  }

  /** Blocks at or behind the end of the read are never needed and add nothing. */
  lemma {:induction false} Settled(bucket: BlockStore, refs: seq<BlockRef>, i: nat, offset: nat, end: nat)
    requires offset <= end && i <= |refs| && end <= Start(refs, i)
    ensures Collected(bucket, refs, |refs|, offset, end) == Collected(bucket, refs, i, offset, end)
    ensures Needed(refs, |refs|, offset, end) == Needed(refs, i, offset, end)
    decreases |refs| - i
  {
    if i < |refs| {
      Settled(bucket, refs, i + 1, offset, end);
    }
  }

  // The cache is the caller's map, passed in and handed back.

  method FetchBlock(bucket: BlockStore, cache: BlockStore, hash: string) returns (b: Option<Bytes>, cache': BlockStore)
    requires Cached(cache, bucket)
    ensures b == Get(bucket, hash)
    ensures Cached(cache', bucket)
    ensures cache'.Keys == cache.Keys + if b.Some? then {hash} else {}
  {
    cache' := cache;
    if hash in cache {
      return Some(cache[hash]), cache;
    }
    if hash !in bucket {
      return None, cache;
    }
    b := Some(bucket[hash]);
    cache' := cache[hash := bucket[hash]];
  }

  method ReadBlocks(bucket: BlockStore, cache: BlockStore, refs: seq<BlockRef>, offset: nat, len: nat)
    returns (r: Option<Bytes>, cache': BlockStore)
    requires Cached(cache, bucket)
    ensures Cached(cache', bucket)
    ensures r.Some? <==> Needed(refs, |refs|, offset, offset + len) <= bucket.Keys
    ensures r.Some? ==> cache'.Keys == cache.Keys + Needed(refs, |refs|, offset, offset + len)
    ensures r.Some? ==> r.value == Collected(bucket, refs, |refs|, offset, offset + len)
  {
    var end := offset + len;
    var out: Bytes := [];
    var pos, i := 0, 0;
    cache' := cache;
    while i < |refs|
      invariant 0 <= i <= |refs|
      invariant pos == Start(refs, i)
      invariant Cached(cache', bucket)
      invariant Needed(refs, i, offset, end) <= bucket.Keys
      invariant cache'.Keys == cache.Keys + Needed(refs, i, offset, end)
      invariant out == Collected(bucket, refs, i, offset, end)
    {
      var block := refs[i];
      var bstart, bend := pos, pos + block.len;
      pos := bend;
      i := i + 1;
      if bend <= offset {
        continue;
      }
      if bstart >= end {
        Settled(bucket, refs, i - 1, offset, end);
        return Some(out), cache';
      }
      var b, next := FetchBlock(bucket, cache', block.hash);
      cache' := next;
      if b.None? {
        NeededMeaning(refs, |refs|, offset, end);
        return None, cache';
      }
      out := out + Clip(b.value, bstart, bend, offset, end);
    }
    return Some(out), cache';
  }

  /** With every block in the bucket, the read loop collects exactly the slice. */
  lemma CollectedIsSlice(bucket: BlockStore, refs: seq<BlockRef>, offset: nat, end: nat)
    requires offset <= end && Stored(bucket, refs) && WellSized(bucket, refs)
    ensures Collected(bucket, refs, |refs|, offset, end) == Range(BlockBytes(bucket, refs), offset, end)
    ensures Needed(refs, |refs|, offset, end) <= bucket.Keys
  {
    NeededMeaning(refs, |refs|, offset, end);
    CollectedIsRange(bucket, refs, |refs|, offset, end);
    BytesUpToIsBlockBytes(bucket, refs, |refs|);
    assert refs[..|refs|] == refs;
  }

  /** Reads `[offset, offset + len)`: exactly that slice of the file clipped to its end, fetching exactly the
      blocks that overlap it, and failing exactly when one of those is gone. */
  method ReadContent(bucket: BlockStore, cache: BlockStore, content: Content, offset: nat, len: nat)
    returns (r: Option<Bytes>, cache': BlockStore)
    requires Cached(cache, bucket)
    requires content.Blocks? ==> WellSized(bucket, content.blocks)
    ensures Cached(cache', bucket)
    ensures content.Inline? ==> r == Some(Range(content.bytes, offset, offset + len)) && cache' == cache
    ensures content.Blocks? ==>
              var needed := Needed(content.blocks, |content.blocks|, offset, offset + len);
              && (r.Some? <==> needed <= bucket.Keys)
              && (r.Some? ==> cache'.Keys == cache.Keys + needed)
    ensures content.Blocks? && Stored(bucket, content.blocks) ==>
              r == Some(Range(BlockBytes(bucket, content.blocks), offset, offset + len))
  {
    match content
    case Inline(b) =>
      var s := Min(offset, |b|);
      var e := Min(s + len, |b|);
      assert b[s..e] == Range(b, offset, offset + len);
      return Some(b[s..e]), cache;
    case Blocks(refs, _) =>
      r, cache' := ReadBlocks(bucket, cache, refs, offset, len);
      if Stored(bucket, refs) {
        CollectedIsSlice(bucket, refs, offset, offset + len);
      }
  }

  /** A whole-file read returns the file: the size of a block-backed file is the length of its bytes. */
  lemma WholeRange(bucket: BlockStore, refs: seq<BlockRef>)
    requires Stored(bucket, refs) && WellSized(bucket, refs)
    ensures Range(BlockBytes(bucket, refs), 0, TotalLen(refs)) == BlockBytes(bucket, refs)
  {
    BytesUpToIsBlockBytes(bucket, refs, |refs|);
    StartIsTotalLen(refs, |refs|);
    assert refs[..|refs|] == refs;
  }

  lemma {:induction false} StartIsTotalLen(refs: seq<BlockRef>, i: nat)
    requires i <= |refs|
    ensures Start(refs, i) == TotalLen(refs[..i])
  {
    if i > 0 {
      StartIsTotalLen(refs, i - 1);
      assert refs[..i][..i - 1] == refs[..i - 1];
    }
  }
}
