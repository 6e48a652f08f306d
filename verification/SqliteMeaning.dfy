/** What the page images and segments mean page by page: the reading that applying, merging and coalescing are held to.
    */
module SqliteMeaning {
  import opened Prelude
  import opened NatOrder
  import opened SqliteTypes
  import opened SqliteImage
  import opened SqliteStore
  import opened SqliteCheckpoint
  import opened SqliteRuns

  /** The last frame that holds page `p`. */
  ghost predicate LastFrame(frames: seq<Frame>, p: nat, i: nat) {
    i < |frames| && frames[i].pgno == p && forall j :: i < j < |frames| ==> frames[j].pgno != p
  }

  predicate Lists(frames: seq<Frame>, p: nat) {
    exists i :: 0 <= i < |frames| && frames[i].pgno == p
  }

  /** Page `p` after the frames: that of the last frame that holds it, or what was there. */
  ghost predicate PageAfter(before: Pages, frames: seq<Frame>, after: Pages, p: nat) {
    && (forall i: nat :: LastFrame(frames, p, i) ==> Get(after, p) == Some(frames[i].data))
    && (!Lists(frames, p) ==> Get(after, p) == Get(before, p))
  }

  lemma {:induction false} PutPagesMeans(before: Pages, frames: seq<Frame>, p: nat)
    ensures PageAfter(before, frames, PutPages(before, frames), p)
  {
    if frames != [] {
      var n := |frames| - 1;
      PutPagesMeans(before, frames[..n], p);
      if frames[n].pgno != p {
        forall i: nat | LastFrame(frames, p, i) ensures Get(PutPages(before, frames), p) == Some(frames[i].data) {
          assert LastFrame(frames[..n], p, i);
        }
        if !Lists(frames, p) {
          assert forall i :: 0 <= i < n ==> frames[..n][i].pgno == frames[i].pgno;
          assert !Lists(frames[..n], p);
        }
      }
    }
  }

  /** Applying a transaction: its sizes and id, and its pages over the others. */
  lemma ApplyMeans(img: Image, d: Delta, p: nat)
    ensures var after := Apply(img, d);
            && after.pageSize == d.pageSize && after.dbSize == d.dbSize && after.txid == d.txid
            && PageAfter(img.pages, d.pages, after.pages, p)
  {
    PutPagesMeans(img.pages, d.pages, p);
  }

  /** Merging a segment: its sizes and last id, and its pages over the others. */
  lemma MergeMeans(img: Image, l: Ltx, p: nat)
    ensures var after := Merge(img, l);
            && after.pageSize == l.pageSize && after.dbSize == l.dbSize && after.txid == l.txidEnd
            && PageAfter(img.pages, l.pages, after.pages, p)
  {
    PutPagesMeans(img.pages, l.pages, p);
  }

  /** A page map as frames: ascending page numbers, one frame for every page. */
  ghost predicate Serialises(frames: seq<Frame>, pages: Pages) {
    && (forall i, j :: 0 <= i < j < |frames| ==> frames[i].pgno < frames[j].pgno)
    && (forall i :: 0 <= i < |frames| ==> Get(pages, frames[i].pgno) == Some(frames[i].data))
    && (forall p :: p in pages ==> Lists(frames, p))
  }

  lemma {:induction false} ListedAt(pages: Pages, keys: seq<nat>)
    requires forall k :: k in keys ==> k in pages
    ensures |ListPages(pages, keys)| == |keys|
    ensures forall i :: 0 <= i < |keys| ==> ListPages(pages, keys)[i] == Frame(keys[i], pages[keys[i]])
  {
    if keys != [] {
      ListedAt(pages, keys[..|keys| - 1]);
    }
  }

  lemma PageListMeans(pages: Pages)
    ensures Serialises(PageList(pages), pages)
  {
    var keys := Ascending(pages.Keys);
    AscendingIncreases(pages.Keys);
    ListedAt(pages, keys);
    forall p | p in pages ensures Lists(PageList(pages), p) {
      assert p in keys;
      var i :| 0 <= i < |keys| && keys[i] == p;
      assert PageList(pages)[i].pgno == p;
    }
  }

  /** A sealed segment starts at the first transaction, ends at the last with its sizes, and lists every page once in
      page order, each as the last transaction that wrote it left it. */
  lemma SealMeans(deltas: seq<Delta>)
    requires deltas != []
    ensures BuildAll(deltas).txidStart.Some?
    ensures var (l, last) := (Seal(BuildAll(deltas)), deltas[|deltas| - 1]);
            && l.txidStart == deltas[0].txid && l.txidEnd == last.txid
            && l.pageSize == last.pageSize && l.dbSize == last.dbSize
            && Serialises(l.pages, ApplyAll(Empty, deltas).pages)
  {
    BuilderIsFold(Empty, deltas);
    PageListMeans(BuildAll(deltas).pages);
    assert Empty.pages + BuildAll(deltas).pages == BuildAll(deltas).pages;
  }

  /** A coalesced segment spans from the manifest's first transaction to the new segment's last and takes its sizes; it
      lists exactly the pages of the two together that lie within the database, the new segment's over the manifest's.
      */
  lemma CoalesceMeans(s: Durable, ltx: Ltx, p: nat)
    requires SegmentsExist(s.bucket, s.manifest.segments)
    ensures var l := MergedLtx(s, ltx);
            && l.txidStart == (if s.manifest.segments == [] then ltx.txidStart
                               else s.bucket[s.manifest.segments[0].path].txidStart)
            && l.txidEnd == ltx.txidEnd && l.pageSize == ltx.pageSize && l.dbSize == ltx.dbSize
            && (forall i :: 0 <= i < |l.pages| ==> l.pages[i].pgno <= ltx.dbSize)
            && Serialises(l.pages, Within(PutPages(BaseImage(s).pages, ltx.pages), ltx.dbSize))
            && PageAfter(BaseImage(s).pages, ltx.pages, PutPages(BaseImage(s).pages, ltx.pages), p)
  {
    var merged := Merge(BaseImage(s), ltx);
    assert Truncated(merged).pages == Within(merged.pages, ltx.dbSize);
    PageListMeans(Within(merged.pages, ltx.dbSize));
    PutPagesMeans(BaseImage(s).pages, ltx.pages, p);
  }

  /** The pages up to number `size`. */
  function Within(pages: Pages, size: nat): (r: Pages)
    ensures forall p :: Get(r, p) == if p <= size then Get(pages, p) else None
  {
    map p | p in pages && p <= size :: pages[p]
  }

  /** In every state of every run, each entry of the manifest describes the object it names, field by field. */
  lemma ManifestDescribes(ops: seq<Op>, limit: nat, i: nat)
    requires Run(ops, limit).Some? && i < |Run(ops, limit).value.store.manifest.segments|
    ensures var s := Run(ops, limit).value.store;
            var entry := s.manifest.segments[i];
            && entry.path in s.bucket
            && var found := s.bucket[entry.path];
            && entry.txidStart == found.txidStart && entry.txidEnd == found.txidEnd
            && entry.pageSize == found.pageSize && entry.dbSize == found.dbSize
  {
    RunInv(ops, limit);
  }
}
