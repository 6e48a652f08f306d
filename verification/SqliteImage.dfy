/**
 The database image: newest-wins page maps, sealed segments, folded batches, and the file they serialize to.
 */
module SqliteImage {
  import opened Prelude
  import opened SqliteTypes
  import opened NatOrder

  type Pages = map<nat, Bytes>

  datatype Image = Image(pageSize: nat, dbSize: nat, txid: nat, pages: Pages)

  const Empty := Image(0, 0, 0, map[])

  /** A sealed run of transactions: each page once, with its last post-image. */
  datatype Ltx = Ltx(txidStart: nat, txidEnd: nat, pageSize: nat, dbSize: nat, pages: seq<Frame>)

  // ---- applying ----

  /** Later frames win. */
  function PutPages(pages: Pages, frames: seq<Frame>): Pages {
    if frames == [] then pages
    else PutPages(pages, frames[..|frames| - 1])[frames[|frames| - 1].pgno := frames[|frames| - 1].data]
  }

  function Apply(img: Image, d: Delta): Image {
    Image(d.pageSize, d.dbSize, d.txid, PutPages(img.pages, d.pages))
  }

  function ApplyAll(img: Image, deltas: seq<Delta>): Image {
    if deltas == [] then img else Apply(ApplyAll(img, deltas[..|deltas| - 1]), deltas[|deltas| - 1])
  }

  function Merge(img: Image, l: Ltx): Image {
    Image(l.pageSize, l.dbSize, l.txidEnd, PutPages(img.pages, l.pages))
  }

  lemma {:induction false} ApplyAllConcat(img: Image, a: seq<Delta>, b: seq<Delta>)
    ensures ApplyAll(img, a + b) == ApplyAll(ApplyAll(img, a), b)
    decreases |b|
  {
    if b == [] {
      assert a + b == a;
    } else {
      assert (a + b)[..|a + b| - 1] == a + b[..|b| - 1];
      ApplyAllConcat(img, a, b[..|b| - 1]);
    }
  }

  lemma {:induction false} PutPagesOver(p: Pages, m: Pages, frames: seq<Frame>)
    ensures PutPages(p + m, frames) == p + PutPages(m, frames)
  {
    if frames != [] {
      PutPagesOver(p, m, frames[..|frames| - 1]);
    }
  }

  // ---- page maps as ordered frame lists ----

  function ListPages(pages: Pages, keys: seq<nat>): seq<Frame>
    requires forall k :: k in keys ==> k in pages
  {
    if keys == [] then [] else ListPages(pages, keys[..|keys| - 1]) + [Frame(keys[|keys| - 1], pages[keys[|keys| - 1]])]
  }

  /** A page map serialized in page order. */
  function PageList(pages: Pages): seq<Frame> {
    ListPages(pages, Ascending(pages.Keys))
  }

  lemma {:induction false} PutListed(p: Pages, pages: Pages, keys: seq<nat>)
    requires forall k :: k in keys ==> k in pages
    ensures forall k :: Get(PutPages(p, ListPages(pages, keys)), k) == if k in keys then Some(pages[k]) else Get(p, k)
  {
    if keys != [] {
      var n := |keys| - 1;
      PutListed(p, pages, keys[..n]);
      assert ListPages(pages, keys)[..|ListPages(pages, keys)| - 1] == ListPages(pages, keys[..n]);
      assert keys == keys[..n] + [keys[n]];
    }
  }

  /** Putting a serialized page map is overriding by the map. */
  lemma PutPageList(p: Pages, pages: Pages)
    ensures PutPages(p, PageList(pages)) == p + pages
  {
    PutListed(p, pages, Ascending(pages.Keys));
    GetExtensional(PutPages(p, PageList(pages)), p + pages);
  }

  // ---- the checkpoint builder and folded batches ----

  datatype Builder = Builder(txidStart: Option<nat>, txidEnd: nat, pageSize: nat, dbSize: nat, pages: Pages)

  const EmptyBuilder := Builder(None, 0, 0, 0, map[])

  function Build(b: Builder, d: Delta): Builder {
    Builder(if b.txidStart.Some? then b.txidStart
            else Some(d.txid), d.txid, d.pageSize, d.dbSize, PutPages(b.pages, d.pages))
  }

  function BuildAll(deltas: seq<Delta>): Builder {
    if deltas == [] then EmptyBuilder else Build(BuildAll(deltas[..|deltas| - 1]), deltas[|deltas| - 1])
  }

  function Seal(b: Builder): Ltx
    requires b.txidStart.Some?
  {
    Ltx(b.txidStart.value, b.txidEnd, b.pageSize, b.dbSize, PageList(b.pages))
  }

  lemma {:induction false} BuilderIsFold(img: Image, deltas: seq<Delta>)
    ensures deltas == [] <==> BuildAll(deltas).txidStart.None?
    ensures deltas != [] ==> BuildAll(deltas).txidStart == Some(deltas[0].txid)
    ensures ApplyAll(img, deltas).pages == img.pages + BuildAll(deltas).pages
    ensures deltas != [] ==>
              var (a, b) := (ApplyAll(img, deltas), BuildAll(deltas));
              a.txid == b.txidEnd && a.pageSize == b.pageSize && a.dbSize == b.dbSize
  {
    if deltas != [] {
      var n := |deltas| - 1;
      BuilderIsFold(img, deltas[..n]);
      PutPagesOver(img.pages, BuildAll(deltas[..n]).pages, deltas[n].pages);
    }
  }

  /** A sealed segment replays like the transactions it was built from. */
  lemma SealMerges(img: Image, deltas: seq<Delta>)
    requires deltas != []
    ensures BuildAll(deltas).txidStart.Some?
    ensures Merge(img, Seal(BuildAll(deltas))) == ApplyAll(img, deltas)
  {
    BuilderIsFold(img, deltas);
    PutPageList(img.pages, BuildAll(deltas).pages);
  }

  /** The batch's end state as one transaction. */
  function FoldBatch(deltas: seq<Delta>): Delta
    requires deltas != []
  {
    var last := deltas[|deltas| - 1];
    Delta(last.txid, last.pageSize, last.dbSize, PageList(BuildAll(deltas).pages))
  }

  lemma FoldBatchApplies(img: Image, deltas: seq<Delta>)
    requires deltas != []
    ensures Apply(img, FoldBatch(deltas)) == ApplyAll(img, deltas)
  {
    BuilderIsFold(img, deltas);
    PutPageList(img.pages, BuildAll(deltas).pages);
  }

  method Fold(deltas: seq<Delta>) returns (d: Delta)
    requires deltas != []
    ensures d == FoldBatch(deltas)
  {
    var pages: Pages := map[];
    for i := 0 to |deltas|
      invariant pages == BuildAll(deltas[..i]).pages
    {
      assert deltas[..i + 1][..i] == deltas[..i];
      pages := PutEach(pages, deltas[i].pages);
    }
    assert deltas[..|deltas|] == deltas;
    var last := deltas[|deltas| - 1];
    d := Delta(last.txid, last.pageSize, last.dbSize, PageList(pages));
  }

  method PutEach(pages: Pages, frames: seq<Frame>) returns (r: Pages)
    ensures r == PutPages(pages, frames)
  {
    r := pages;
    for i := 0 to |frames|
      invariant r == PutPages(pages, frames[..i])
    {
      assert frames[..i + 1][..i] == frames[..i];
      r := r[frames[i].pgno := frames[i].data];
    }
    assert frames[..|frames|] == frames;
  }

  // ---- what a reader of the file sees ----

  /** Equal in everything the database file depends on: pages beyond its size do not count. */
  ghost predicate SameView(a: Image, b: Image) {
    && a.pageSize == b.pageSize && a.dbSize == b.dbSize && a.txid == b.txid
    && forall p: nat :: p <= a.dbSize ==> Get(a.pages, p) == Get(b.pages, p)
  }

  /** The image without the pages beyond its size. */
  function Truncated(img: Image): Image {
    img.(pages := map p | p in img.pages && p <= img.dbSize :: img.pages[p])
  }

  lemma TruncatedSameView(img: Image)
    ensures SameView(Truncated(img), img)
  {
  }

  predicate WritesPage(d: Delta, p: nat) {
    exists i :: 0 <= i < |d.pages| && d.pages[i].pgno == p
  }

  /** Growing the database from `size` pages, the transaction writes every page it exposes. */
  predicate WritesExposed(size: nat, d: Delta) {
    forall p :: size < p <= d.dbSize ==> WritesPage(d, p)
  }

  /** The database size after the transactions. */
  function SizeAfter(size: nat, deltas: seq<Delta>): nat {
    if deltas == [] then size else deltas[|deltas| - 1].dbSize
  }

  /** Each transaction writes every page it exposes. */
  predicate Growing(size: nat, deltas: seq<Delta>) {
    deltas == [] ||
    var n := |deltas| - 1;
    Growing(size, deltas[..n]) && WritesExposed(SizeAfter(size, deltas[..n]), deltas[n])
  }

  lemma {:induction false} GrowingConcat(size: nat, a: seq<Delta>, b: seq<Delta>)
    ensures Growing(size, a + b) <==> Growing(size, a) && Growing(SizeAfter(size, a), b)
    decreases |b|
  {
    if b == [] {
      assert a + b == a;
    } else {
      var n := |b| - 1;
      assert (a + b)[..|a + b| - 1] == a + b[..n];
      GrowingConcat(size, a, b[..n]);
      assert SizeAfter(size, a + b[..n]) == SizeAfter(SizeAfter(size, a), b[..n]);
    }
  }

  lemma {:induction false} PutPagesAt(a: Pages, b: Pages, frames: seq<Frame>, p: nat)
    requires Get(a, p) == Get(b, p) || exists i :: 0 <= i < |frames| && frames[i].pgno == p
    ensures Get(PutPages(a, frames), p) == Get(PutPages(b, frames), p)
  {
    if frames != [] && frames[|frames| - 1].pgno != p {
      var n := |frames| - 1;
      if Get(a, p) != Get(b, p) {
        var i :| 0 <= i < |frames| && frames[i].pgno == p;
        assert frames[..n][i].pgno == p;
      }
      PutPagesAt(a, b, frames[..n], p);
    }
  }

  /** Transactions that write what they expose keep equal views equal. */
  lemma ApplySameView(a: Image, b: Image, d: Delta)
    requires SameView(a, b) && WritesExposed(a.dbSize, d)
    ensures SameView(Apply(a, d), Apply(b, d))
  {
    forall p: nat | p <= d.dbSize ensures Get(Apply(a, d).pages, p) == Get(Apply(b, d).pages, p) {
      assert p > a.dbSize ==> WritesPage(d, p);
      PutPagesAt(a.pages, b.pages, d.pages, p);
    }
  }

  lemma {:induction false} ApplyAllSameView(a: Image, b: Image, deltas: seq<Delta>)
    requires SameView(a, b) && Growing(a.dbSize, deltas)
    ensures SameView(ApplyAll(a, deltas), ApplyAll(b, deltas))
  {
    if deltas != [] {
      var n := |deltas| - 1;
      ApplyAllSameView(a, b, deltas[..n]);
      ApplySameView(ApplyAll(a, deltas[..n]), ApplyAll(b, deltas[..n]), deltas[n]);
    }
  }

  lemma {:induction false} BuiltPages(deltas: seq<Delta>, size: nat, p: nat)
    requires deltas != [] && Growing(size, deltas) && size < p <= deltas[|deltas| - 1].dbSize
    ensures p in BuildAll(deltas).pages
  {
    var n := |deltas| - 1;
    var before := BuildAll(deltas[..n]).pages;
    PutPagesDomain(before, deltas[n].pages, p);
    var prior := SizeAfter(size, deltas[..n]);
    if p > prior {
      assert WritesPage(deltas[n], p);
    } else if n > 0 {
      BuiltPages(deltas[..n], size, p);
    }
  }

  lemma {:induction false} PutPagesDomain(pages: Pages, frames: seq<Frame>, p: nat)
    ensures p in PutPages(pages, frames) <==> p in pages || exists i :: 0 <= i < |frames| && frames[i].pgno == p
  {
    if frames != [] {
      var n := |frames| - 1;
      PutPagesDomain(pages, frames[..n], p);
      if i :| 0 <= i < n && frames[..n][i].pgno == p {
        assert frames[i].pgno == p;
      }
      if i :| 0 <= i < |frames| && frames[i].pgno == p {
        assert i < n ==> frames[..n][i].pgno == p;
      }
    }
  }

  /** Folding a batch keeps the promise: the folded transaction writes every page the batch exposed. */
  lemma FoldBatchWritesExposed(size: nat, deltas: seq<Delta>)
    requires deltas != [] && Growing(size, deltas)
    ensures WritesExposed(size, FoldBatch(deltas))
  {
    var pages := BuildAll(deltas).pages;
    forall p | size < p <= FoldBatch(deltas).dbSize ensures WritesPage(FoldBatch(deltas), p) {
      BuiltPages(deltas, size, p);
      PutPageList(map[], pages);
      PutPagesDomain(map[], PageList(pages), p);
      assert p in map[] + pages;
    }
  }
}
