/** The image as a database file, the in-place structures that build it, and the batches it streams as. */
module SqliteFile {
  import opened Prelude
  import opened SqliteTypes
  import opened NatOrder
  import opened SqliteImage

  // ---- the file ----

  /** Page `p` of the file: its post-image padded with zeros, or all zeros. */
  function PageAt(pages: Pages, p: nat, pageSize: nat): (r: Bytes)
    requires p in pages ==> |pages[p]| <= pageSize
    ensures |r| == pageSize
  {
    if p in pages then pages[p] + Zeros(pageSize - |pages[p]|) else Zeros(pageSize)
  }

  predicate Fits(pages: Pages, n: nat, pageSize: nat) {
    forall p :: p in pages && 1 <= p <= n ==> |pages[p]| <= pageSize
  }

  /** Pages 1 to `n`, one after the other. */
  function Layout(pages: Pages, n: nat, pageSize: nat): (r: Bytes)
    requires Fits(pages, n, pageSize)
    ensures |r| == n * pageSize
  {
    if n == 0 then []
    else
      assert n * pageSize == (n - 1) * pageSize + pageSize;
      Layout(pages, n - 1, pageSize) + PageAt(pages, n, pageSize)
  }

  function Overwrite(out: Bytes, start: nat, data: Bytes): Bytes
    requires start + |data| <= |out|
  {
    out[..start] + data + out[start + |data|..]
  }

  lemma OverwriteBack(x: Bytes, y: Bytes, data: Bytes)
    requires |data| <= |y|
    ensures Overwrite(x + y, |x|, data) == x + (data + y[|data|..])
  {
  }

  /** The buffer once pages 1 to `k` have been copied in, in order; `None` when a page reached past its end and the copy
      panicked. A page longer than the page size spills into the next one until that is copied. */
  function Painted(pages: Pages, k: nat, n: nat, pageSize: nat): (r: Option<Bytes>)
    requires k <= n
    ensures r.Some? ==> |r.value| == n * pageSize
  {
    if k == 0 then Some(Zeros(n * pageSize))
    else
      var before := Painted(pages, k - 1, n, pageSize);
      if before.None? || k !in pages then before
      else if (k - 1) * pageSize + |pages[k]| > n * pageSize then None
      else
        assert 0 <= (k - 1) * pageSize;
        Some(Overwrite(before.value, (k - 1) * pageSize, pages[k]))
  }

  /** The serialized image; `None` where serializing it panics. */
  function FileBytes(img: Image): Option<Bytes> {
    if img.pageSize == 0 then Some([]) else Painted(img.pages, img.dbSize, img.dbSize, img.pageSize)
  }

  lemma {:induction false} PaintedSame(a: Pages, b: Pages, k: nat, n: nat, pageSize: nat)
    requires k <= n && forall p: nat :: 1 <= p <= k ==> Get(a, p) == Get(b, p)
    ensures Painted(a, k, n, pageSize) == Painted(b, k, n, pageSize)
  {
    if k > 0 {
      PaintedSame(a, b, k - 1, n, pageSize);
      assert Get(a, k) == Get(b, k);
    }
  }

  /** Equal views serialize to the same file. */
  lemma SameViewSameFile(a: Image, b: Image)
    requires SameView(a, b)
    ensures FileBytes(a) == FileBytes(b)
  {
    PaintedSame(a.pages, b.pages, a.dbSize, a.dbSize, a.pageSize);
  }

  lemma {:induction false} PaintedSkip(pages: Pages, a: nat, b: nat, n: nat, pageSize: nat)
    requires a <= b <= n && forall k :: k in pages ==> !(a < k <= b)
    ensures Painted(pages, b, n, pageSize) == Painted(pages, a, n, pageSize)
    decreases b
  {
    if a < b {
      PaintedSkip(pages, a, b - 1, n, pageSize);
    }
  }

  lemma {:induction false} PanicStays(pages: Pages, a: nat, b: nat, n: nat, pageSize: nat)
    requires a <= b <= n && Painted(pages, a, n, pageSize).None?
    ensures Painted(pages, b, n, pageSize).None?
    decreases b
  {
    if a < b {
      PanicStays(pages, a, b - 1, n, pageSize);
    }
  }

  lemma ZerosJoin(a: nat, b: nat)
    ensures Zeros(a) + Zeros(b) == Zeros(a + b)
  {
  }

  lemma PaintOver(l: Bytes, data: Bytes, room: nat, left: nat)
    requires |data| <= room
    ensures Overwrite(l + Zeros(room + left), |l|, data) == (l + (data + Zeros(room - |data|))) + Zeros(left)
  {
    OverwriteBack(l, Zeros(room + left), data);
    assert Zeros(room + left)[|data|..] == Zeros(room - |data| + left);
    ZerosJoin(room - |data|, left);
    assert l + (data + (Zeros(room - |data|) + Zeros(left))) == (l + (data + Zeros(room - |data|))) + Zeros(left);
  }

  lemma Rooms(k: nat, n: nat, pageSize: nat)
    requires 1 <= k <= n
    ensures 0 <= (k - 1) * pageSize && 0 <= (n - k) * pageSize
    ensures (n - (k - 1)) * pageSize == pageSize + (n - k) * pageSize
    ensures n * pageSize == (k - 1) * pageSize + pageSize + (n - k) * pageSize
  {
  }

  /** One page behind the first `k - 1`. */
  lemma PaintPage(pages: Pages, k: nat, pageSize: nat, before: Bytes, start: nat, left: nat)
    requires 1 <= k && k in pages && |pages[k]| <= pageSize && Fits(pages, k - 1, pageSize)
             && start == (k - 1) * pageSize
    requires before == Layout(pages, k - 1, pageSize) + Zeros(pageSize + left)
    ensures Fits(pages, k, pageSize)
    ensures Overwrite(before, start, pages[k]) == Layout(pages, k, pageSize) + Zeros(left)
  {
    PaintInto(before, Layout(pages, k - 1, pageSize), pages[k], pageSize, left, start);
  }

  lemma PaintInto(before: Bytes, l: Bytes, data: Bytes, room: nat, left: nat, start: nat)
    requires |data| <= room && start == |l| && before == l + Zeros(room + left)
    ensures Overwrite(before, start, data) == (l + (data + Zeros(room - |data|))) + Zeros(left)
  {
    PaintOver(l, data, room, left);
  }

  lemma SkipPage(pages: Pages, k: nat, n: nat, pageSize: nat)
    requires 1 <= k <= n && k !in pages && Fits(pages, k - 1, pageSize)
    ensures Fits(pages, k, pageSize)
    ensures Layout(pages, k - 1, pageSize) + Zeros((n - (k - 1)) * pageSize)
            == Layout(pages, k, pageSize) + Zeros((n - k) * pageSize)
  {
    Rooms(k, n, pageSize);
    var l, left := Layout(pages, k - 1, pageSize), (n - k) * pageSize;
    ZerosJoin(pageSize, left);
    assert l + (Zeros(pageSize) + Zeros(left)) == (l + Zeros(pageSize)) + Zeros(left);
  }

  /** When every page fits its place, copying them in gives the pages one after the other. */
  lemma {:induction false} PaintedIsLayout(pages: Pages, k: nat, n: nat, pageSize: nat)
    requires k <= n && Fits(pages, n, pageSize)
    ensures Fits(pages, k, pageSize)
    ensures Painted(pages, k, n, pageSize) == Some(Layout(pages, k, pageSize) + Zeros((n - k) * pageSize))
  {
    if k == 0 {
      assert [] + Zeros(n * pageSize) == Zeros(n * pageSize);
    } else {
      PaintedIsLayout(pages, k - 1, n, pageSize);
      if k in pages {
        Rooms(k, n, pageSize);
        var before := Layout(pages, k - 1, pageSize) + Zeros((n - (k - 1)) * pageSize);
        PaintPage(pages, k, pageSize, before, (k - 1) * pageSize, (n - k) * pageSize);
        PaintOne(before, pages, k, n, pageSize);
      } else {
        SkipPage(pages, k, n, pageSize);
      }
    }
  }

  /** The file of an image whose pages fit: pages 1 to the size, one after the other. */
  lemma FileIsLayout(img: Image)
    requires Fits(img.pages, img.dbSize, img.pageSize) && img.pageSize > 0
    ensures FileBytes(img) == Some(Layout(img.pages, img.dbSize, img.pageSize))
  {
    PaintedIsLayout(img.pages, img.dbSize, img.dbSize, img.pageSize);
    assert Zeros(0) == [];
    assert (img.dbSize - img.dbSize) * img.pageSize == 0;
    var l := Layout(img.pages, img.dbSize, img.pageSize);
    assert l + [] == l;
  }

  lemma {:induction false} LayoutAt(pages: Pages, n: nat, pageSize: nat, p: nat)
    requires Fits(pages, n, pageSize) && 1 <= p <= n
    ensures 0 <= (p - 1) * pageSize && p * pageSize <= n * pageSize
    ensures Layout(pages, n, pageSize)[(p - 1) * pageSize..p * pageSize] == PageAt(pages, p, pageSize)
  {
    assert p * pageSize == (p - 1) * pageSize + pageSize;
    assert n * pageSize == (n - 1) * pageSize + pageSize;
    if p < n {
      LayoutAt(pages, n - 1, pageSize, p);
      assert Layout(pages, n, pageSize)[..(n - 1) * pageSize] == Layout(pages, n - 1, pageSize);
    }
  }

  // ---- structures edited in place ----

  class DbImage {
    var pageSize: nat
    var dbSize: nat
    var txid: nat
    var pages: Pages

    constructor ()
      ensures Value() == Empty
    {
      pageSize, dbSize, txid, pages := 0, 0, 0, map[];
    }

    ghost function Value(): Image
      reads this
    {
      Image(pageSize, dbSize, txid, pages)
    }

    method Apply(d: Delta)
      modifies this
      ensures Value() == SqliteImage.Apply(old(Value()), d)
    {
      pageSize, dbSize, txid := d.pageSize, d.dbSize, d.txid;
      for i := 0 to |d.pages|
        invariant pages == PutPages(old(pages), d.pages[..i])
        invariant pageSize == d.pageSize && dbSize == d.dbSize && txid == d.txid
      {
        assert d.pages[..i + 1][..i] == d.pages[..i];
        pages := pages[d.pages[i].pgno := d.pages[i].data];
      }
      assert d.pages[..|d.pages|] == d.pages;
    }

    method MergeLtx(l: Ltx)
      modifies this
      ensures Value() == Merge(old(Value()), l)
    {
      pageSize, dbSize, txid := l.pageSize, l.dbSize, l.txidEnd;
      for i := 0 to |l.pages|
        invariant pages == PutPages(old(pages), l.pages[..i])
        invariant pageSize == l.pageSize && dbSize == l.dbSize && txid == l.txidEnd
      {
        assert l.pages[..i + 1][..i] == l.pages[..i];
        pages := pages[l.pages[i].pgno := l.pages[i].data];
      }
      assert l.pages[..|l.pages|] == l.pages;
    }

    /** `ok` is false where the code panics. */
    method ToBytes() returns (out: array<byte>, ok: bool)
      ensures ok <==> FileBytes(Value()).Some?
      ensures ok ==> Some(out[..]) == FileBytes(Value())
    {
      if pageSize == 0 {
        out := new byte[0];
        assert out[..] == [];
        return out, true;
      }
      out, ok := Render(pages, dbSize, pageSize);
    }
  }

  /** Pages 1 to `done` are in the buffer; every further one is still among the keys. */
  ghost predicate Filled(out: seq<byte>, pages: Pages, left: seq<nat>, done: nat, dbSize: nat, pageSize: nat) {
    && done <= dbSize && Painted(pages, done, dbSize, pageSize) == Some(out)
    && (forall k :: k in pages && done < k <= dbSize ==> k in left)
    && (forall k :: k in left ==> k in pages && (k == 0 || k > done))
  }

  /** Fills a zeroed buffer page by page in page order, skipping pages outside the file. */
  method Render(pages: Pages, dbSize: nat, pageSize: nat) returns (out: array<byte>, ok: bool)
    ensures ok <==> Painted(pages, dbSize, dbSize, pageSize).Some?
    ensures ok ==> Painted(pages, dbSize, dbSize, pageSize) == Some(out[..])
  {
    out := new byte[dbSize * pageSize](_ => 0);
    var left := Ascending(pages.Keys);
    AscendingIncreases(pages.Keys);
    ghost var done: nat := 0;
    assert out[..] == Zeros(dbSize * pageSize);
    while left != []
      invariant Increasing(left) && Filled(out[..], pages, left, done, dbSize, pageSize)
    {
      var pgno, rest := left[0], left[1..];
      assert left == [pgno] + rest;
      RestIncreases(pgno, rest);
      assert pgno in left;
      ok, done := FillPage(out, pages, pgno, rest, done, dbSize, pageSize);
      if !ok {
        return;
      }
      left := rest;
    }
    PaintedSkip(pages, done, dbSize, dbSize, pageSize);
    ok := true;
  }

  lemma RestIncreases(x: nat, rest: seq<nat>)
    requires Increasing([x] + rest)
    ensures Increasing(rest) && forall k :: k in rest ==> x < k
  {
    var all := [x] + rest;
    forall i | 0 <= i < |rest| ensures x < rest[i] {
      assert all[0] < all[i + 1];
    }
    forall i, j | 0 <= i < j < |rest| ensures rest[i] < rest[j] {
      assert all[i + 1] < all[j + 1];
    }
  }

  /** Between the last page copied and the next key there is no page. */
  lemma NoneBefore(pages: Pages, pgno: nat, rest: seq<nat>, done: nat)
    requires forall k :: k in pages && done < k <= pgno ==> k in [pgno] + rest
    requires forall k :: k in rest ==> pgno < k
    ensures forall k :: k in pages ==> !(done < k < pgno)
  {
  }

  lemma PaintNext(before: seq<byte>, pages: Pages, pgno: nat, done: nat, n: nat, pageSize: nat)
    requires 1 <= pgno <= n && pgno in pages && done < pgno && forall k :: k in pages ==> !(done < k < pgno)
    requires Painted(pages, done, n, pageSize) == Some(before)
    ensures 0 <= (pgno - 1) * pageSize && |before| == n * pageSize
    ensures Painted(pages, pgno, n, pageSize)
         == if (pgno - 1) * pageSize + |pages[pgno]| > n * pageSize then None
            else Some(Overwrite(before, (pgno - 1) * pageSize, pages[pgno]))
  {
    PaintedSkip(pages, done, pgno - 1, n, pageSize);
    PaintOne(before, pages, pgno, n, pageSize);
  }

  lemma PaintOne(before: seq<byte>, pages: Pages, k: nat, n: nat, pageSize: nat)
    requires 1 <= k <= n && k in pages && Painted(pages, k - 1, n, pageSize) == Some(before)
    ensures 0 <= (k - 1) * pageSize && |before| == n * pageSize
    ensures Painted(pages, k, n, pageSize)
         == if (k - 1) * pageSize + |pages[k]| > n * pageSize then None
            else Some(Overwrite(before, (k - 1) * pageSize, pages[k]))
  {
    var below := Painted(pages, k - 1, n, pageSize);
    assert |below.value| == n * pageSize;
  }

  lemma FilledNext(
    before: seq<byte>, after: seq<byte>, pages: Pages, pgno: nat, rest: seq<nat>, done: nat, n: nat, pageSize: nat)
    requires Filled(before, pages, [pgno] + rest, done, n, pageSize) && 1 <= pgno <= n && forall k :: k in rest ==>
               pgno < k
    requires Painted(pages, pgno, n, pageSize) == Some(after)
    ensures Filled(after, pages, rest, pgno, n, pageSize)
  {
    forall k | k in pages && pgno < k <= n ensures k in rest {
      assert k in [pgno] + rest;
    }
    forall k | k in rest ensures k in pages && k > pgno {
      assert k in [pgno] + rest;
    }
  }

  lemma FilledSkip(before: seq<byte>, pages: Pages, pgno: nat, rest: seq<nat>, done: nat, n: nat, pageSize: nat)
    requires Filled(before, pages, [pgno] + rest, done, n, pageSize) && (pgno == 0 || pgno > n)
    ensures Filled(before, pages, rest, done, n, pageSize)
  {
    forall k | k in pages && done < k <= n ensures k in rest {
      assert k in [pgno] + rest;
    }
    forall k | k in rest ensures k in pages && (k == 0 || k > done) {
      assert k in [pgno] + rest;
    }
  }

  /** Copies one page, unless it lies outside the file; `ok` is false where the copy panics. */
  method FillPage(
    out: array<byte>, pages: Pages, pgno: nat, rest: seq<nat>, ghost done: nat, dbSize: nat, pageSize: nat)
    returns (ok: bool, ghost done': nat)
    requires out.Length == dbSize * pageSize && Filled(out[..], pages, [pgno] + rest, done, dbSize, pageSize)
    requires pgno in pages && forall k :: k in rest ==> pgno < k
    modifies out
    ensures ok ==> Filled(out[..], pages, rest, done', dbSize, pageSize)
    ensures !ok ==> Painted(pages, dbSize, dbSize, pageSize).None?
  {
    ghost var before := out[..];
    if pgno == 0 || pgno > dbSize {
      FilledSkip(before, pages, pgno, rest, done, dbSize, pageSize);
      return true, done;
    }
    assert pgno > done by { assert pgno in [pgno] + rest; }
    NoneBefore(pages, pgno, rest, done);
    PaintNext(before, pages, pgno, done, dbSize, pageSize);
    if (pgno - 1) * pageSize + |pages[pgno]| > dbSize * pageSize {
      PanicStays(pages, pgno, dbSize, dbSize, pageSize);
      return false, done;
    }
    CopyInto(out, (pgno - 1) * pageSize, pages[pgno]);
    FilledNext(before, out[..], pages, pgno, rest, done, dbSize, pageSize);
    return true, pgno;
  }

  method CopyInto(out: array<byte>, start: nat, data: Bytes)
    requires start + |data| <= out.Length
    modifies out
    ensures out[..] == Overwrite(old(out[..]), start, data)
  {
    forall j | 0 <= j < |data| {
      out[start + j] := data[j];
    }
  }

  class LtxBuilder {
    var txidStart: Option<nat>
    var txidEnd: nat
    var pageSize: nat
    var dbSize: nat
    var pages: Pages

    constructor ()
      ensures Value() == EmptyBuilder
    {
      txidStart, txidEnd, pageSize, dbSize, pages := None, 0, 0, 0, map[];
    }

    ghost function Value(): Builder
      reads this
    {
      Builder(txidStart, txidEnd, pageSize, dbSize, pages)
    }

    method Apply(d: Delta)
      modifies this
      ensures Value() == Build(old(Value()), d)
    {
      if txidStart.None? {
        txidStart := Some(d.txid);
      }
      txidEnd, pageSize, dbSize := d.txid, d.pageSize, d.dbSize;
      pages := PutEach(pages, d.pages);
    }

    /** Each page once, in page order; putting them back gives the builder's map. */
    method IntoLtx() returns (l: Ltx)
      requires txidStart.Some?
      ensures l == Seal(Value())
      ensures forall i, j :: 0 <= i < j < |l.pages| ==> l.pages[i].pgno < l.pages[j].pgno
      ensures PutPages(map[], l.pages) == pages
    {
      l := Ltx(txidStart.value, txidEnd, pageSize, dbSize, PageList(pages));
      PageListAscends(pages);
      PutPageList(map[], pages);
      assert map[] + pages == pages;
    }
  }

  lemma {:induction false} ListPagesAt(pages: Pages, keys: seq<nat>)
    requires forall k :: k in keys ==> k in pages
    ensures |ListPages(pages, keys)| == |keys| && forall i :: 0 <= i < |keys| ==>
              ListPages(pages, keys)[i].pgno == keys[i]
  {
    if keys != [] {
      ListPagesAt(pages, keys[..|keys| - 1]);
    }
  }

  lemma PageListAscends(pages: Pages)
    ensures forall i, j :: 0 <= i < j < |PageList(pages)| ==> PageList(pages)[i].pgno < PageList(pages)[j].pgno
  {
    AscendingIncreases(pages.Keys);
    ListPagesAt(pages, Ascending(pages.Keys));
  }

  // ---- batches on the stream ----

  const TXB_CHUNK: nat := 512 * 1024

  function TotalSize(sizeOf: Delta -> nat, deltas: seq<Delta>): nat {
    if deltas == [] then 0 else TotalSize(sizeOf, deltas[..|deltas| - 1]) + sizeOf(deltas[|deltas| - 1])
  }

  /** A batch is one transaction, or several of half a mebibyte together. */
  predicate GoodBatch(sizeOf: Delta -> nat, batch: seq<Delta>) {
    |batch| == 1 || (|batch| > 1 && TotalSize(sizeOf, batch) <= 524_288)
  }

  /** The transaction behind a batch would not have fitted into it. */
  predicate Full(sizeOf: Delta -> nat, batch: seq<Delta>, next: Delta) {
    TotalSize(sizeOf, batch) + sizeOf(next) > 524_288
  }

  /** Good batches, none of them closed before it was full; `next` stands behind the last. */
  predicate Packed(sizeOf: Delta -> nat, events: seq<seq<Delta>>, next: seq<Delta>) {
    events == [] ||
    var n := |events| - 1;
    && GoodBatch(sizeOf, events[n]) && (next != [] ==> Full(sizeOf, events[n], next[0]))
    && Packed(sizeOf, events[..n], events[n])
  }

  /** One more batch is closed, with `next` behind it. */
  lemma PackedSnoc(sizeOf: Delta -> nat, events: seq<seq<Delta>>, batch: seq<Delta>, next: seq<Delta>)
    requires Packed(sizeOf, events, batch) && GoodBatch(sizeOf, batch) && (next != [] ==> Full(sizeOf, batch, next[0]))
    ensures Packed(sizeOf, events + [batch], next)
    ensures Flatten(events + [batch]) == Flatten(events) + batch
  {
    assert (events + [batch])[..|events|] == events;
  }

  /** The packing loop before transaction `i`: the batches closed so far hold the first `start` transactions, and the
      open one the others. */
  predicate Packing(
    sizeOf: Delta -> nat, deltas: seq<Delta>, start: nat, i: nat, events: seq<seq<Delta>>, size: nat)
    requires start <= i <= |deltas|
  {
    && (i > 0 ==> start < i && GoodBatch(sizeOf, deltas[start..i]))
    && size == TotalSize(sizeOf, deltas[start..i])
    && Flatten(events) == deltas[..start] && Packed(sizeOf, events, deltas[start..i])
  }

  lemma PackOne(sizeOf: Delta -> nat, deltas: seq<Delta>, start: nat, i: nat, events: seq<seq<Delta>>, size: nat)
    requires start <= i < |deltas| && Packing(sizeOf, deltas, start, i, events, size)
    requires size + sizeOf(deltas[i]) <= TXB_CHUNK || start == i
    ensures Packing(sizeOf, deltas, start, i + 1, events, size + sizeOf(deltas[i]))
  {
    assert deltas[start..i + 1][..i - start] == deltas[start..i];
  }

  lemma PackClosed(sizeOf: Delta -> nat, deltas: seq<Delta>, start: nat, i: nat, events: seq<seq<Delta>>, size: nat)
    requires start < i < |deltas| && Packing(sizeOf, deltas, start, i, events, size)
    requires size + sizeOf(deltas[i]) > TXB_CHUNK
    ensures Packing(sizeOf, deltas, i, i + 1, events + [deltas[start..i]], sizeOf(deltas[i]))
  {
    PackedSnoc(sizeOf, events, deltas[start..i], [deltas[i]]);
    assert deltas[..start] + deltas[start..i] == deltas[..i];
    assert deltas[i..i + 1] == [deltas[i]] && [deltas[i]][..0] == [];
  }

  /** Packs transactions into events: nothing is lost, reordered or split, no event is empty, none is over half a
      mebibyte unless it is one transaction, and none is closed before it is full. */
  method EncodeDeltas(sizeOf: Delta -> nat, deltas: seq<Delta>) returns (events: seq<seq<Delta>>)
    ensures Flatten(events) == deltas
    ensures Packed(sizeOf, events, [])
  {
    events := [];
    var start: nat, size: nat := 0, 0;
    for i := 0 to |deltas|
      invariant start <= i && Packing(sizeOf, deltas, start, i, events, size)
    {
      var n := sizeOf(deltas[i]);
      if size + n > TXB_CHUNK && start < i {
        PackClosed(sizeOf, deltas, start, i, events, size);
        events := events + [deltas[start..i]];
        start, size := i, 0;
      } else {
        PackOne(sizeOf, deltas, start, i, events, size);
      }
      size := size + n;
    }
    if start < |deltas| {
      assert deltas[start..|deltas|] == deltas[start..];
      PackedSnoc(sizeOf, events, deltas[start..], []);
      events := events + [deltas[start..]];
      assert deltas[..start] + deltas[start..] == deltas;
    }
  }

  // ---- exactly which transactions survive a coalesced checkpoint ----

  /** Applying `d` gives the same file whether or not the pages beyond the database size were dropped first. */
  predicate SurvivesTruncation(img: Image, d: Delta) {
    FileBytes(Apply(Truncated(img), d)) == FileBytes(Apply(img, d))
  }

  lemma {:induction false} PutPagesElsewhere(pages: Pages, frames: seq<Frame>, p: nat)
    requires forall i :: 0 <= i < |frames| ==> frames[i].pgno != p
    ensures Get(PutPages(pages, frames), p) == Get(pages, p)
  {
    if frames != [] {
      PutPagesElsewhere(pages, frames[..|frames| - 1], p);
    }
  }

  /** An image of `size` pages with a leftover page `p` beyond its end. */
  function Leftover(size: nat, pageSize: nat, p: nat): Image {
    Image(pageSize, size, 0, map[p := seq(pageSize, _ => 1)])
  }

  lemma LeftoverResurfaces(size: nat, d: Delta, p: nat)
    requires d.pageSize > 0 && size < p <= d.dbSize && !WritesPage(d, p)
    requires forall i :: 0 <= i < |d.pages| ==> |d.pages[i].data| <= d.pageSize
    ensures !SurvivesTruncation(Leftover(size, d.pageSize, p), d)
  {
    var img := Leftover(size, d.pageSize, p);
    var kept, dropped := Apply(img, d), Apply(Truncated(img), d);
    PutPagesElsewhere(img.pages, d.pages, p);
    PutPagesElsewhere(Truncated(img).pages, d.pages, p);
    PutPagesFits(img.pages, d.pages, d.pageSize);
    PutPagesFits(Truncated(img).pages, d.pages, d.pageSize);
    FileIsLayout(kept);
    FileIsLayout(dropped);
    LayoutAt(kept.pages, d.dbSize, d.pageSize, p);
    LayoutAt(dropped.pages, d.dbSize, d.pageSize, p);
    assert PageAt(kept.pages, p, d.pageSize)[0] == 1;
    assert PageAt(dropped.pages, p, d.pageSize)[0] == 0;
  }

  lemma {:induction false} PutPagesFits(pages: Pages, frames: seq<Frame>, pageSize: nat)
    requires forall p :: p in pages ==> |pages[p]| <= pageSize
    requires forall i :: 0 <= i < |frames| ==> |frames[i].data| <= pageSize
    ensures forall p :: p in PutPages(pages, frames) ==> |PutPages(pages, frames)[p]| <= pageSize
  {
    if frames != [] {
      PutPagesFits(pages, frames[..|frames| - 1], pageSize);
    }
  }

  /** A transaction gives the same file over every image of `size` pages with its leftovers dropped or kept, if and
      only if it writes every page it exposes. */
  lemma SurvivesTruncationIff(size: nat, d: Delta)
    requires d.pageSize > 0 && forall i :: 0 <= i < |d.pages| ==> |d.pages[i].data| <= d.pageSize
    ensures (forall img: Image :: img.dbSize == size ==> SurvivesTruncation(img, d)) <==> WritesExposed(size, d)
  {
    if WritesExposed(size, d) {
      forall img: Image | img.dbSize == size ensures SurvivesTruncation(img, d) {
        TruncatedSameView(img);
        ApplySameView(Truncated(img), img, d);
        SameViewSameFile(Apply(Truncated(img), d), Apply(img, d));
      }
    } else {
      var p :| size < p <= d.dbSize && !WritesPage(d, p);
      LeftoverResurfaces(size, d, p);
      assert Leftover(size, d.pageSize, p).dbSize == size;
    }
  }
}
