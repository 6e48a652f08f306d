/**
 The layout of a write-ahead log file, written down as an encoder (section 4.1, "WAL File Format", of the SQLite
 Database File Format document), and the proof that capture reads back exactly what was encoded.
 */
module WalFormat {
  import opened Prelude
  import opened SqliteTypes
  import opened Wal

  const LIMIT: nat := 0x1_0000_0000

  /** Four bytes, the most significant first. */
  function U32(n: nat): (b: Bytes)
    requires n < LIMIT
    ensures |b| == 4
  {
    [n / 0x100_0000, n / 0x1_0000 % 256, n / 0x100 % 256, n % 256]
  }

  lemma Be32Value(a: byte, b: byte, c: byte, d: byte, behind: Bytes)
    ensures Be32([a, b, c, d] + behind) == ((a * 256 + b) * 256 + c) * 256 + d
  {
    var four := [a, b, c, d];
    assert (four + behind)[..4] == four;
    assert four[..3] == [a, b, c] && [a, b, c][..2] == [a, b] && [a, b][..1] == [a] && [a][..0] == [];
    assert BigEndian([a]) == a;
    assert BigEndian([a, b]) == a * 256 + b;
    assert BigEndian([a, b, c]) == (a * 256 + b) * 256 + c;
    assert BigEndian(four) == ((a * 256 + b) * 256 + c) * 256 + d;
  }

  lemma Digits256(n: nat)
    requires n < LIMIT
    ensures ((n / 0x100_0000 * 256 + n / 0x1_0000 % 256) * 256 + n / 0x100 % 256) * 256 + n % 256 == n
  {
    assert n / 0x1_0000 / 256 == n / 0x100_0000;
    assert n / 0x100 / 256 == n / 0x1_0000;
  }

  /** A number reads back, whatever stands before and behind it. */
  lemma FieldReads(front: Bytes, n: nat, behind: Bytes)
    requires n < LIMIT
    ensures |(front + U32(n) + behind)[|front|..]| >= 4 && Be32((front + U32(n) + behind)[|front|..]) == n
  {
    assert (front + U32(n) + behind)[|front|..] == U32(n) + behind;
    Be32Value(n / 0x100_0000, n / 0x1_0000 % 256, n / 0x100 % 256, n % 256, behind);
    Digits256(n);
  }

  // ---- the header ----

  /** The eight fields of the file header. */
  datatype FileHeader = FileHeader(
    magic: nat, format: nat, pageField: nat, checkpoint: nat, salt1: nat, salt2: nat, sum1: nat, sum2: nat)

  predicate Fits(f: FileHeader) {
    && f.magic < LIMIT && f.format < LIMIT && f.pageField < LIMIT && f.checkpoint < LIMIT
    && f.salt1 < LIMIT && f.salt2 < LIMIT && f.sum1 < LIMIT && f.sum2 < LIMIT
  }

  function EncodeHeader(f: FileHeader): (b: Bytes)
    requires Fits(f)
    ensures |b| == 32
  {
    U32(f.magic) + U32(f.format) + U32(f.pageField) + U32(f.checkpoint) + U32(f.salt1) + U32(f.salt2) + U32(f.sum1)
    + U32(f.sum2)
  }

  /** A number reads back from where it stands in a file. */
  lemma FieldAt(wal: Bytes, front: Bytes, n: nat, behind: Bytes, at: nat)
    requires n < LIMIT && wal == front + U32(n) + behind && at == |front|
    ensures |wal| >= at + 4 && Be32(wal[at..]) == n
  {
    FieldReads(front, n, behind);
  }

  /** A file of eight fields cut around the first, third, fifth and sixth. */
  lemma Regroup(a: Bytes, b: Bytes, c: Bytes, d: Bytes, e: Bytes, g: Bytes, h: Bytes, i: Bytes, behind: Bytes)
    ensures var wal := a + b + c + d + e + g + h + i + behind;
            && wal == [] + a + (b + c + d + e + g + h + i + behind)
            && wal == (a + b) + c + (d + e + g + h + i + behind)
            && wal == (a + b + c + d) + e + (g + h + i + behind)
            && wal == (a + b + c + d + e) + g + (h + i + behind)
  {
  }

  /** Each field where the format has it. */
  lemma HeaderFields(f: FileHeader, wal: Bytes, behind: Bytes)
    requires Fits(f) && wal == EncodeHeader(f) + behind
    ensures |wal| >= 32 && Be32(wal) == f.magic && Be32(wal[8..]) == f.pageField
    ensures Be32(wal[16..]) == f.salt1 && Be32(wal[20..]) == f.salt2
  {
    var a, b, c, d := U32(f.magic), U32(f.format), U32(f.pageField), U32(f.checkpoint);
    var e, g, h, i := U32(f.salt1), U32(f.salt2), U32(f.sum1), U32(f.sum2);
    Regroup(a, b, c, d, e, g, h, i, behind);
    FieldAt(wal, [], f.magic, b + c + d + e + g + h + i + behind, 0);
    assert wal[0..] == wal;
    FieldAt(wal, a + b, f.pageField, d + e + g + h + i + behind, 8);
    FieldAt(wal, a + b + c + d, f.salt1, g + h + i + behind, 16);
    FieldAt(wal, a + b + c + d + e, f.salt2, h + i + behind, 20);
  }

  /** How the format writes a page size: 65536 does not fit in the two bytes the database header has for it, and is 1.
      */
  function PageField(pageSize: nat): nat { if pageSize == 65536 then 1 else pageSize }

  /** A header is read exactly if it has one of the two magic numbers, with its page size and its salts. */
  lemma HeaderReadsBack(f: FileHeader, pageSize: nat, behind: Bytes)
    requires Fits(f) && pageSize != 1 && f.pageField == PageField(pageSize)
    ensures var wal := EncodeHeader(f) + behind;
            ParseHeader(wal)
            == if f.magic == 0x377f0682 || f.magic == 0x377f0683 then Some(Header(pageSize, f.salt1, f.salt2)) else None
  {
    HeaderFields(f, EncodeHeader(f) + behind, behind);
  }

  // ---- frames ----

  /** A frame on disk: the salts of its generation, and two checksums that nobody here looks at. */
  datatype DiskFrame = DiskFrame(frame: RawFrame, salt1: nat, salt2: nat, sum1: nat, sum2: nat)

  predicate FrameFits(f: DiskFrame, pageSize: nat) {
    && f.frame.pgno < LIMIT && f.frame.dbSize < LIMIT && |f.frame.data| == pageSize
    && f.salt1 < LIMIT && f.salt2 < LIMIT && f.sum1 < LIMIT && f.sum2 < LIMIT
  }

  function FrameHeader(f: DiskFrame, pageSize: nat): (b: Bytes)
    requires FrameFits(f, pageSize)
    ensures |b| == 24
  {
    U32(f.frame.pgno) + U32(f.frame.dbSize) + U32(f.salt1) + U32(f.salt2) + U32(f.sum1) + U32(f.sum2)
  }

  function EncodeFrame(f: DiskFrame, pageSize: nat): (b: Bytes)
    requires FrameFits(f, pageSize)
    ensures |b| == 24 + pageSize
  {
    FrameHeader(f, pageSize) + f.frame.data
  }

  lemma FrameFields(f: DiskFrame, pageSize: nat)
    requires FrameFits(f, pageSize)
    ensures var hdr := FrameHeader(f, pageSize);
            Be32(hdr) == f.frame.pgno && Be32(hdr[4..]) == f.frame.dbSize && Be32(hdr[8..]) == f.salt1
              && Be32(hdr[12..]) == f.salt2
  {
    var hdr := FrameHeader(f, pageSize);
    var a, b, c, d, e, g := U32(f.frame.pgno), U32(f.frame.dbSize), U32(f.salt1), U32(f.salt2), U32(f.sum1),
      U32(f.sum2);
    FieldReads([], f.frame.pgno, b + c + d + e + g);
    assert hdr == [] + a + (b + c + d + e + g) && hdr[0..] == hdr;
    FieldReads(a, f.frame.dbSize, c + d + e + g);
    assert hdr == a + b + (c + d + e + g);
    FieldReads(a + b, f.salt1, d + e + g);
    assert hdr == (a + b) + c + (d + e + g);
    FieldReads(a + b + c, f.salt2, e + g);
    assert hdr == (a + b + c) + d + (e + g);
  }

  /** A frame begins here exactly if it is one of this generation, and then it is read back. */
  lemma FrameReadsBack(f: DiskFrame, h: Header, behind: Bytes)
    requires FrameFits(f, h.pageSize)
    ensures var body := EncodeFrame(f, h.pageSize) + behind;
            && (StartsFrame(body, h) <==> f.salt1 == h.salt1 && f.salt2 == h.salt2)
            && (StartsFrame(body, h) ==> FirstFrame(body, h) == f.frame)
            && body[FrameLen(h)..] == behind
  {
    var hdr, body := FrameHeader(f, h.pageSize), EncodeFrame(f, h.pageSize) + behind;
    assert body == hdr + (f.frame.data + behind);
    assert body[..24] == hdr;
    assert body[24..FrameLen(h)] == f.frame.data;
    FrameFields(f, h.pageSize);
  }

  predicate AllFit(frames: seq<DiskFrame>, h: Header) {
    forall i :: 0 <= i < |frames| ==>
      FrameFits(frames[i], h.pageSize) && frames[i].salt1 == h.salt1 && frames[i].salt2 == h.salt2
  }

  function EncodeFrames(frames: seq<DiskFrame>, h: Header): Bytes
    requires AllFit(frames, h)
  {
    if frames == [] then [] else EncodeFrame(frames[0], h.pageSize) + EncodeFrames(frames[1..], h)
  }

  function Raw(frames: seq<DiskFrame>): (r: seq<RawFrame>)
    ensures |r| == |frames| && forall i :: 0 <= i < |r| ==> r[i] == frames[i].frame
  {
    seq(|frames|, i requires 0 <= i < |frames| => frames[i].frame)
  }

  lemma {:induction false} FramesReadBack(frames: seq<DiskFrame>, h: Header, behind: Bytes)
    requires AllFit(frames, h) && !StartsFrame(behind, h)
    ensures Frames(EncodeFrames(frames, h) + behind, h) == Raw(frames)
  {
    if frames == [] {
      assert EncodeFrames(frames, h) + behind == behind;
    } else {
      var rest := EncodeFrames(frames[1..], h) + behind;
      assert EncodeFrames(frames, h) + behind == EncodeFrame(frames[0], h.pageSize) + rest;
      FrameReadsBack(frames[0], h, rest);
      FramesReadBack(frames[1..], h, behind);
      assert Raw(frames) == [frames[0].frame] + Raw(frames[1..]);
    }
  }

  /** What may follow the frames of a generation: less than a frame, or a frame of another generation and anything
      behind it. */
  ghost predicate Leftover(behind: Bytes, h: Header) {
    || |behind| < 24 + h.pageSize
    || exists f: DiskFrame, more: Bytes ::
         && FrameFits(f, h.pageSize) && (f.salt1, f.salt2) != (h.salt1, h.salt2)
         && behind == EncodeFrame(f, h.pageSize) + more
  }

  lemma LeftoverStartsNone(behind: Bytes, h: Header)
    requires Leftover(behind, h)
    ensures !StartsFrame(behind, h)
  {
    if |behind| >= 24 + h.pageSize {
      var f: DiskFrame, more: Bytes :| && FrameFits(f, h.pageSize) && (f.salt1, f.salt2) != (h.salt1, h.salt2)
                                       && behind == EncodeFrame(f, h.pageSize) + more;
      FrameReadsBack(f, h, more);
    }
  }

  function EncodeFile(f: FileHeader, frames: seq<DiskFrame>, h: Header, behind: Bytes): Bytes
    requires Fits(f) && AllFit(frames, h)
  {
    EncodeHeader(f) + (EncodeFrames(frames, h) + behind)
  }

  /** The file reads back: the header, and exactly the frames of its generation. */
  lemma FileReadsBack(f: FileHeader, frames: seq<DiskFrame>, h: Header, behind: Bytes)
    requires Fits(f) && (f.magic == 0x377f0682 || f.magic == 0x377f0683) && h.pageSize != 1
    requires f.pageField == PageField(h.pageSize) && f.salt1 == h.salt1 && f.salt2 == h.salt2
    requires AllFit(frames, h) && Leftover(behind, h)
    ensures ParseHeader(EncodeFile(f, frames, h, behind)) == Some(h)
    ensures FileFrames(EncodeFile(f, frames, h, behind), h) == Raw(frames)
  {
    var body := EncodeFrames(frames, h) + behind;
    HeaderReadsBack(f, h.pageSize, body);
    LeftoverStartsNone(behind, h);
    FramesReadBack(frames, h, behind);
    assert (EncodeHeader(f) + body)[HEADER_LEN..] == body;
  }

  // ---- transactions ----

  /** A transaction as the database wrote it: its pages in order, and the size of the database afterwards. */
  datatype Tx = Tx(pages: seq<Frame>, dbSize: nat)

  predicate IsTx(t: Tx) { t.pages != [] && t.dbSize > 0 }

  /** Its frames: the size stands in the last one, the others have zero there. */
  function TxFrames(t: Tx): (r: seq<RawFrame>)
    ensures |r| == |t.pages|
    ensures forall i :: 0 <= i < |r| ==>
              r[i] == RawFrame(t.pages[i].pgno, if i == |r| - 1 then t.dbSize else 0, t.pages[i].data)
  {
    seq(|t.pages|, i requires 0 <= i < |t.pages| =>
      RawFrame(t.pages[i].pgno, if i == |t.pages| - 1 then t.dbSize else 0, t.pages[i].data))
  }

  function LogFrames(txs: seq<Tx>): seq<RawFrame> {
    if txs == [] then [] else LogFrames(txs[..|txs| - 1]) + TxFrames(txs[|txs| - 1])
  }

  /** The frames of a transaction that has not committed. */
  function OpenFrames(pages: seq<Frame>): (r: seq<RawFrame>)
    ensures |r| == |pages| && forall i :: 0 <= i < |r| ==> r[i] == RawFrame(pages[i].pgno, 0, pages[i].data)
  {
    seq(|pages|, i requires 0 <= i < |pages| => RawFrame(pages[i].pgno, 0, pages[i].data))
  }

  /** The deltas that stand for the transactions, numbered onwards. */
  function DeltasOf(txs: seq<Tx>, pageSize: nat, txid: nat): (r: seq<Delta>)
    ensures |r| == |txs|
    ensures forall i :: 0 <= i < |r| ==> r[i] == Delta(txid + 1 + i, pageSize, txs[i].dbSize, txs[i].pages)
  {
    seq(|txs|, i requires 0 <= i < |txs| => Delta(txid + 1 + i, pageSize, txs[i].dbSize, txs[i].pages))
  }

  /** Frames without a commit only collect pages. */
  lemma {:induction false} OpenParses(pages: seq<Frame>, pageSize: nat, txid: nat)
    ensures ParseFrames(OpenFrames(pages), pageSize, txid) == Parse([], pages)
  {
    if pages != [] {
      var n := |pages| - 1;
      assert OpenFrames(pages)[..n] == OpenFrames(pages[..n]);
      OpenParses(pages[..n], pageSize, txid);
      assert pages == pages[..n] + [pages[n]];
    }
  }

  lemma TxParses(t: Tx, pageSize: nat, txid: nat)
    requires IsTx(t)
    ensures ParseFrames(TxFrames(t), pageSize, txid) == Parse([Delta(txid + 1, pageSize, t.dbSize, t.pages)], [])
    ensures Committed(TxFrames(t)) == |t.pages|
  {
    var n := |t.pages| - 1;
    assert TxFrames(t)[..n] == OpenFrames(t.pages[..n]);
    OpenParses(t.pages[..n], pageSize, txid);
    assert t.pages == t.pages[..n] + [t.pages[n]];
  }

  lemma {:induction false} LogParses(txs: seq<Tx>, pageSize: nat, txid: nat)
    requires forall i :: 0 <= i < |txs| ==> IsTx(txs[i])
    ensures ParseFrames(LogFrames(txs), pageSize, txid) == Parse(DeltasOf(txs, pageSize, txid), [])
    ensures Committed(LogFrames(txs)) == |LogFrames(txs)|
  {
    if txs != [] {
      var n := |txs| - 1;
      LogParses(txs[..n], pageSize, txid);
      LogNext(LogFrames(txs[..n]), DeltasOf(txs[..n], pageSize, txid), txs[n], pageSize, txid);
      DeltasOfNext(txs, pageSize, txid);
    }
  }

  lemma DeltasOfNext(txs: seq<Tx>, pageSize: nat, txid: nat)
    requires txs != []
    ensures var n := |txs| - 1;
            DeltasOf(txs, pageSize, txid)
            == DeltasOf(txs[..n], pageSize, txid) + [Delta(txid + 1 + n, pageSize, txs[n].dbSize, txs[n].pages)]
  {
  }

  /** One more transaction. */
  lemma LogNext(front: seq<RawFrame>, deltas: seq<Delta>, t: Tx, pageSize: nat, txid: nat)
    requires ParseFrames(front, pageSize, txid) == Parse(deltas, []) && Committed(front) == |front| && IsTx(t)
    ensures var frames := front + TxFrames(t);
            && ParseFrames(frames, pageSize, txid)
               == Parse(deltas + [Delta(txid + 1 + |deltas|, pageSize, t.dbSize, t.pages)], [])
            && Committed(frames) == |frames|
  {
    var frames := front + TxFrames(t);
    TxParses(t, pageSize, txid + |deltas|);
    ParseConcat(front, TxFrames(t), pageSize, txid);
    assert frames[|frames| - 1] == TxFrames(t)[|t.pages| - 1];
  }

  /** A log parses to its transactions, each with its own pages and size, whatever uncommitted frames follow. */
  lemma LogReadsBack(txs: seq<Tx>, open: seq<Frame>, pageSize: nat, txid: nat)
    requires forall i :: 0 <= i < |txs| ==> IsTx(txs[i])
    ensures Deltas(LogFrames(txs) + OpenFrames(open), pageSize, txid) == DeltasOf(txs, pageSize, txid)
    ensures Committed(LogFrames(txs) + OpenFrames(open)) == |LogFrames(txs)|
  {
    var front, back := LogFrames(txs), OpenFrames(open);
    LogParses(txs, pageSize, txid);
    OpenParses(open, pageSize, txid + |txs|);
    ParseConcat(front, back, pageSize, txid);
    OpenIsUncommitted(front + back, pageSize, txid);
  }

  /** Capture reads back the file: from its beginning, exactly the committed transactions, and the cursor behind them.
      */
  method CaptureReadsBack(
    f: FileHeader, frames: seq<DiskFrame>, h: Header, behind: Bytes, ghost txs: seq<Tx>, ghost open: seq<Frame>,
    cursor: Cursor, txid: nat)
    returns (deltas: seq<Delta>, next: nat)
    requires Fits(f) && (f.magic == 0x377f0682 || f.magic == 0x377f0683) && h.pageSize != 1
    requires f.pageField == PageField(h.pageSize) && f.salt1 == h.salt1 && f.salt2 == h.salt2
    requires AllFit(frames, h) && Leftover(behind, h)
    requires Raw(frames) == LogFrames(txs) + OpenFrames(open) && forall i :: 0 <= i < |txs| ==> IsTx(txs[i])
    requires (cursor.salt1, cursor.salt2) != (h.salt1, h.salt2) || cursor.frame == 0
    ensures deltas == DeltasOf(txs, h.pageSize, txid) && next == |LogFrames(txs)|
  {
    FileReadsBack(f, frames, h, behind);
    LogReadsBack(txs, open, h.pageSize, txid);
    var rebased;
    deltas, rebased, next := Capture(EncodeFile(f, frames, h, behind), cursor, txid);
    assert Raw(frames)[0..] == Raw(frames);
  }
}
