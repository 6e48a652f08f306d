/**
 Capturing committed transactions from a write-ahead log: the file is a 32-byte header followed by frames of a
 24-byte frame header and one page (section 4.1, "WAL File Format", of the SQLite Database File Format document).
 */
module Wal {
  import opened Prelude
  import opened SqliteTypes

  const HEADER_LEN: nat := 32
  const FRAME_HEADER_LEN: nat := 24

  datatype Header = Header(pageSize: nat, salt1: nat, salt2: nat)

  /** A frame as stored; a non-zero `dbSize` marks the commit of a transaction. */
  datatype RawFrame = RawFrame(pgno: nat, dbSize: nat, data: Bytes)

  /** The number a big-endian byte string stands for. */
  function BigEndian(b: Bytes): nat {
    if b == [] then 0 else BigEndian(b[..|b| - 1]) * 256 + b[|b| - 1]
  }

  function Be32(b: Bytes): nat
    requires |b| >= 4
  {
    BigEndian(b[..4])
  }

  function ParseHeader(wal: Bytes): Option<Header> {
    if |wal| < HEADER_LEN then None
    else if Be32(wal) != 0x377f0682 && Be32(wal) != 0x377f0683 then None
    else
      var size := Be32(wal[8..]);
      Some(Header(if size == 1 then 65536 else size, Be32(wal[16..]), Be32(wal[20..])))
  }

  function FrameLen(h: Header): nat { FRAME_HEADER_LEN + h.pageSize }

  function Offset(h: Header, index: nat): nat { HEADER_LEN + index * FrameLen(h) }

  predicate SaltsMatch(hdr: Bytes, h: Header)
    requires |hdr| >= FRAME_HEADER_LEN
  {
    Be32(hdr[8..]) == h.salt1 && Be32(hdr[12..]) == h.salt2
  }

  /** Frame `index` of a file: `None` past its end or at a frame left over from another generation. */
  function FrameAt(wal: Bytes, h: Header, index: nat): Option<RawFrame> {
    FrameAtOffset(wal, h, Offset(h, index))
  }

  function FrameAtOffset(wal: Bytes, h: Header, off: nat): Option<RawFrame> {
    if |wal| < off + FRAME_HEADER_LEN then None
    else
      var hdr := wal[off..off + FRAME_HEADER_LEN];
      if !SaltsMatch(hdr, h) then None
      else if |wal| < off + FrameLen(h) then None
      else Some(RawFrame(Be32(hdr), Be32(hdr[4..]), wal[off + FRAME_HEADER_LEN..off + FrameLen(h)]))
  }

  // ---- a file as a sequence of frames ----

  predicate StartsFrame(body: Bytes, h: Header) {
    |body| >= FrameLen(h) && SaltsMatch(body[..FRAME_HEADER_LEN], h)
  }

  function FirstFrame(body: Bytes, h: Header): RawFrame
    requires StartsFrame(body, h)
  {
    RawFrame(Be32(body[..FRAME_HEADER_LEN]), Be32(body[..FRAME_HEADER_LEN][4..]), body[FRAME_HEADER_LEN..FrameLen(h)])
  }

  /** The valid frames of the bytes behind the header: the longest run of whole, current frames. */
  function Frames(body: Bytes, h: Header): seq<RawFrame>
    decreases |body|
  {
    if !StartsFrame(body, h) then [] else [FirstFrame(body, h)] + Frames(body[FrameLen(h)..], h)
  }

  function FileFrames(wal: Bytes, h: Header): seq<RawFrame> {
    if |wal| < HEADER_LEN then [] else Frames(wal[HEADER_LEN..], h)
  }

  lemma DropTwice(body: Bytes, a: nat, b: nat)
    requires a <= |body| && b <= |body[a..]|
    ensures body[a..][b..] == body[a + b..]
  {
  }

  lemma FramesDropStep(body: Bytes, h: Header, off: nat, i: nat)
    requires 0 < i <= |Frames(body, h)|
    requires off <= |body[FrameLen(h)..]|
             && Frames(body[FrameLen(h)..][off..], h) == Frames(body[FrameLen(h)..], h)[i - 1..]
    ensures FrameLen(h) + off <= |body| && Frames(body[FrameLen(h) + off..], h) == Frames(body, h)[i..]
  {
    DropTwice(body, FrameLen(h), off);
    assert Frames(body, h)[i..] == Frames(body[FrameLen(h)..], h)[i - 1..];
  }

  lemma {:induction false} FramesDrop(body: Bytes, h: Header, i: nat)
    requires i <= |Frames(body, h)|
    ensures i * FrameLen(h) <= |body|
    ensures Frames(body[i * FrameLen(h)..], h) == Frames(body, h)[i..]
  {
    var fl := FrameLen(h);
    if i == 0 {
      assert body[0..] == body;
    } else {
      FramesDrop(body[fl..], h, i - 1);
      FramesDropStep(body, h, (i - 1) * fl, i);
      assert i * fl == fl + (i - 1) * fl;
    }
  }

  /** Indexing into the file finds exactly the frames of the run, then `None`. */
  lemma {:induction false} FrameAtIsNth(wal: Bytes, h: Header, i: nat)
    requires |wal| >= HEADER_LEN && i <= |FileFrames(wal, h)|
    ensures FrameAt(wal, h, i) == if i < |FileFrames(wal, h)| then Some(FileFrames(wal, h)[i]) else None
  {
    var at := Offset(h, i);
    assert at <= |wal| && Frames(wal[at..], h) == FileFrames(wal, h)[i..] by {
      FramesDrop(wal[HEADER_LEN..], h, i);
      DropTwice(wal, HEADER_LEN, i * FrameLen(h));
    }
    FrameAtRest(wal, h, at);
    FirstOfRest(wal[at..], h, FileFrames(wal, h), i);
  }

  /** A frame is read from the bytes at its offset. */
  lemma FrameAtRest(wal: Bytes, h: Header, at: nat)
    requires at <= |wal|
    ensures var rest := wal[at..];
            FrameAtOffset(wal, h, at) == if StartsFrame(rest, h) then Some(FirstFrame(rest, h)) else None
  {
    var rest := wal[at..];
    if |wal| >= at + FRAME_HEADER_LEN {
      assert wal[at..at + FRAME_HEADER_LEN] == rest[..FRAME_HEADER_LEN];
    }
    if |wal| >= at + FrameLen(h) {
      assert wal[at + FRAME_HEADER_LEN..at + FrameLen(h)] == rest[FRAME_HEADER_LEN..FrameLen(h)];
    }
  }

  lemma FirstOfRest(rest: Bytes, h: Header, frames: seq<RawFrame>, i: nat)
    requires i <= |frames| && Frames(rest, h) == frames[i..]
    ensures StartsFrame(rest, h) <==> i < |frames|
    ensures StartsFrame(rest, h) ==> FirstFrame(rest, h) == frames[i]
  {
    if StartsFrame(rest, h) {
      assert Frames(rest, h)[0] == FirstFrame(rest, h);
    }
  }

  /** What a reader that seeks past `base` frames holds in memory: the header and the rest of the file. */
  function TailBuffer(wal: Bytes, h: Header, base: nat): Bytes
    requires |wal| >= HEADER_LEN
  {
    wal[..HEADER_LEN] + if Offset(h, base) <= |wal| then wal[Offset(h, base)..] else []
  }

  lemma ShiftedOffset(wal: Bytes, buf: Bytes, h: Header, shift: nat, off: nat)
    requires HEADER_LEN + shift <= |wal| && buf == wal[..HEADER_LEN] + wal[HEADER_LEN + shift..]
    requires off >= HEADER_LEN
    ensures FrameAtOffset(buf, h, off) == FrameAtOffset(wal, h, off + shift)
  {
    if |buf| >= off + FRAME_HEADER_LEN {
      assert buf[off..off + FRAME_HEADER_LEN] == wal[off + shift..off + shift + FRAME_HEADER_LEN];
      if |buf| >= off + FrameLen(h) {
        assert buf[off + FRAME_HEADER_LEN..off + FrameLen(h)]
               == wal[off + shift + FRAME_HEADER_LEN..off + shift + FrameLen(h)];
      }
    }
  }

  /** The tail-only buffer with shifted indices yields the same frames as the whole file. */
  lemma ShiftedFrame(wal: Bytes, h: Header, base: nat, k: nat)
    requires |wal| >= HEADER_LEN
    ensures FrameAt(TailBuffer(wal, h, base), h, k) == FrameAt(wal, h, base + k)
  {
    var shift := base * FrameLen(h);
    assert (base + k) * FrameLen(h) == shift + k * FrameLen(h);
    assert Offset(h, base + k) == Offset(h, k) + shift && Offset(h, base) == HEADER_LEN + shift;
    if Offset(h, base) <= |wal| {
      ShiftedOffset(wal, TailBuffer(wal, h, base), h, shift, Offset(h, k));
    }
  }

  // ---- transactions ----

  /** A parse in progress: the transactions completed, and the frames of the one still open. */
  datatype Parse = Parse(deltas: seq<Delta>, open: seq<Frame>)

  function ParseFrames(frames: seq<RawFrame>, pageSize: nat, txid: nat): (p: Parse)
    ensures |p.open| <= |frames|
  {
    if frames == [] then Parse([], [])
    else
      var p := ParseFrames(frames[..|frames| - 1], pageSize, txid);
      var f := frames[|frames| - 1];
      var open := p.open + [Frame(f.pgno, f.data)];
      if f.dbSize != 0
      then Parse(p.deltas + [Delta(txid + |p.deltas| + 1, pageSize, f.dbSize, open)], [])
      else Parse(p.deltas, open)
  }

  function Deltas(frames: seq<RawFrame>, pageSize: nat, txid: nat): seq<Delta> {
    ParseFrames(frames, pageSize, txid).deltas
  }

  /** The number of frames up to and including the last commit frame. */
  function Committed(frames: seq<RawFrame>): (n: nat)
    ensures n <= |frames|
  {
    if frames == [] then 0
    else if frames[|frames| - 1].dbSize != 0 then |frames|
    else Committed(frames[..|frames| - 1])
  }

  /** One more frame. */
  lemma ParseNext(frames: seq<RawFrame>, i: nat, pageSize: nat, txid: nat)
    requires i < |frames|
    ensures var p, f := ParseFrames(frames[..i], pageSize, txid), frames[i];
            var open := p.open + [Frame(f.pgno, f.data)];
            ParseFrames(frames[..i + 1], pageSize, txid)
            == if f.dbSize != 0
               then Parse(p.deltas + [Delta(txid + |p.deltas| + 1, pageSize, f.dbSize, open)], [])
               else Parse(p.deltas, open)
  {
    assert frames[..i + 1][..i] == frames[..i];
  }

  lemma {:induction false} OpenIsUncommitted(frames: seq<RawFrame>, pageSize: nat, txid: nat)
    ensures Committed(frames) == |frames| - |ParseFrames(frames, pageSize, txid).open|
  {
    if frames != [] {
      OpenIsUncommitted(frames[..|frames| - 1], pageSize, txid);
    }
  }

  lemma {:induction false} CommittedPrefix(frames: seq<RawFrame>)
    ensures Committed(frames) <= |frames|
    ensures Committed(frames[..Committed(frames)]) == Committed(frames)
    ensures Committed(frames) > 0 ==> frames[Committed(frames) - 1].dbSize != 0
    ensures forall i :: Committed(frames) <= i < |frames| ==> frames[i].dbSize == 0
  {
    if frames == [] || frames[|frames| - 1].dbSize != 0 {
      assert frames[..|frames|] == frames;
    } else {
      CommittedPrefix(frames[..|frames| - 1]);
      assert frames[..|frames| - 1][..Committed(frames)] == frames[..Committed(frames)];
    }
  }

  /** Parsing resumes at a commit boundary exactly where a parse of the whole would be. */
  lemma {:induction false} ParseConcat(a: seq<RawFrame>, b: seq<RawFrame>, pageSize: nat, txid: nat)
    requires Committed(a) == |a|
    ensures var pa := ParseFrames(a, pageSize, txid);
            var pb := ParseFrames(b, pageSize, txid + |pa.deltas|);
            ParseFrames(a + b, pageSize, txid) == Parse(pa.deltas + pb.deltas, pb.open)
    decreases |b|
  {
    OpenIsUncommitted(a, pageSize, txid);
    if b == [] {
      assert a + b == a;
    } else {
      var n := |b| - 1;
      assert (a + b)[..|a + b| - 1] == a + b[..n];
      ParseConcat(a, b[..n], pageSize, txid);
    }
  }

  /** Frames behind the last commit add no transaction. */
  lemma {:induction false} UncommittedTail(frames: seq<RawFrame>, pageSize: nat, txid: nat)
    ensures Deltas(frames, pageSize, txid) == Deltas(frames[..Committed(frames)], pageSize, txid)
  {
    if frames == [] || frames[|frames| - 1].dbSize != 0 {
      assert frames[..|frames|] == frames;
    } else {
      UncommittedTail(frames[..|frames| - 1], pageSize, txid);
      CommittedPrefix(frames[..|frames| - 1]);
      assert frames[..|frames| - 1][..Committed(frames)] == frames[..Committed(frames)];
    }
  }

  // ---- capture ----

  /** Read position: the generation's salts and the next frame to read. */
  datatype Cursor = Cursor(salt1: nat, salt2: nat, frame: nat)

  /** The frame loop over an in-memory buffer whose first frame is frame `base` of the file. */
  method ReadCommitted(buf: Bytes, h: Header, base: nat, txid: nat) returns (deltas: seq<Delta>, next: nat)
    requires |buf| >= HEADER_LEN
    ensures deltas == Deltas(FileFrames(buf, h), h.pageSize, txid)
    ensures next == base + Committed(FileFrames(buf, h))
  {
    ghost var frames := FileFrames(buf, h);
    deltas := [];
    var open: seq<Frame> := [];
    var idx := base;
    var id := txid;
    ghost var i := 0;
    while true
      invariant i <= |frames| && idx == base + i
      invariant Parse(deltas, open) == ParseFrames(frames[..i], h.pageSize, txid)
      invariant id == txid + |deltas|
      decreases |frames| - i
    {
      FrameAtIsNth(buf, h, i);
      var f := FrameAt(buf, h, idx - base);
      if f.None? {
        break;
      }
      ParseNext(frames, i, h.pageSize, txid);
      i := i + 1;
      open := open + [Frame(f.value.pgno, f.value.data)];
      idx := idx + 1;
      if f.value.dbSize != 0 {
        id := id + 1;
        deltas := deltas + [Delta(id, h.pageSize, f.value.dbSize, open)];
        open := [];
      }
    }
    assert i == |frames| && frames[..i] == frames;
    OpenIsUncommitted(frames, h.pageSize, txid);
    next := idx - |open|;
  }

  /** The cursor a sync works from: one of another generation starts over. */
  function Rebase(c: Cursor, h: Header): Cursor {
    if (h.salt1, h.salt2) != (c.salt1, c.salt2) then Cursor(h.salt1, h.salt2, 0) else c
  }

  /** The capture half of a sync over the current file: the new transactions and the cursor to adopt once they
      are durable. A file without a header yields nothing. */
  method Capture(wal: Bytes, cursor: Cursor, txid: nat) returns (deltas: seq<Delta>, rebased: Cursor, next: nat)
    ensures ParseHeader(wal).None? ==> deltas == [] && rebased == cursor && next == cursor.frame
    ensures ParseHeader(wal).Some? ==>
              var h := ParseHeader(wal).value;
              && rebased == Rebase(cursor, h)
              && (rebased.frame <= |FileFrames(wal, h)| ==>
                    var rest := FileFrames(wal, h)[rebased.frame..];
                    deltas == Deltas(rest, h.pageSize, txid) && next == rebased.frame + Committed(rest))
  {
    rebased := cursor;
    if |wal| < HEADER_LEN {
      return [], cursor, cursor.frame;
    }
    var parsed := ParseHeader(wal[..HEADER_LEN]);
    HeaderIsLocal(wal);
    if parsed.None? {
      return [], cursor, cursor.frame;
    }
    var h := parsed.value;
    if (h.salt1, h.salt2) != (rebased.salt1, rebased.salt2) {
      rebased := Cursor(h.salt1, h.salt2, 0);
    }
    var base := rebased.frame;
    var buf := TailBuffer(wal, h, base);
    deltas, next := ReadCommitted(buf, h, base, txid);
    if base <= |FileFrames(wal, h)| {
      BufferFrames(wal, h, base);
    }
  }

  lemma HeaderIsLocal(wal: Bytes)
    requires |wal| >= HEADER_LEN
    ensures ParseHeader(wal[..HEADER_LEN]) == ParseHeader(wal)
  {
    assert wal[..HEADER_LEN][..4] == wal[..4];
    assert wal[..HEADER_LEN][8..][..4] == wal[8..][..4];
    assert wal[..HEADER_LEN][16..][..4] == wal[16..][..4];
    assert wal[..HEADER_LEN][20..][..4] == wal[20..][..4];
  }

  lemma BufferFrames(wal: Bytes, h: Header, base: nat)
    requires |wal| >= HEADER_LEN && base <= |FileFrames(wal, h)|
    ensures FileFrames(TailBuffer(wal, h, base), h) == FileFrames(wal, h)[base..]
  {
    FramesDrop(wal[HEADER_LEN..], h, base);
    var buf := TailBuffer(wal, h, base);
    assert buf[HEADER_LEN..] == wal[HEADER_LEN..][base * FrameLen(h)..];
  }
}
