/**
 A run in which two handles race and a purge makes the loss permanent. The second handle restores before the first
 one's last sync and checkpoint, fences it out, and then publishes its own builder on top of the first one's newer
 manifest: an image that no prefix of the stream replays to. As long as the events behind it are there, folding them
 repairs it.
 */
module SqliteTorn {
  import opened Prelude
  import opened SqliteTypes
  import opened SqliteImage
  import opened SqliteLoss
  import opened SqliteFence
  import SqliteFailure

  function Tx1(ps: nat, a: Bytes, b: Bytes): Delta { Delta(1, ps, 2, [Frame(1, a), Frame(2, b)]) }
  function Tx2(ps: nat, c: Bytes): Delta { Delta(2, ps, 2, [Frame(2, c)]) }
  function Tx3(ps: nat, x: Bytes, y: Bytes): Delta { Delta(3, ps, 2, [Frame(1, x), Frame(2, y)]) }

  lemma Go(ops: seq<Op>, s: System, op: Op) returns (ops': seq<Op>, s': System)
    requires Run(ops, false) == Some(s) && Feasible(s, op)
    ensures Run(ops', false) == Some(s') && s' == Step(s, op)
  {
    ops' := ops + [op];
    assert ops'[..|ops|] == ops;
    s' := Step(s, op);
  }

  /** The first handle opens an empty database. */
  lemma FirstOpens() returns (ops: seq<Op>, s: System)
    ensures Run(ops, false) == Some(s)
    ensures s == System([], 0, Some(1), None, map[1 := Open(Session(Position(Empty, 0), 0, EmptyBuilder, None))])
  {
    assert Run([], false) == Some(Initial);
    var o1, s1 := Go([], Initial, StartOpen(1));
    var o2, s2 := Go(o1, s1, Fence(1));
    var o3, s3 := Go(o2, s2, ReadSnapshot(1));
    var o4, s4 := Go(o3, s3, FoldBacklog(1));
    ops, s := Go(o4, s4, FinishOpen(1));
    BetweenNone(Initial.stream, 0);
  }

  /** The only open handle syncs one transaction. */
  lemma SyncOne(ops: seq<Op>, s: System, x: Session, d: Delta) returns (ops': seq<Op>, s': System)
    requires Run(ops, false) == Some(s) && 1 in s.handles && s.handles[1] == Open(x) && s.fence == Some(1)
    requires x.read.None? && x.at.count == |s.stream| && x.at.image.txid < d.txid && WritesExposed(x.at.image.dbSize, d)
    ensures Run(ops', false) == Some(s')
    ensures s' == s.(stream := s.stream + [[d]],
                     handles := s.handles[1 :=
                                          Open(Session(Position(Apply(x.at.image, d), |s.stream| + 1), x.base,
                                                       Build(x.pending, d), None))])
  {
    SqliteFailure.OneDelta(x.at.image, x.pending, d);
    ops', s' := Go(ops, s, Sync(1, [d], [[d]]));
  }

  /** A handle checkpoints: its builder goes on top of the latest snapshot. */
  lemma CheckpointOne(
    ops: seq<Op>, s: System, h: nat, x: Session, since: seq<Delta>) returns (ops': seq<Op>, s': System)
    requires Run(ops, false) == Some(s) && h in s.handles && s.handles[h] == Open(x) && x.read.None?
    requires since != [] && x.pending == BuildAll(since)
    ensures Run(ops', false) == Some(s')
    ensures s' == s.(snapshot := Some(Position(ApplyAll(Latest(s).image, since), x.at.count)),
                     handles := s.handles[h := Open(Session(x.at, x.at.count, EmptyBuilder, None))])
  {
    SealMerges(Latest(s).image, since);
    var image := ApplyAll(Latest(s).image, since);
    SameViewReflexive(image);
    var o1, s1 := Go(ops, s, ReadManifest(h));
    ops', s' := Go(o1, s1, Publish(h, image, true));
    assert s1.handles[h := s'.handles[h]] == s.handles[h := s'.handles[h]];
  }

  /** Transaction 1 synced and checkpointed, transaction 2 synced. */
  lemma FirstTwo(d1: Delta, d2: Delta) returns (ops: seq<Op>, s: System)
    requires 0 < d1.txid < d2.txid && WritesExposed(0, d1) && WritesExposed(d1.dbSize, d2)
    ensures Run(ops, false) == Some(s)
    ensures var i1 := Apply(Empty, d1);
            s == System([[d1]] + [[d2]], 0, Some(1), Some(Position(i1, 1)),
                        map[1 := Open(Session(Position(Apply(i1, d2), 2), 1, Build(EmptyBuilder, d2), None))])
  {
    var o1, s1 := FirstOpens();
    var o2, s2 := SyncOne(o1, s1, s1.handles[1].session, d1);
    assert [] + [[d1]] == [[d1]];
    SqliteFailure.OneDelta(Empty, EmptyBuilder, d1);
    var o3, s3 := CheckpointOne(o2, s2, 1, s2.handles[1].session, [d1]);
    ops, s := SyncOne(o3, s3, s3.handles[1].session, d2);
  }

  /** The second handle restores while the first still holds the fence. */
  lemma SecondRestores(ops: seq<Op>, s: System, d1: Delta, d2: Delta) returns (ops': seq<Op>, s': System)
    requires Run(ops, false) == Some(s) && s.stream == [[d1]] + [[d2]] && s.floor == 0 && 2 !in s.handles
    requires s.snapshot.Some? && s.snapshot.value.count == 1
    ensures Run(ops', false) == Some(s')
    ensures var base := s.snapshot.value;
            s' == s.(handles := s.handles[2 := Opening(false, Some(base),
                       Some(Session(Position(Apply(base.image, d2), 2), 1, Build(EmptyBuilder, d2), None)))])
  {
    var base := s.snapshot.value;
    var o1, s1 := Go(ops, s, StartOpen(2));
    var o2, s2 := Go(o1, s1, ReadSnapshot(2));
    ops', s' := Go(o2, s2, FoldBacklog(2));
    assert s2.stream[1..2] == [[d2]];
    SqliteFailure.OneDelta(base.image, EmptyBuilder, d2);
    assert s'.handles == s.handles[2 := s'.handles[2]];
  }

  /** The first handle syncs transaction 3, checkpoints and purges what it sealed. */
  lemma FirstPurges(
    ops: seq<Op>, s: System, x: Session, m: Image, d2: Delta, d3: Delta) returns (ops': seq<Op>, s': System)
    requires Run(ops, false) == Some(s) && |s.stream| == 2 && s.fence == Some(1) && s.floor == 0
             && s.snapshot == Some(Position(m, 1))
    requires 1 in s.handles && s.handles[1] == Open(x) && x.read.None? && x.at.count == 2
             && x.pending == Build(EmptyBuilder, d2)
    requires x.at.image.txid < d3.txid && WritesExposed(x.at.image.dbSize, d3)
    ensures Run(ops', false) == Some(s') && s'.stream == s.stream + [[d3]] && s'.floor == 3 && s'.fence == s.fence
    ensures s'.snapshot == Some(Position(Apply(Apply(m, d2), d3), 3))
    ensures s'.handles.Keys == s.handles.Keys && forall h :: h in s.handles && h != 1 ==> s'.handles[h] == s.handles[h]
  {
    var o1, s1 := SyncOne(ops, s, x, d3);
    BuildTwo(m, d2, d3);
    var o2, s2 := CheckpointOne(o1, s1, 1, s1.handles[1].session, [d2] + [d3]);
    ops', s' := Go(o2, s2, Purge(3));
  }

  lemma BuildTwo(m: Image, d2: Delta, d3: Delta)
    ensures Build(Build(EmptyBuilder, d2), d3) == BuildAll([d2] + [d3])
    ensures ApplyAll(m, [d2] + [d3]) == Apply(Apply(m, d2), d3)
  {
    SqliteFailure.OneDelta(m, EmptyBuilder, d2);
    assert ([d2] + [d3])[..1] == [d2];
  }

  /** The second handle takes the fence and checkpoints its own builder. */
  lemma SecondPublishes(ops: seq<Op>, s: System, x: Session, m: Image, d2: Delta) returns (ops': seq<Op>, s': System)
    requires Run(ops, false) == Some(s) && s.snapshot == Some(Position(m, 3)) && 2 in s.handles
    requires s.handles[2].Opening? && !s.handles[2].fenced && s.handles[2].restored == Some(x)
    requires x.read.None? && x.at.count == 2 && x.pending == Build(EmptyBuilder, d2)
    ensures Run(ops', false) == Some(s') && s'.stream == s.stream && s'.floor == s.floor
    ensures s'.snapshot == Some(Position(Apply(m, d2), 2))
  {
    var o1, s1 := Go(ops, s, Fence(2));
    var o2, s2 := Go(o1, s1, FinishOpen(2));
    SqliteFailure.OneDelta(m, EmptyBuilder, d2);
    ops', s' := CheckpointOne(o2, s2, 2, x, [d2]);
  }

  /** The whole run. */
  lemma TornRun(d1: Delta, d2: Delta, d3: Delta) returns (ops: seq<Op>, s: System)
    requires 0 < d1.txid < d2.txid < d3.txid
    requires WritesExposed(0, d1) && WritesExposed(d1.dbSize, d2) && WritesExposed(d2.dbSize, d3)
    ensures Run(ops, false) == Some(s) && s.stream == [[d1]] + [[d2]] + [[d3]] && s.floor == 3
    ensures s.snapshot == Some(Position(Apply(Apply(Apply(Apply(Empty, d1), d2), d3), d2), 2))
  {
    var i1 := Apply(Empty, d1);
    var o1, s1 := FirstTwo(d1, d2);
    var o2, s2 := SecondRestores(o1, s1, d1, d2);
    var x := Session(Position(Apply(i1, d2), 2), 1, Build(EmptyBuilder, d2), None);
    var o3, s3 := FirstPurges(o2, s2, x, i1, d2, d3);
    ops, s := SecondPublishes(o3, s3, x, Apply(Apply(i1, d2), d3), d2);
  }

  lemma TornPages(ps: nat, a: Bytes, b: Bytes, c: Bytes, x: Bytes, y: Bytes)
    ensures var (d1, d2, d3) := (Tx1(ps, a, b), Tx2(ps, c), Tx3(ps, x, y));
            && Apply(Apply(Empty, d1), d2).pages == map[1 := a, 2 := c]
            && Apply(Apply(Apply(Empty, d1), d2), d3).pages == map[1 := x, 2 := y]
            && Apply(Apply(Apply(Apply(Empty, d1), d2), d3), d2).pages == map[1 := x, 2 := c]
  {
    var (d1, d2, d3) := (Tx1(ps, a, b), Tx2(ps, c), Tx3(ps, x, y));
    TwoFrames(map[], Frame(1, a), Frame(2, b));
    var p1: Pages := map[1 := a, 2 := b];
    SqliteFailure.OneFrame(p1, Frame(2, c));
    var p2: Pages := map[1 := a, 2 := c];
    TwoFrames(p2, Frame(1, x), Frame(2, y));
    SqliteFailure.OneFrame(map[1 := x, 2 := y], Frame(2, c));
  }

  lemma TwoFrames(pages: Pages, f: Frame, g: Frame)
    ensures PutPages(pages, [f, g]) == pages[f.pgno := f.data][g.pgno := g.data]
  {
    assert [f, g][..1] == [f];
    SqliteFailure.OneFrame(pages, f);
  }

  lemma Prefixes(d1: Delta, d2: Delta, d3: Delta, k: nat)
    requires k <= 3
    ensures var stream := [[d1]] + [[d2]] + [[d3]];
            ApplyAll(Empty, Between(stream, 0, k))
            == if k == 0 then Empty else if k == 1 then Apply(Empty, d1) else if k == 2 then Apply(Apply(Empty, d1), d2)
               else Apply(Apply(Apply(Empty, d1), d2), d3)
  {
    var stream := [[d1]] + [[d2]] + [[d3]];
    SqliteFailure.OneDelta(Empty, EmptyBuilder, d1);
    SqliteFailure.OneDelta(Apply(Empty, d1), EmptyBuilder, d2);
    SqliteFailure.OneDelta(Apply(Apply(Empty, d1), d2), EmptyBuilder, d3);
    FlattenConcat([[d1]], [[d2]]);
    FlattenConcat([[d1]] + [[d2]], [[d3]]);
    ApplyAllConcat(Empty, [d1], [d2]);
    ApplyAllConcat(Empty, [d1] + [d2], [d3]);
    assert stream[0..0] == [] && stream[0..1] == [[d1]] && stream[0..2] == [[d1]] + [[d2]] && stream[0..3] == stream;
  }

  /** The torn restore: after that run, what anyone restores is the first page of transaction 3 with the second page of
      transaction 2, under the id of transaction 2, and no prefix of the stream replays to it. */
  lemma TornRestoreInRun(ps: nat, a: Bytes, b: Bytes, c: Bytes, x: Bytes, y: Bytes) returns (ops: seq<Op>, s: System)
    requires x != a
    ensures Run(ops, false) == Some(s) && |s.stream| == 3
    ensures Restored(s, Latest(s)).at.image.pages == map[1 := x, 2 := c] && Restored(s, Latest(s)).at.image.txid == 2
    ensures forall k: nat :: k <= 3 ==>
              !SameView(Restored(s, Latest(s)).at.image, ApplyAll(Empty, Between(s.stream, 0, k)))
  {
    var d1, d2, d3 := Tx1(ps, a, b), Tx2(ps, c), Tx3(ps, x, y);
    assert WritesPage(d1, 1) && WritesPage(d1, 2) by { assert d1.pages[0].pgno == 1 && d1.pages[1].pgno == 2; }
    ops, s := TornRun(d1, d2, d3);
    var torn := Latest(s).image;
    BetweenNone(s.stream, 3);
    assert Restored(s, Latest(s)).at.image == torn;
    TornPages(ps, a, b, c, x, y);
    forall k: nat | k <= 3 ensures !SameView(torn, ApplyAll(Empty, Between(s.stream, 0, k))) {
      Prefixes(d1, d2, d3, k);
      if k == 2 {
        var first: nat := 1;
        assert Get(torn.pages, first) != Get(Apply(Apply(Empty, d1), d2).pages, first);
      }
    }
  }
}
