/** Which events reading a stream returns, event by event: the reading that visibility and histories are held to. */
module ForkReads {
  import opened Prelude
  import opened NatOrder
  import opened ForkHistory

  /** Some fork of the stream that is not deleted was made at or above this version. */
  predicate HeldByLiveFork(st: Store, stream: string, v: nat)
    requires stream in st
  {
    exists child :: child in st[stream].pins && (child in st ==> !st[child].deleted) && v <= st[stream].pins[child]
  }

  /** A reader may see version `v`: it exists, is not trimmed, lies in front of every rollback or is old enough for it,
      and if the stream is deleted a live fork still holds it. */
  predicate Readable(st: Store, stream: string, v: nat)
    requires stream in st
  {
    var s := st[stream];
    && v in s.records && s.trim <= v
    && (forall r :: r in s.rollbacks ==> v < r.from || s.records[v].seqNo <= r.seqNo)
    && (s.deleted ==> HeldByLiveFork(st, stream, v))
  }

  lemma VisibleMeans(st: Store, stream: string, v: nat)
    requires stream in st && v in st[stream].records
    ensures Visible(st, stream, v) <==> Readable(st, stream, v)
  {
    var s := st[stream];
    CeilingIsMax(st, stream);
    if HeldByLiveFork(st, stream, v) {
      var child :| child in s.pins && (child in st ==> !st[child].deleted) && v <= s.pins[child];
      assert LivePin(st, child);
    }
    assert Unhidden(s, v) <==> s.trim <= v && forall r :: r in s.rollbacks ==>
             v < r.from || s.records[v].seqNo <= r.seqNo by {
      if Unhidden(s, v) {
        forall r | r in s.rollbacks ensures v < r.from || s.records[v].seqNo <= r.seqNo {
          var i :| 0 <= i < |s.rollbacks| && s.rollbacks[i] == r;
        }
      }
      if s.trim <= v && forall r :: r in s.rollbacks ==> v < r.from || s.records[v].seqNo <= r.seqNo {
        forall i | 0 <= i < |s.rollbacks|
          ensures !(v >= s.rollbacks[i].from && s.records[v].seqNo > s.rollbacks[i].seqNo) {
          assert s.rollbacks[i] in s.rollbacks;
        }
      }
    }
  }

  /** The versions that are read, in order. */
  function ReadVersions(st: Store, stream: string, versions: seq<nat>, lo: nat, hi: Option<nat>): (r: seq<nat>)
    requires stream in st
    ensures forall v :: v in r ==> v in versions
    ensures forall v :: v in r <==> v in versions && Readable(st, stream, v) && lo <= v && (hi.Some? ==> v < hi.value)
    ensures Increasing(versions) ==> Increasing(r)
  {
    if versions == [] then []
    else
      var n := |versions| - 1;
      assert versions == versions[..n] + [versions[n]];
      var before := ReadVersions(st, stream, versions[..n], lo, hi);
      assert forall i :: 0 <= i < |before| ==> before[i] in before;
      if Readable(st, stream, versions[n]) && lo <= versions[n] && (hi.Some? ==> versions[n] < hi.value)
      then before + [versions[n]] else before
  }

  lemma {:induction false} PickReads(st: Store, stream: string, versions: seq<nat>, lo: nat, hi: Option<nat>)
    requires stream in st && forall v :: v in versions ==> v in st[stream].records
    ensures var read, events := ReadVersions(st, stream, versions, lo, hi), PickVisible(st, stream, versions, lo, hi);
            && |events| == |read|
            && forall i :: 0 <= i < |read| ==> read[i] in st[stream].records && events[i] == st[stream].records[read[i]]
  {
    if versions != [] {
      var n := |versions| - 1;
      assert versions[n] in versions;
      PickReads(st, stream, versions[..n], lo, hi);
      VisibleMeans(st, stream, versions[n]);
    }
  }

  /** Reading a range of a stream returns, in increasing order of version, exactly the records of the range that a
      reader may see. */
  lemma ReadEventsMeans(st: Store, stream: string, lo: nat, hi: Option<nat>) returns (read: seq<nat>)
    requires stream in st
    ensures Increasing(read)
    ensures forall v: nat :: v in read <==> Readable(st, stream, v) && lo <= v && (hi.Some? ==> v < hi.value)
    ensures |ReadEvents(st, stream, lo, hi)| == |read|
    ensures forall i :: 0 <= i < |read| ==>
              read[i] in st[stream].records && ReadEvents(st, stream, lo, hi)[i] == st[stream].records[read[i]]
  {
    var versions := Ascending(st[stream].records.Keys);
    AscendingIncreases(st[stream].records.Keys);
    read := ReadVersions(st, stream, versions, lo, hi);
    PickReads(st, stream, versions, lo, hi);
  }

  lemma {:induction false} CutMeans(events: seq<Event>, bound: nat, e: Event)
    ensures e in Cut(events, 0, Some(bound)) <==> e in events && e.version < bound
  {
    if events != [] {
      var n := |events| - 1;
      assert events == events[..n] + [events[n]];
      CutMeans(events[..n], bound, e);
    }
  }

  /** The event is a record of the stream that a reader may see. */
  ghost predicate Holds(st: Store, stream: string, e: Event)
    requires stream in st
  {
    exists v: nat :: Readable(st, stream, v) && st[stream].records[v] == e
  }

  lemma OwnMeans(st: Store, stream: string, e: Event)
    requires stream in st
    ensures e in ReadEvents(st, stream, 0, None) <==> Holds(st, stream, e)
  {
    var read := ReadEventsMeans(st, stream, 0, None);
    var own := ReadEvents(st, stream, 0, None);
    if e in own {
      var i :| 0 <= i < |own| && own[i] == e;
      assert read[i] in read;
    }
    if v: nat :| Readable(st, stream, v) && st[stream].records[v] == e {
      assert v in read;
      var i :| 0 <= i < |read| && read[i] == v;
      assert own[i] == e;
    }
  }

  /** A history holds the stream's own readable records and, of what its parent's history holds, the versions up to and
      including the fork point. */
  lemma HistoryMeans(st: Store, rank: map<string, nat>, stream: string, e: Event)
    requires Ranked(st, rank) && stream in st
    ensures st[stream].fork.None? ==> (e in History(st, rank, stream) <==> Holds(st, stream, e))
    ensures st[stream].fork.Some? ==>
              var f := st[stream].fork.value;
              && f.stream in st
              && (e in History(st, rank, stream)
                  <==> Holds(st, stream, e) || (e in History(st, rank, f.stream) && e.version <= f.at))
  {
    OwnMeans(st, stream, e);
    if st[stream].fork.Some? {
      assert RankedAt(st, rank, stream);
      var f := st[stream].fork.value;
      CutMeans(History(st, rank, f.stream), f.at + 1, e);
      JoinMeans(Cut(History(st, rank, f.stream), 0, Some(f.at + 1)), ReadEvents(st, stream, 0, None), e);
    }
  }

  lemma JoinMeans(a: seq<Event>, b: seq<Event>, e: Event)
    ensures e in a + b <==> e in a || e in b
  {
  }
}
