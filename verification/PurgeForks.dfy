/** The purge of stored records, seen from the fork model: its loop is one of the purges that fork isolation allows. */
module PurgeForks {
  import opened Prelude
  import opened Keys
  import opened Retention
  import ForkHistory
  import ForkIsolation
  import ForkReads

  /** The versions whose records are gone. */
  function Gone(before: Db, after: Db, stream: string): set<nat> {
    var prefix := RecordPrefix(stream);
    set k | k in before && k !in after && IsRecord(k, prefix) :: VersionOf(k, prefix)
  }

  /** The stored records of the stream are those of the fork model. */
  ghost predicate Mirrors(db: Db, forks: ForkHistory.Store, stream: string) {
    && stream in forks && (forall v :: v in forks[stream].records ==> v < Pow10(WIDTH))
    && forall v: nat :: v < Pow10(WIDTH) ==> (RecordKey(RecordPrefix(stream), v) in db <==> v in forks[stream].records)
  }

  /** What a purge takes lies above every live pin, so fork isolation allows it. */
  lemma PurgeIsAllowed(forks: ForkHistory.Store, stream: string, floor: nat, before: Db, after: Db)
    requires stream in forks && forall k :: k in before ==> (k !in after <==> Purgeable(forks, stream, floor, k))
    ensures ForkIsolation.Allowed(forks, ForkIsolation.Purge(stream, Gone(before, after, stream)))
  {
    ForkHistory.CeilingIsMax(forks, stream);
    var ceiling := ForkHistory.Ceiling(forks, stream);
    forall v | v in Gone(before, after, stream) && ceiling.Some? ensures v > ceiling.value {
      assert !ForkReads.HeldByLiveFork(forks, stream, v);
      var c :| c in forks[stream].pins && ForkHistory.LivePin(forks, c) && forks[stream].pins[c] == ceiling.value;
      assert !(v <= forks[stream].pins[c]);
    }
  }

  lemma GoneIff(before: Db, after: Db, stream: string, v: nat)
    requires v < Pow10(WIDTH)
    ensures v in Gone(before, after, stream)
            <==> RecordKey(RecordPrefix(stream), v) in before && RecordKey(RecordPrefix(stream), v) !in after
  {
    var prefix := RecordPrefix(stream);
    RecordKeyVersion(prefix, v);
    if v in Gone(before, after, stream) {
      var k :| k in before && k !in after && IsRecord(k, prefix) && VersionOf(k, prefix) == v;
      RecordOrder(k, RecordKey(prefix, v), prefix);
    }
  }

  /** And it does to the stored records what the fork model's purge does to the stream. */
  lemma PurgeMirrors(forks: ForkHistory.Store, stream: string, before: Db, after: Db)
    requires Mirrors(before, forks, stream) && forall k :: k in after ==> k in before
    ensures var purge := ForkIsolation.Purge(stream, Gone(before, after, stream));
            ForkIsolation.Feasible(forks, purge) && Mirrors(after, ForkIsolation.Apply(forks, purge), stream)
  {
    var st := ForkIsolation.Apply(forks, ForkIsolation.Purge(stream, Gone(before, after, stream)));
    forall v: nat | v < Pow10(WIDTH) ensures RecordKey(RecordPrefix(stream), v) in after <==> v in st[stream].records {
      GoneIff(before, after, stream, v);
    }
  }
}
