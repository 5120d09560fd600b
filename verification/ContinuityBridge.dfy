/** The quiescent check is the stronger of the two continuity checks. */
module ContinuityBridge {
  import opened Json
  import opened Durables
  import opened Evidence
  import opened Comparison
  import Strict = StrictContinuity
  import Active = ActiveContinuity

  /** Whenever the active check can read the rows at all (a negative window it cannot), snapshots that
      pass the strict check pass the active one, whatever its options. */
  lemma StrictImpliesActive(previous: Snapshot, current: Snapshot, allowNew: bool, migrate: bool)
    requires Strict.Readable(Strict.ReadSnapshot(previous), Strict.ReadSnapshot(current))
    requires Strict.Continues(Strict.ReadSnapshot(previous), Strict.ReadSnapshot(current))
    requires Active.Readable(Active.ReadSnapshot(previous), Active.ReadSnapshot(current))
    ensures Active.Continues(Active.ReadSnapshot(previous), Active.ReadSnapshot(current), allowNew, migrate)
  {
    StreamsAgree(previous, current);
    SnapshotDurablesAgree(previous);
    SnapshotDurablesAgree(current);
    DurablesAgree(Strict.ReadSnapshot(previous).durables, Strict.ReadSnapshot(current).durables,
                  Active.ReadSnapshot(previous).durables, Active.ReadSnapshot(current).durables, migrate);
  }

  lemma StreamsAgree(previous: Snapshot, current: Snapshot)
    requires Strict.Readable(Strict.ReadSnapshot(previous), Strict.ReadSnapshot(current))
    requires Strict.Continues(Strict.ReadSnapshot(previous), Strict.ReadSnapshot(current))
    requires Active.Readable(Active.ReadSnapshot(previous), Active.ReadSnapshot(current))
    ensures var ap, ac := Active.ReadSnapshot(previous), Active.ReadSnapshot(current);
            forall k :: k in ap.streams ==> k in ac.streams && Active.StreamContinues(ap.streams[k].value, ac.streams[k].value)
  {
    var ap, ac := Active.ReadSnapshot(previous), Active.ReadSnapshot(current);
    forall k | k in ap.streams
      ensures k in ac.streams && Active.StreamContinues(ap.streams[k].value, ac.streams[k].value)
    {
      assert k in Strict.ReadSnapshot(previous).streams && k in Strict.ReadSnapshot(current).streams;
      StreamFactsAgree(previous.streams[k]);
      StreamFactsAgree(current.streams[k]);
    }
  }

  lemma StreamFactsAgree(row: Json)
    requires Strict.ReadStream(row).Ok? && Active.ReadStream(row).Ok?
    ensures var s, a := Strict.ReadStream(row).value, Active.ReadStream(row).value;
            a.created == s.created && a.config == s.config && a.lastSeq == s.counters.lastSeq
  {
  }

  predicate SameDurable(s: Result<Strict.DurableFacts, EvidenceError>, a: Result<Active.DurableFacts, EvidenceError>)
  {
    s.Ok? && a.Ok? ==>
      && a.value.created == s.value.created && a.value.immutable == s.value.immutable
      && a.value.mutable == s.value.mutable && a.value.window == s.value.window && a.value.cursor == s.value.cursor
  }

  predicate SameDurables(s: Strict.DurableIndex, a: Active.DurableIndex)
  {
    s.Keys == a.Keys && forall k :: k in s ==> SameDurable(s[k], a[k])
  }

  lemma SnapshotDurablesAgree(s: Snapshot)
    ensures SameDurables(Strict.ReadSnapshot(s).durables, Active.ReadSnapshot(s).durables)
  {
    forall k | k in s.durables
      ensures SameDurable(Strict.ReadDurable(s.durables[k]), Active.ReadDurable(s.durables[k]))
    {
      DurableFactsAgree(s.durables[k]);
    }
  }

  lemma DurableFactsAgree(row: Json)
    ensures SameDurable(Strict.ReadDurable(row), Active.ReadDurable(row))
  {
  }

  lemma DurablesAgree(sp: Strict.DurableIndex, sc: Strict.DurableIndex, ap: Active.DurableIndex, ac: Active.DurableIndex,
                      migrate: bool)
    requires SameDurables(sp, ap) && SameDurables(sc, ac) && sp.Keys == sc.Keys
    requires forall k :: k in sp ==> sp[k].Ok? && sp[k] == sc[k]
    requires forall k :: k in ap && k in ac ==> Active.PairReadable(ap[k], ac[k])
    ensures forall k :: k in ap ==>
              k in ac && Active.PairReadable(ap[k], ac[k]) && Active.DurableContinues(ap[k].value, ac[k].value, migrate)
  {
    forall k | k in ap
      ensures k in ac && Active.PairReadable(ap[k], ac[k]) && Active.DurableContinues(ap[k].value, ac[k].value, migrate)
    {
      assert k in sp && SameDurable(sp[k], ap[k]) && SameDurable(sc[k], ac[k]);
    }
  }
}
