/** Comparing two indexes of evidence rows, row by row under their common keys. */
module Comparison {
  import opened Json
  import opened Durables
  import opened Evidence
  import opened Collections

  type Reading<F> = Result<F, EvidenceError>

  type Rows<F> = map<Key, Reading<F>>

  /** Whether a pair of rows can be compared, and whether it passes. */
  type PairTest<!F> = (Reading<F>, Reading<F>) -> bool

  type PairReport<!F, V> = (Key, Reading<F>, Reading<F>) -> seq<V>

  predicate AllReadable<F>(previous: Rows<F>, current: Rows<F>, ready: PairTest<F>)
  {
    forall k :: k in previous && k in current ==> ready(previous[k], current[k])
  }

  predicate AllPass<F>(previous: Rows<F>, current: Rows<F>, passes: PairTest<F>)
  {
    forall k :: k in previous && k in current ==> passes(previous[k], current[k])
  }

  /** What is reported under one key. */
  function RowReport<F, V>(previous: Rows<F>, current: Rows<F>, report: PairReport<F, V>): Key -> seq<V>
  {
    k => if k in previous && k in current then report(k, previous[k], current[k]) else []
  }

  predicate SomeReports<F, V(==)>(previous: Rows<F>, current: Rows<F>, report: PairReport<F, V>, v: V)
  {
    exists k :: k in previous && k in current && v in report(k, previous[k], current[k])
  }

  /** The pass over the rows under the common keys, which stops at a pair that cannot be compared. */
  method CompareRows<F, V, W>(previous: Rows<F>, current: Rows<F>, ready: PairTest<F>, report: PairReport<F, V>,
                              note: PairReport<F, W>)
    returns (complete: bool, violations: seq<V>, notes: seq<W>, ghost keys: seq<Key>)
    ensures Lists(keys, previous.Keys * current.Keys)
    ensures complete <==> AllReadable(previous, current, ready)
    ensures complete ==> violations == Gather(keys, RowReport(previous, current, report))
    ensures complete ==> notes == Gather(keys, RowReport(previous, current, note))
  {
    var common := Enumerate(previous.Keys * current.Keys);
    keys := common;
    complete, violations, notes := true, [], [];
    for n := 0 to |common|
      invariant forall m :: 0 <= m < n ==> ready(previous[common[m]], current[common[m]])
      invariant violations == Gather(common[..n], RowReport(previous, current, report))
      invariant notes == Gather(common[..n], RowReport(previous, current, note))
    {
      var k := common[n];
      if !ready(previous[k], current[k]) {
        complete := false;
        return;
      }
      assert common[..n + 1][..n] == common[..n];
      violations := violations + report(k, previous[k], current[k]);
      notes := notes + note(k, previous[k], current[k]);
    }
    assert common[..|common|] == common;
    forall k | k in previous && k in current
      ensures ready(previous[k], current[k])
    {
      assert k in previous.Keys * current.Keys;
    }
  }

  /** What was gathered is what some pair reports; it is nothing exactly when every pair passes. */
  lemma GatheredReports<F, V>(previous: Rows<F>, current: Rows<F>, report: PairReport<F, V>, passes: PairTest<F>,
                              keys: seq<Key>)
    requires Lists(keys, previous.Keys * current.Keys)
    requires forall k :: k in previous && k in current ==>
               (report(k, previous[k], current[k]) == [] <==> passes(previous[k], current[k]))
    ensures Gather(keys, RowReport(previous, current, report)) == [] <==> AllPass(previous, current, passes)
  {
    var common, at := previous.Keys * current.Keys, RowReport(previous, current, report);
    GatherEverywhere(keys, common, at);
    forall k | k in previous && k in current
      ensures k in common && at(k) == report(k, previous[k], current[k])
    {
    }
  }

  lemma GatheredFrom<F, V>(previous: Rows<F>, current: Rows<F>, report: PairReport<F, V>, keys: seq<Key>)
    requires Lists(keys, previous.Keys * current.Keys)
    ensures forall v :: v in Gather(keys, RowReport(previous, current, report)) <==> SomeReports(previous, current, report, v)
  {
    var common, at := previous.Keys * current.Keys, RowReport(previous, current, report);
    GatherEverywhere(keys, common, at);
    forall v
      ensures v in Gather(keys, at) <==> SomeReports(previous, current, report, v)
    {
      if k :| k in previous && k in current && v in report(k, previous[k], current[k]) {
        assert k in common && v in at(k);
      }
    }
  }
}
