/** Archive-gated deletion of expired rows, in one transaction over all tables of the plan. */
module Retention {
  import opened Json
  import opened Collections

  /** Times are in microseconds since the epoch, in UTC. */
  const DAY := 86_400_000_000

  datatype Row = Row(symbol: string, ts: int, body: string)

  /** A UTC day of one symbol in a table. */
  datatype Key = Key(symbol: string, start: int)

  datatype ArchiveState = DeleteEligible | Deleted | OtherState(name: string)

  datatype Archive = Archive(
    dataset: string, symbol: string, start: int, end: int, source: string, path: string, sha256: string, rowCount: int,
    state: ArchiveState)

  /** One expired partition with the archive that covers it. */
  datatype Evidence = Evidence(key: Key, count: nat, archive: string)

  datatype Limit = Limit(table: string, days: nat)

  type Tables = map<string, seq<Row>>

  /** By partition id. */
  type Archives = map<string, Archive>

  /** Whether the archive's file has the digest, row count and scope of the partition. */
  type Verifier = (Archive, string, Key, int) -> bool

  const RETENTION_PLAN: seq<Limit> := [
    Limit("bronze.market_trades", 30),
    Limit("bronze.market_orderbook_bbo", 14),
    Limit("bronze.market_orderbook_books5", 14),
    Limit("staging.market_oi_funding_ticks", 7)]

  function DayOf(ts: int): int
  {
    ts - ts % DAY
  }

  function KeyOf(r: Row): Key
  {
    Key(r.symbol, DayOf(r.ts))
  }

  /** The start of the day a number of days ago. */
  function Cutoff(now: int, days: nat): int
  {
    DayOf(now - days * DAY)
  }

  // ------------------------------------------------------------------------- rows and keys

  function CountIn(rows: seq<Row>, k: Key): nat
  {
    if rows == [] then 0 else CountIn(rows[..|rows| - 1], k) + if KeyOf(rows[|rows| - 1]) == k then 1 else 0
  }

  /** The rows outside some partitions, in order. */
  function Surviving(rows: seq<Row>, gone: set<Key>): seq<Row>
  {
    if rows == [] then [] else
      var last := rows[|rows| - 1];
      Surviving(rows[..|rows| - 1], gone) + if KeyOf(last) in gone then [] else [last]
  }

  /** The rows from the cutoff on, in order. */
  function Recent(rows: seq<Row>, cutoff: int): seq<Row>
  {
    if rows == [] then [] else
      var last := rows[|rows| - 1];
      Recent(rows[..|rows| - 1], cutoff) + if last.ts >= cutoff then [last] else []
  }

  function ExpiredKeys(rows: seq<Row>, cutoff: int): set<Key>
  {
    set r | r in rows && r.ts < cutoff :: KeyOf(r)
  }

  lemma {:induction false} SurvivingTwice(rows: seq<Row>, a: set<Key>, b: set<Key>)
    ensures Surviving(Surviving(rows, a), b) == Surviving(rows, a + b)
  {
    if rows != [] {
      var before, last := rows[..|rows| - 1], rows[|rows| - 1];
      SurvivingTwice(before, a, b);
      var kept := Surviving(before, a);
      assert (kept + [last])[..|kept|] == kept;
      assert Surviving(rows, a) == if KeyOf(last) in a then kept else kept + [last];
    }
  }

  lemma {:induction false} SurvivingNone(rows: seq<Row>)
    ensures Surviving(rows, {}) == rows
  {
    if rows != [] {
      SurvivingNone(rows[..|rows| - 1]);
    }
  }

  /** Deleting one partition removes exactly its rows. */
  lemma {:induction false} SurvivingLength(rows: seq<Row>, k: Key)
    ensures |Surviving(rows, {k})| + CountIn(rows, k) == |rows|
  {
    if rows != [] {
      SurvivingLength(rows[..|rows| - 1], k);
    }
  }

  lemma CountAppended(rows: seq<Row>, r: Row, k: Key)
    ensures CountIn(rows + [r], k) == CountIn(rows, k) + if KeyOf(r) == k then 1 else 0
  {
    assert (rows + [r])[..|rows + [r]| - 1] == rows;
  }

  lemma SurvivingAppended(rows: seq<Row>, r: Row, gone: set<Key>)
    ensures Surviving(rows + [r], gone) == Surviving(rows, gone) + if KeyOf(r) in gone then [] else [r]
  {
    assert (rows + [r])[..|rows + [r]| - 1] == rows;
  }

  lemma {:induction false} SurvivingKeepsCount(rows: seq<Row>, gone: set<Key>, k: Key)
    requires k !in gone
    ensures CountIn(Surviving(rows, gone), k) == CountIn(rows, k)
  {
    if rows != [] {
      var before, last := rows[..|rows| - 1], rows[|rows| - 1];
      assert rows == before + [last];
      SurvivingKeepsCount(before, gone, k);
      SurvivingAppended(before, last, gone);
      CountAppended(before, last, k);
      if KeyOf(last) in gone {
        assert Surviving(rows, gone) == Surviving(before, gone);
      } else {
        CountAppended(Surviving(before, gone), last, k);
      }
    }
  }

  lemma SameDaySameSide(a: int, b: int, cutoff: int)
    requires cutoff % DAY == 0 && DayOf(a) == DayOf(b) && a < cutoff
    ensures b < cutoff
  {
    var day := 86_400_000_000;
    assert DAY == day;
    assert DayOf(a) == day * (a / day) && DayOf(b) == day * (b / day) && cutoff == day * (cutoff / day);
    assert a / day < cutoff / day;
  }

  /** Day alignment: no partition that holds an expired row holds a recent one. */
  lemma ExpiredIffKeyExpired(rows: seq<Row>, cutoff: int, r: Row)
    requires cutoff % DAY == 0 && r in rows
    ensures r.ts < cutoff <==> KeyOf(r) in ExpiredKeys(rows, cutoff)
  {
    if KeyOf(r) in ExpiredKeys(rows, cutoff) {
      var e :| e in rows && e.ts < cutoff && KeyOf(e) == KeyOf(r);
      SameDaySameSide(e.ts, r.ts, cutoff);
    }
  }

  lemma {:induction false} SurvivingIsRecent(rows: seq<Row>, gone: set<Key>, cutoff: int)
    requires forall r :: r in rows ==> (r.ts < cutoff <==> KeyOf(r) in gone)
    ensures Surviving(rows, gone) == Recent(rows, cutoff)
  {
    if rows != [] {
      var before, last := rows[..|rows| - 1], rows[|rows| - 1];
      assert rows == before + [last];
      SurvivingIsRecent(before, gone, cutoff);
    }
  }

  lemma {:induction false} RecentMeaning(rows: seq<Row>, cutoff: int)
    ensures forall r :: r in Recent(rows, cutoff) ==> r.ts >= cutoff
    ensures forall r :: multiset(Recent(rows, cutoff))[r] == if r.ts >= cutoff then multiset(rows)[r] else 0
  {
    if rows != [] {
      var before, last := rows[..|rows| - 1], rows[|rows| - 1];
      assert rows == before + [last];
      RecentMeaning(before, cutoff);
    }
  }

  // ---------------------------------------------------------------------------- archives

  predicate Covers(a: Archive, table: string, k: Key)
  {
    && a.dataset == table && a.symbol == k.symbol && a.start == k.start && a.end == k.start + DAY
    && a.state == DeleteEligible
  }

  function Matching(archives: Archives, table: string, k: Key): set<string>
  {
    set id | id in archives && Covers(archives[id], table, k)
  }

  /** The partition has exactly one eligible archive, of the right size and verified. */
  predicate Archived(rows: seq<Row>, archives: Archives, table: string, k: Key, verified: Verifier)
  {
    exists id :: id in archives && Matching(archives, table, k) == {id}
                 && archives[id].rowCount == CountIn(rows, k) && verified(archives[id], table, k, CountIn(rows, k))
  }

  function Retired(archives: Archives, ids: set<string>): Archives
  {
    map id | id in archives :: if id in ids then archives[id].(state := ArchiveState.Deleted) else archives[id]
  }

  function Keys(evidence: seq<Evidence>): set<Key>
  {
    set e | e in evidence :: e.key
  }

  function Ids(evidence: seq<Evidence>): set<string>
  {
    set e | e in evidence :: e.archive
  }

  /** What a preflight of a table hands on: one entry for each expired partition, with its own archive. */
  predicate Proves(evidence: seq<Evidence>, rows: seq<Row>, archives: Archives, table: string, keys: set<Key>)
  {
    && Keys(evidence) == keys
    && (forall i, j :: 0 <= i < j < |evidence| ==> evidence[i].key != evidence[j].key)
    && (forall i :: 0 <= i < |evidence| ==>
          && evidence[i].archive in archives && Matching(archives, table, evidence[i].key) == {evidence[i].archive}
          && evidence[i].count == CountIn(rows, evidence[i].key))
  }

  class Database {
    /** Which statements fail, counted over the life of the database. */
    const fails: nat -> bool
    var issued: nat
    var tables: Tables
    var archives: Archives
    var savedTables: Tables
    var savedArchives: Archives

    constructor (tables: Tables, archives: Archives, fails: nat -> bool)
      ensures this.tables == tables && this.archives == archives && this.fails == fails && issued == 0
    {
      this.tables, this.archives, this.fails := tables, archives, fails;
      savedTables, savedArchives := tables, archives;
      issued := 0;
    }

    /** None of the statements issued since then failed. */
    predicate NoneFailedSince(start: nat)
      reads this
    {
      forall n :: start <= n < issued ==> !fails(n)
    }

    /** A statement that only reads or locks. */
    method Query() returns (ok: bool)
      modifies this`issued
      ensures issued == old(issued) + 1 && ok == !fails(old(issued))
    {
      ok := !fails(issued);
      issued := issued + 1;
    }

    method Begin()
      modifies this`savedTables, this`savedArchives
      ensures savedTables == tables && savedArchives == archives
    {
      savedTables, savedArchives := tables, archives;
    }

    method Rollback()
      modifies this`tables, this`archives
      ensures tables == savedTables && archives == savedArchives
    {
      tables, archives := savedTables, savedArchives;
    }

    /** Deletes one partition and tells how many rows went. */
    method DeletePartition(table: string, k: Key) returns (deleted: Option<nat>)
      requires table in tables
      modifies this`issued, this`tables
      ensures issued == old(issued) + 1 && (deleted.None? <==> fails(old(issued)))
      ensures deleted.None? ==> tables == old(tables)
      ensures deleted.Some? ==>
                tables == old(tables)[table := Surviving(old(tables[table]), {k})]
                && deleted.value == CountIn(old(tables[table]), k)
    {
      var ok := Query();
      if !ok {
        return None;
      }
      deleted := Some(CountIn(tables[table], k));
      tables := tables[table := Surviving(tables[table], {k})];
    }

    /** Marks an eligible archive deleted and tells how many archives changed. */
    method RetireArchive(id: string) returns (changed: Option<nat>)
      modifies this`issued, this`archives
      ensures issued == old(issued) + 1 && (changed.None? <==> fails(old(issued)))
      ensures changed.Some? ==>
                changed.value == if id in old(archives) && old(archives[id]).state == DeleteEligible then 1 else 0
      ensures archives == if changed == Some(1) then Retired(old(archives), {id}) else old(archives)
    {
      var ok := Query();
      if !ok {
        return None;
      }
      if id in archives && archives[id].state == DeleteEligible {
        archives := Retired(archives, {id});
        return Some(1);
      }
      return Some(0);
    }
  }

  lemma DayOfDay(ts: int)
    ensures DayOf(ts) % DAY == 0 && DayOf(DayOf(ts)) == DayOf(ts)
  {
    var day := 86_400_000_000;
    assert DAY == day;
    assert DayOf(ts) == day * (ts / day);
  }

  /** The one archive that proves a partition was kept elsewhere. */
  method ProvePartition(db: Database, table: string, k: Key, verified: Verifier) returns (proof: Option<Evidence>)
    requires table in db.tables
    modifies db`issued
    ensures db.issued == old(db.issued) + 1
    ensures proof.Some? <==>
              Archived(db.tables[table], db.archives, table, k, verified) && db.NoneFailedSince(old(db.issued))
    ensures proof.Some? ==>
              && proof.value.key == k && proof.value.archive in db.archives
              && Matching(db.archives, table, k) == {proof.value.archive}
              && proof.value.count == CountIn(db.tables[table], k)
  {
    var selected := db.Query();
    if !selected {
      return None;
    }
    var matching := Matching(db.archives, table, k);
    if |matching| != 1 {
      NotOneMatch(db.tables[table], db.archives, table, k, verified);
      return None;
    }
    OneMatch(matching);
    var id :| id in matching;
    OnlyMatch(db.tables[table], db.archives, table, k, verified, id);
    var sourceRows := CountIn(db.tables[table], k);
    if db.archives[id].rowCount != sourceRows || !verified(db.archives[id], table, k, sourceRows) {
      return None;
    }
    return Some(Evidence(k, sourceRows, id));
  }

  /** `_preflight_archived_partitions`: locks, and succeeds exactly when no statement fails and every partition
      that expired by the start of the cutoff's day is archived. It changes nothing. */
  method Preflight(db: Database, table: string, cutoff: int, verified: Verifier) returns (evidence: Option<seq<Evidence>>)
    modifies db`issued
    ensures old(db.issued) <= db.issued
    ensures evidence.Some? <==>
              table in db.tables && db.NoneFailedSince(old(db.issued))
              && forall k :: k in ExpiredKeys(db.tables[table], DayOf(cutoff)) ==>
                   Archived(db.tables[table], db.archives, table, k, verified)
    ensures evidence.Some? ==>
              Proves(evidence.value, db.tables[table], db.archives, table, ExpiredKeys(db.tables[table], DayOf(cutoff)))
  {
    var cutoffDay := DayOf(cutoff);
    var locked := db.Query();
    if !locked || table !in db.tables {
      return None;
    }
    var listed := db.Query();
    if !listed {
      return None;
    }
    var rows := db.tables[table];
    var keys := Enumerate(ExpiredKeys(rows, cutoffDay));
    var found: seq<Evidence> := [];
    for i := 0 to |keys|
      invariant old(db.issued) <= db.issued && db.NoneFailedSince(old(db.issued))
      invariant |found| == i && forall j :: 0 <= j < i ==> found[j].key == keys[j]
      invariant forall j :: 0 <= j < i ==> Archived(rows, db.archives, table, keys[j], verified)
      invariant forall j :: 0 <= j < i ==>
                  && found[j].archive in db.archives
                  && Matching(db.archives, table, found[j].key) == {found[j].archive}
                  && found[j].count == CountIn(rows, found[j].key)
    {
      var proof := ProvePartition(db, table, keys[i], verified);
      if proof.None? {
        return None;
      }
      found := found + [proof.value];
    }
    return Some(found);
  }

  lemma OneMatch(ids: set<string>)
    requires |ids| == 1
    ensures exists id :: id in ids && ids == {id}
  {
    var id :| id in ids;
    var others := ids - {id};
    assert ids == others + {id};
    assert |others| == 0;
    assert others == {};
  }

  lemma OnlyMatch(rows: seq<Row>, archives: Archives, table: string, k: Key, verified: Verifier, id: string)
    requires id in archives && Matching(archives, table, k) == {id}
    ensures Archived(rows, archives, table, k, verified)
       <==> archives[id].rowCount == CountIn(rows, k) && verified(archives[id], table, k, CountIn(rows, k))
  {
    forall other | {other} == {id}
      ensures other == id
    {
      assert other in {other};
    }
  }

  lemma NotOneMatch(rows: seq<Row>, archives: Archives, table: string, k: Key, verified: Verifier)
    requires |Matching(archives, table, k)| != 1
    ensures !Archived(rows, archives, table, k, verified)
  {
  }

  /** What is left to delete can still be deleted. */
  predicate Deletable(evidence: seq<Evidence>, tables: Tables, archives: Archives, table: string)
  {
    && table in tables
    && (forall i, j :: 0 <= i < j < |evidence| ==>
          evidence[i].key != evidence[j].key && evidence[i].archive != evidence[j].archive)
    && (forall i :: 0 <= i < |evidence| ==>
          && evidence[i].archive in archives && archives[evidence[i].archive].state == DeleteEligible
          && evidence[i].count == CountIn(tables[table], evidence[i].key))
  }

  lemma KeysGrow(evidence: seq<Evidence>, n: nat)
    requires n < |evidence|
    ensures Keys(evidence[..n + 1]) == Keys(evidence[..n]) + {evidence[n].key}
    ensures Ids(evidence[..n + 1]) == Ids(evidence[..n]) + {evidence[n].archive}
  {
    assert evidence[..n + 1] == evidence[..n] + [evidence[n]];
  }

  lemma RetiredTwice(archives: Archives, a: set<string>, b: set<string>)
    ensures Retired(Retired(archives, a), b) == Retired(archives, a + b)
  {
  }

  lemma EntryIsNew(evidence: seq<Evidence>, n: nat)
    requires n < |evidence|
    requires forall i, j :: 0 <= i < j < |evidence| ==>
               evidence[i].key != evidence[j].key && evidence[i].archive != evidence[j].archive
    ensures evidence[n].key !in Keys(evidence[..n]) && evidence[n].archive !in Ids(evidence[..n])
  {
    forall e | e in evidence[..n]
      ensures e.key != evidence[n].key && e.archive != evidence[n].archive
    {
      var i :| 0 <= i < n && evidence[..n][i] == e;
      assert evidence[i] == e;
    }
  }

  /** The state part way through deleting the partitions of a table. */
  predicate DeletedSoFar(evidence: seq<Evidence>, n: nat, rows: seq<Row>, archives: Archives, left: seq<Row>,
                         marked: Archives, total: nat)
    requires n <= |evidence|
  {
    && total + |left| == |rows| && left == Surviving(rows, Keys(evidence[..n]))
    && marked == Retired(archives, Ids(evidence[..n]))
  }

  lemma NothingDeleted(evidence: seq<Evidence>, rows: seq<Row>, archives: Archives)
    ensures DeletedSoFar(evidence, 0, rows, archives, rows, archives, 0)
  {
    SurvivingNone(rows);
    assert Keys(evidence[..0]) == {} && Ids(evidence[..0]) == {};
    assert Retired(archives, {}) == archives;
  }

  lemma OneMoreDeleted(evidence: seq<Evidence>, n: nat, table: string, tables: Tables, archives: Archives, left: seq<Row>,
                       marked: Archives, total: nat)
    requires n < |evidence| && Deletable(evidence, tables, archives, table)
    requires DeletedSoFar(evidence, n, tables[table], archives, left, marked, total)
    ensures CountIn(left, evidence[n].key) == evidence[n].count
    ensures evidence[n].archive in marked && marked[evidence[n].archive].state == DeleteEligible
    ensures DeletedSoFar(evidence, n + 1, tables[table], archives, Surviving(left, {evidence[n].key}),
                         Retired(marked, {evidence[n].archive}), total + evidence[n].count)
  {
    var e, gone, ids := evidence[n], Keys(evidence[..n]), Ids(evidence[..n]);
    KeysGrow(evidence, n);
    EntryIsNew(evidence, n);
    SurvivingKeepsCount(tables[table], gone, e.key);
    SurvivingTwice(tables[table], gone, {e.key});
    SurvivingLength(left, e.key);
    RetiredTwice(archives, ids, {e.archive});
  }

  /** Whether the two counts of an entry come out as proved. */
  predicate EntryFits(tables: Tables, archives: Archives, table: string, e: Evidence)
    requires table in tables
  {
    CountIn(tables[table], e.key) == e.count && e.archive in archives && archives[e.archive].state == DeleteEligible
  }

  /** Deletes one proved partition and retires its archive, checking both counts. */
  method DeleteEntry(db: Database, table: string, e: Evidence) returns (ok: bool)
    requires table in db.tables
    modifies db`issued, db`tables, db`archives
    ensures old(db.issued) <= db.issued && table in db.tables && db.tables == old(db.tables)[table := db.tables[table]]
    ensures ok <==> EntryFits(old(db.tables), old(db.archives), table, e) && db.NoneFailedSince(old(db.issued))
    ensures ok ==> db.tables[table] == Surviving(old(db.tables[table]), {e.key})
    ensures ok ==> db.archives == Retired(old(db.archives), {e.archive})
  {
    var deleted := db.DeletePartition(table, e.key);
    if deleted != Some(e.count) {
      return false;
    }
    var changed := db.RetireArchive(e.archive);
    return changed == Some(1);
  }

  /** `_delete_preflighted_partitions`: with nobody else writing, the counts come out as proved, so that only a
      statement can fail. */
  method DeletePreflighted(db: Database, table: string, evidence: seq<Evidence>) returns (total: Option<nat>)
    requires table in db.tables
    modifies db`issued, db`tables, db`archives
    ensures old(db.issued) <= db.issued && table in db.tables && db.tables == old(db.tables)[table := db.tables[table]]
    ensures total.Some? ==> db.NoneFailedSince(old(db.issued))
    ensures Deletable(evidence, old(db.tables), old(db.archives), table) ==>
              && (total.Some? <==> db.NoneFailedSince(old(db.issued)))
              && (total.Some? ==>
                    DeletedSoFar(evidence, |evidence|, old(db.tables[table]), old(db.archives), db.tables[table],
                                 db.archives, total.value))
  {
    ghost var tables, archives := db.tables, db.archives;
    ghost var fits := Deletable(evidence, tables, archives, table);
    var deletedTotal: nat := 0;
    NothingDeleted(evidence, tables[table], archives);
    assert db.tables == tables[table := db.tables[table]];
    for i := 0 to |evidence|
      invariant old(db.issued) <= db.issued && db.NoneFailedSince(old(db.issued))
      invariant table in db.tables && db.tables == tables[table := db.tables[table]]
      invariant fits ==> DeletedSoFar(evidence, i, tables[table], archives, db.tables[table], db.archives, deletedTotal)
    {
      if fits {
        OneMoreDeleted(evidence, i, table, tables, archives, db.tables[table], db.archives, deletedTotal);
      }
      var ok := DeleteEntry(db, table, evidence[i]);
      if !ok {
        return None;
      }
      deletedTotal := deletedTotal + evidence[i].count;
    }
    return Some(deletedTotal);
  }

  /** `_count_rows_before_cutoff` */
  function CountBefore(rows: seq<Row>, cutoff: int): nat
  {
    if rows == [] then 0 else CountBefore(rows[..|rows| - 1], cutoff) + if rows[|rows| - 1].ts < cutoff then 1 else 0
  }

  /** The dry run counts exactly the rows an apply with the same cutoff removes. */
  lemma {:induction false} DryRunPredicts(rows: seq<Row>, cutoff: int)
    ensures CountBefore(rows, cutoff) == |rows| - |Recent(rows, cutoff)|
  {
    if rows != [] {
      DryRunPredicts(rows[..|rows| - 1], cutoff);
    }
  }

  // ------------------------------------------------------------------------ the transaction

  predicate DistinctTables(plan: seq<Limit>)
  {
    forall i, j :: 0 <= i < j < |plan| ==> plan[i].table != plan[j].table
  }

  lemma PlannedTablesAreDistinct()
    ensures DistinctTables(RETENTION_PLAN)
  {
    assert RETENTION_PLAN[0].table[7] == 'm' && RETENTION_PLAN[3].table[7] == '.';
  }

  /** Every expired partition of the table is archived. */
  predicate TableReady(tables: Tables, archives: Archives, limit: Limit, now: int, verified: Verifier)
  {
    && limit.table in tables
    && forall k :: k in ExpiredKeys(tables[limit.table], Cutoff(now, limit.days)) ==>
         Archived(tables[limit.table], archives, limit.table, k, verified)
  }

  predicate TableProved(evidence: seq<Evidence>, tables: Tables, archives: Archives, limit: Limit, now: int)
  {
    && limit.table in tables
    && Proves(evidence, tables[limit.table], archives, limit.table, ExpiredKeys(tables[limit.table], Cutoff(now, limit.days)))
  }

  predicate AllReady(tables: Tables, archives: Archives, plan: seq<Limit>, now: int, verified: Verifier)
  {
    forall i :: 0 <= i < |plan| ==> TableReady(tables, archives, plan[i], now, verified)
  }

  predicate AllProved(preflight: seq<seq<Evidence>>, tables: Tables, archives: Archives, plan: seq<Limit>, now: int)
  {
    |preflight| == |plan| && forall i :: 0 <= i < |plan| ==> TableProved(preflight[i], tables, archives, plan[i], now)
  }

  method PreflightAll(db: Database, plan: seq<Limit>, now: int, verified: Verifier)
    returns (preflight: Option<seq<seq<Evidence>>>)
    modifies db`issued
    ensures old(db.issued) <= db.issued
    ensures preflight.Some? <==> AllReady(db.tables, db.archives, plan, now, verified) && db.NoneFailedSince(old(db.issued))
    ensures preflight.Some? ==> AllProved(preflight.value, db.tables, db.archives, plan, now)
  {
    var found: seq<seq<Evidence>> := [];
    for i := 0 to |plan|
      invariant old(db.issued) <= db.issued && db.NoneFailedSince(old(db.issued))
      invariant |found| == i
      invariant forall j :: 0 <= j < i ==> TableReady(db.tables, db.archives, plan[j], now, verified)
      invariant forall j :: 0 <= j < i ==> TableProved(found[j], db.tables, db.archives, plan[j], now)
    {
      DayOfDay(now - plan[i].days * DAY);
      var evidence := Preflight(db, plan[i].table, Cutoff(now, plan[i].days), verified);
      if evidence.None? {
        return None;
      }
      found := found + [evidence.value];
    }
    return Some(found);
  }

  /** The archives behind the preflight of some tables. */
  function UsedIds(preflight: seq<seq<Evidence>>): set<string>
  {
    if preflight == [] then {} else UsedIds(preflight[..|preflight| - 1]) + Ids(preflight[|preflight| - 1])
  }

  /** The archives that cover some expired partition of the first tables of the plan. */
  predicate CoversExpired(tables: Tables, archives: Archives, plan: seq<Limit>, n: nat, now: int, id: string)
    requires n <= |plan|
  {
    exists i, k :: 0 <= i < n && plan[i].table in tables
                   && k in ExpiredKeys(tables[plan[i].table], Cutoff(now, plan[i].days))
                   && Matching(archives, plan[i].table, k) == {id}
  }

  lemma CutoffIsAligned(now: int, days: nat)
    ensures Cutoff(now, days) % DAY == 0
  {
    var t, day := now - days * DAY, 86_400_000_000;
    assert DayOf(t) == day * (t / day);
  }

  lemma ExpiredGone(rows: seq<Row>, now: int, days: nat)
    ensures Surviving(rows, ExpiredKeys(rows, Cutoff(now, days))) == Recent(rows, Cutoff(now, days))
  {
    CutoffIsAligned(now, days);
    forall r | r in rows
      ensures r.ts < Cutoff(now, days) <==> KeyOf(r) in ExpiredKeys(rows, Cutoff(now, days))
    {
      ExpiredIffKeyExpired(rows, Cutoff(now, days), r);
    }
    SurvivingIsRecent(rows, ExpiredKeys(rows, Cutoff(now, days)), Cutoff(now, days));
  }

  lemma ProvedArchive(archives: Archives, table: string, k: Key, id: string)
    requires Matching(archives, table, k) == {id}
    ensures id in archives && Covers(archives[id], table, k)
  {
    assert id in Matching(archives, table, k);
  }

  lemma ProvedIsDeletable(evidence: seq<Evidence>, tables: Tables, before: Archives, gone: set<string>, table: string,
                          keys: set<Key>)
    requires table in tables && Proves(evidence, tables[table], before, table, keys)
    requires forall id :: id in gone && id in before ==> before[id].dataset != table
    ensures Deletable(evidence, tables, Retired(before, gone), table)
  {
    forall i | 0 <= i < |evidence|
      ensures evidence[i].archive in before && Covers(before[evidence[i].archive], table, evidence[i].key)
    {
      ProvedArchive(before, table, evidence[i].key, evidence[i].archive);
    }
    forall i, j | 0 <= i < j < |evidence|
      ensures evidence[i].archive != evidence[j].archive
    {
      assert Covers(before[evidence[i].archive], table, evidence[i].key);
      assert Covers(before[evidence[j].archive], table, evidence[j].key);
      assert evidence[i].key != evidence[j].key;
    }
  }

  /** The archives used for other tables name those tables. */
  lemma {:induction false} UsedIdsAreOfTheirTables(preflight: seq<seq<Evidence>>, plan: seq<Limit>, tables: Tables,
                                                   archives: Archives, now: int, n: nat, id: string)
    requires n <= |plan| == |preflight|
    requires forall i :: 0 <= i < n ==> TableProved(preflight[i], tables, archives, plan[i], now)
    requires id in UsedIds(preflight[..n])
    ensures id in archives && exists i :: 0 <= i < n && archives[id].dataset == plan[i].table
  {
    if n > 0 {
      assert preflight[..n][..n - 1] == preflight[..n - 1];
      if id in Ids(preflight[n - 1]) {
        var e :| e in preflight[n - 1] && e.archive == id;
        ProvedArchive(archives, plan[n - 1].table, e.key, id);
        assert archives[id].dataset == plan[n - 1].table;
      } else {
        UsedIdsAreOfTheirTables(preflight, plan, tables, archives, now, n - 1, id);
      }
    }
  }

  /** The database after the deletions of the first tables of the plan. */
  predicate Purged(plan: seq<Limit>, preflight: seq<seq<Evidence>>, n: nat, now: int, tables: Tables, archives: Archives,
                   left: Tables, marked: Archives, totals: seq<nat>)
    requires n <= |plan| == |preflight|
  {
    && left.Keys == tables.Keys && |totals| == n && marked == Retired(archives, UsedIds(preflight[..n]))
    && (forall i :: 0 <= i < n ==>
          && plan[i].table in tables && left[plan[i].table] == Recent(tables[plan[i].table], Cutoff(now, plan[i].days))
          && totals[i] + |left[plan[i].table]| == |tables[plan[i].table]|)
    && (forall t :: t in tables && (forall i :: 0 <= i < n ==> plan[i].table != t) ==> left[t] == tables[t])
  }

  lemma NextTableDeletable(plan: seq<Limit>, preflight: seq<seq<Evidence>>, n: nat, now: int, tables: Tables,
                           archives: Archives, left: Tables, marked: Archives, totals: seq<nat>)
    requires n < |plan| == |preflight| && DistinctTables(plan)
    requires forall i :: 0 <= i < |plan| ==> TableProved(preflight[i], tables, archives, plan[i], now)
    requires Purged(plan, preflight, n, now, tables, archives, left, marked, totals)
    ensures plan[n].table in left && plan[n].table in tables && left[plan[n].table] == tables[plan[n].table]
    ensures Deletable(preflight[n], left, marked, plan[n].table)
  {
    var gone := UsedIds(preflight[..n]);
    forall id | id in gone && id in archives
      ensures archives[id].dataset != plan[n].table
    {
      UsedIdsAreOfTheirTables(preflight, plan, tables, archives, now, n, id);
    }
    assert TableProved(preflight[n], tables, archives, plan[n], now);
    var keys := ExpiredKeys(tables[plan[n].table], Cutoff(now, plan[n].days));
    ProvedIsDeletable(preflight[n], left, archives, gone, plan[n].table, keys);
  }

  lemma NextTablePurged(plan: seq<Limit>, preflight: seq<seq<Evidence>>, n: nat, now: int, tables: Tables,
                        archives: Archives, left: Tables, marked: Archives, totals: seq<nat>, rows: seq<Row>,
                        marked': Archives, total: nat)
    requires n < |plan| == |preflight| && DistinctTables(plan) && plan[n].table in tables
    requires forall i :: 0 <= i < |plan| ==> TableProved(preflight[i], tables, archives, plan[i], now)
    requires Purged(plan, preflight, n, now, tables, archives, left, marked, totals)
    requires DeletedSoFar(preflight[n], |preflight[n]|, tables[plan[n].table], marked, rows, marked', total)
    ensures Purged(plan, preflight, n + 1, now, tables, archives, left[plan[n].table := rows], marked', totals + [total])
  {
    var table := plan[n].table;
    assert preflight[n][..|preflight[n]|] == preflight[n];
    assert TableProved(preflight[n], tables, archives, plan[n], now);
    ExpiredGone(tables[table], now, plan[n].days);
    assert preflight[..n + 1][..n] == preflight[..n];
    RetiredTwice(archives, UsedIds(preflight[..n]), Ids(preflight[n]));
  }

  lemma {:induction false} UsedIdsMeaning(preflight: seq<seq<Evidence>>, plan: seq<Limit>, tables: Tables,
                                          archives: Archives, now: int, n: nat, id: string)
    requires n <= |plan| == |preflight|
    requires forall i :: 0 <= i < n ==> TableProved(preflight[i], tables, archives, plan[i], now)
    ensures id in UsedIds(preflight[..n]) <==> CoversExpired(tables, archives, plan, n, now, id)
  {
    if n > 0 {
      assert preflight[..n][..n - 1] == preflight[..n - 1];
      UsedIdsMeaning(preflight, plan, tables, archives, now, n - 1, id);
      LastIdsMeaning(preflight[n - 1], tables, archives, plan[n - 1], now, id);
      if CoversExpired(tables, archives, plan, n - 1, now, id) {
        var i, k :| 0 <= i < n - 1 && plan[i].table in tables
                    && k in ExpiredKeys(tables[plan[i].table], Cutoff(now, plan[i].days))
                    && Matching(archives, plan[i].table, k) == {id};
        assert CoversExpired(tables, archives, plan, n, now, id);
      }
    }
  }

  lemma LastIdsMeaning(evidence: seq<Evidence>, tables: Tables, archives: Archives, limit: Limit, now: int, id: string)
    requires TableProved(evidence, tables, archives, limit, now)
    ensures id in Ids(evidence) <==>
            exists k :: k in ExpiredKeys(tables[limit.table], Cutoff(now, limit.days)) && Matching(archives, limit.table, k) == {id}
  {
    var keys := ExpiredKeys(tables[limit.table], Cutoff(now, limit.days));
    if id in Ids(evidence) {
      var e :| e in evidence && e.archive == id;
      assert e.key in Keys(evidence);
    }
    if k :| k in keys && Matching(archives, limit.table, k) == {id} {
      assert k in Keys(evidence);
      var e :| e in evidence && e.key == k;
      assert id in {e.archive};
    }
  }

  /** What a commit leaves: only recent rows in the planned tables, in order, and the counts of the rows that
      went; an archive marked deleted exactly when it was the one of some expired partition of a planned
      table; everything else as it was. */
  predicate Committed(plan: seq<Limit>, now: int, tables: Tables, archives: Archives, left: Tables, marked: Archives,
                      totals: seq<nat>)
  {
    && left.Keys == tables.Keys && |totals| == |plan|
    && (forall i :: 0 <= i < |plan| ==>
          && plan[i].table in tables && left[plan[i].table] == Recent(tables[plan[i].table], Cutoff(now, plan[i].days))
          && totals[i] + |left[plan[i].table]| == |tables[plan[i].table]|)
    && (forall t :: t in tables && (forall i :: 0 <= i < |plan| ==> plan[i].table != t) ==> left[t] == tables[t])
    && marked.Keys == archives.Keys
    && (forall id :: id in archives ==>
          marked[id] == if CoversExpired(tables, archives, plan, |plan|, now, id)
                        then archives[id].(state := ArchiveState.Deleted) else archives[id])
  }

  lemma PurgedIsCommitted(plan: seq<Limit>, preflight: seq<seq<Evidence>>, now: int, tables: Tables, archives: Archives,
                          left: Tables, marked: Archives, totals: seq<nat>)
    requires |plan| == |preflight|
    requires forall i :: 0 <= i < |plan| ==> TableProved(preflight[i], tables, archives, plan[i], now)
    requires Purged(plan, preflight, |plan|, now, tables, archives, left, marked, totals)
    ensures Committed(plan, now, tables, archives, left, marked, totals)
  {
    assert preflight[..|plan|] == preflight;
    forall id | id in archives
      ensures id in UsedIds(preflight) <==> CoversExpired(tables, archives, plan, |plan|, now, id)
    {
      UsedIdsMeaning(preflight, plan, tables, archives, now, |plan|, id);
    }
  }

  /** The deletions of every table, one after the other. */
  method DeleteAll(db: Database, plan: seq<Limit>, now: int, preflight: seq<seq<Evidence>>) returns (totals: Option<seq<nat>>)
    requires DistinctTables(plan) && AllProved(preflight, db.tables, db.archives, plan, now)
    modifies db`issued, db`tables, db`archives
    ensures old(db.issued) <= db.issued
    ensures totals.Some? <==> db.NoneFailedSince(old(db.issued))
    ensures totals.Some? ==>
              Committed(plan, now, old(db.tables), old(db.archives), db.tables, db.archives, totals.value)
  {
    ghost var tables, archives := db.tables, db.archives;
    var sums: seq<nat> := [];
    assert Retired(archives, {}) == archives;
    for i := 0 to |plan|
      invariant old(db.issued) <= db.issued && db.NoneFailedSince(old(db.issued))
      invariant Purged(plan, preflight, i, now, tables, archives, db.tables, db.archives, sums)
    {
      NextTableDeletable(plan, preflight, i, now, tables, archives, db.tables, db.archives, sums);
      ghost var left, marked := db.tables, db.archives;
      var total := DeletePreflighted(db, plan[i].table, preflight[i]);
      if total.None? {
        return None;
      }
      NextTablePurged(plan, preflight, i, now, tables, archives, left, marked, sums, db.tables[plan[i].table],
                      db.archives, total.value);
      sums := sums + [total.value];
    }
    PurgedIsCommitted(plan, preflight, now, tables, archives, db.tables, db.archives, sums);
    return Some(sums);
  }

  /** `_run_apply`: one transaction over all tables. It commits exactly when every expired partition of every
      table has its archive and no statement fails, the commit included; then only recent rows are left, each
      archive used is marked deleted, and the reported counts are the rows that went. Otherwise, even when it
      fails between two deletions, nothing has changed at all. */
  method RunApply(db: Database, plan: seq<Limit>, now: int, verified: Verifier) returns (deleted: Option<seq<nat>>)
    requires DistinctTables(plan)
    modifies db
    ensures old(db.issued) <= db.issued
    ensures deleted.Some? <==>
              AllReady(old(db.tables), old(db.archives), plan, now, verified) && db.NoneFailedSince(old(db.issued))
    ensures deleted.Some? ==>
              Committed(plan, now, old(db.tables), old(db.archives), db.tables, db.archives, deleted.value)
    ensures deleted.None? ==> db.tables == old(db.tables) && db.archives == old(db.archives)
  {
    db.Begin();
    var preflight := PreflightAll(db, plan, now, verified);
    if preflight.None? {
      return None;
    }
    var totals := DeleteAll(db, plan, now, preflight.value);
    if totals.None? {
      db.Rollback();
      return None;
    }
    var committed := db.Query();
    if !committed {
      db.Rollback();
      return None;
    }
    return totals;
  }
}
