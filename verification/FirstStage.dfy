/** The first preflight stage: the decision, the evidence it writes, and its re-validation by the next stage. */
module FirstStage {
  import opened Json
  import opened Durables
  import opened Evidence
  import opened Collections
  import opened Inventory

  const PRESERVED := "existing_container_preserved"
  const FRESH := "proven_fresh_install"

  datatype Manifest = Manifest(streams: Json, sha256: string)

  datatype TargetStatus = TargetBlocked | ProvisioningRequired | Matched

  /** Streams are named by their evidence keys; of a drifted stream only the name is kept. */
  datatype Compliance = Compliance(
    status: TargetStatus, targetSha: string, expectedNames: set<Key>, actualNames: set<Key>,
    missingNames: set<Key>, unexpectedNames: set<Key>, drift: set<Key>)

  // ------------------------------------------------------------------ the stream target

  function ConfigOf(row: Json): Json
  {
    ViewRow(row).immutable
  }

  function Drifted(target: map<Key, Json>, actual: map<Key, Json>): set<Key>
  {
    set k | k in target && k in actual && !PyEq(ConfigOf(target[k]), ConfigOf(actual[k]))
  }

  /** `evaluate_stream_target` on indexed rows. */
  function JudgeTarget(target: map<Key, Json>, actual: map<Key, Json>, targetSha: string, mode: string,
                       requireFreshEmpty: bool): Compliance
  {
    var missing, unexpected := target.Keys - actual.Keys, actual.Keys - target.Keys;
    var drift := Drifted(target, actual);
    var blocked := unexpected != {} || drift != {} || (requireFreshEmpty && mode == FRESH && actual.Keys != {});
    Compliance(if blocked then TargetBlocked else if missing != {} then ProvisioningRequired else Matched,
               targetSha, target.Keys, actual.Keys, missing, unexpected, drift)
  }

  function EvaluateTarget(actual: seq<Json>, manifest: Manifest, mode: string, requireFreshEmpty: bool)
    : Result<Compliance, EvidenceError>
  {
    if !manifest.streams.JArr? then Err(TargetManifest) else
      var target := IndexedRows(manifest.streams, StreamRows);
      var observed := IndexedRows(JArr(actual), StreamRows);
      if target.Err? then Err(target.error)
      else if observed.Err? then Err(observed.error)
      else if exists k :: k in Drifted(target.value, observed.value)
                       && !(IsMapping(ConfigOf(target.value[k])) && IsMapping(ConfigOf(observed.value[k]))) then
        Err(Malformed)
      else Ok(JudgeTarget(target.value, observed.value, manifest.sha256, mode, requireFreshEmpty))
  }

  /** A target that does not block: every stream there is was declared with the very same settings, and a
      fresh volume holds none. */
  lemma TargetMeaning(target: map<Key, Json>, actual: map<Key, Json>, sha: string, mode: string, strict: bool)
    ensures var c := JudgeTarget(target, actual, sha, mode, strict);
      && (c.status != TargetBlocked <==>
            (forall k :: k in actual ==> k in target && PyEq(ConfigOf(target[k]), ConfigOf(actual[k])))
            && (strict && mode == FRESH ==> actual == map[]))
      && (c.status == Matched <==> c.status != TargetBlocked && actual.Keys == target.Keys)
  {
    var c := JudgeTarget(target, actual, sha, mode, strict);
    if forall k :: k in actual ==> k in target && PyEq(ConfigOf(target[k]), ConfigOf(actual[k])) {
      assert c.unexpectedNames == {} && c.drift == {};
    } else {
      var k :| k in actual && !(k in target && PyEq(ConfigOf(target[k]), ConfigOf(actual[k])));
      assert k in c.unexpectedNames || k in c.drift;
    }
    assert actual.Keys == {} <==> actual == map[];
    assert actual.Keys == target.Keys ==> c.missingNames == {};
    if c.missingNames == {} && c.unexpectedNames == {} {
      assert forall k :: k in target.Keys ==> k in actual.Keys || k in c.missingNames;
      assert forall k :: k in actual.Keys ==> k in target.Keys || k in c.unexpectedNames;
      assert actual.Keys == target.Keys;
    }
  }

  // ------------------------------------------------------------------------ the evidence

  datatype Query = Query(
    complete: bool, streamsScanned: int, consumersScanned: int, declared: int, events: int, nonEvents: int, streams: int)

  datatype Payload = Payload(
    query: Query, durables: Json, streams: Json, unexpected: seq<ConsumerState>, missing: set<string>,
    blockerClasses: set<string>, manifest: Manifest, compliance: Compliance)

  datatype StageStatus = Passed | StageBlocked | Invalidated

  function StreamRow(s: CriticalStream): Json
  {
    JStreamRow(
      identity := JStreamName(JStr(s.name)),
      created := JStr(s.created),
      immutable := JStreamConfig(s.settings),
      state := JStreamState(JInt(s.messages), JInt(s.bytes), JInt(s.firstSeq), JInt(s.lastSeq), JInt(s.consumerCount),
                            JArr(seq(|s.deleted|, i requires 0 <= i < |s.deleted| => JInt(s.deleted[i]))),
                            JInt(s.numDeleted)))
  }

  /** `build_critical_stream_rows` */
  function StreamRowsOf(streams: seq<CriticalStream>): seq<Json>
  {
    seq(|streams|, i requires 0 <= i < |streams| => StreamRow(streams[i]))
  }

  function CountSemantics(rows: seq<Json>, wanted: set<string>): nat
  {
    if rows == [] then 0 else
      var semantics := ViewIdentity(ViewRow(rows[|rows| - 1]).identity).semantics;
      CountSemantics(rows[..|rows| - 1], wanted) + if semantics.JStr? && semantics.text in wanted then 1 else 0
  }

  function RowBlockers(rows: seq<Json>): set<string>
  {
    set i, b | 0 <= i < |rows| && rows[i].JRow? && b in ToTexts(rows[i].blockers) :: b
  }

  function BlockerClasses(rows: seq<Json>, unexpected: seq<ConsumerState>, missing: set<string>): set<string>
  {
    RowBlockers(rows)
    + (if unexpected != [] then {"consumer_owner_not_declared"} else {})
    + (if missing != {} then {"declared_consumer_missing"} else {})
  }

  datatype FirstStageResult = FirstStageResult(status: StageStatus, payload: Payload)

  /** What the decision looks at, once the broker has been read. */
  datatype Facts = Facts(
    rows: seq<Json>, unexpected: seq<ConsumerState>, missing: set<string>, streamRows: seq<Json>)

  function GatherFacts(q: QueryResult, expected: Declarations, mode: string): Facts
  {
    Facts(EvaluateExisting(q.consumers, expected), Unexpected(q.consumers, expected),
          if mode == PRESERVED then Missing(q.consumers, expected) else {}, StreamRowsOf(q.streams))
  }

  /** The decision of `main` in the first stage and the evidence of `build_evidence`. */
  function Decide(q: QueryResult, expected: Declarations, manifest: Manifest, mode: string, quiescent: bool)
    : Result<FirstStageResult, EvidenceError>
  {
    var f := GatherFacts(q, expected, mode);
    var target := EvaluateTarget(f.streamRows, manifest, mode, true);
    if target.Err? then Err(target.error) else
      var blocked := AnyBlocked(f.rows) || f.unexpected != [] || f.missing != {};
      var status := if !quiescent then Invalidated
                    else if blocked || target.value.status == TargetBlocked then StageBlocked
                    else Passed;
      Ok(FirstStageResult(status, BuildPayload(q, f, manifest, target.value)))
  }

  function BuildPayload(q: QueryResult, f: Facts, manifest: Manifest, compliance: Compliance): Payload
  {
    Payload(
      query := Query(true, q.streamCount, q.consumerCount, |f.rows|, CountSemantics(f.rows, {"event"}),
                     CountSemantics(f.rows, {"snapshot", "transient"}), |f.streamRows|),
      durables := JArr(f.rows),
      streams := JArr(f.streamRows),
      unexpected := f.unexpected,
      missing := f.missing,
      blockerClasses := BlockerClasses(f.rows, f.unexpected, f.missing),
      manifest := manifest,
      compliance := compliance)
  }

  // -------------------------------------------------------------------- the re-validation

  datatype Pair = Pair(stream: string, durable: string)

  type PairIndex = map<Pair, ExpectedDurable>

  function ReadPair(row: Json): Option<Pair>
  {
    var identity := ViewIdentity(ViewRow(row).identity);
    if IsMapping(row) && IsMapping(ViewRow(row).identity) && identity.stream.JStr? && identity.durable.JStr?
    then Some(Pair(identity.stream.text, identity.durable.text)) else None
  }

  /** One iteration of the validator's loop, up to the point where the row is accepted. */
  function ScanRow(row: Json, seen: set<Pair>, byPair: PairIndex, env: Environment): Result<Pair, EvidenceError>
  {
    var pair := ReadPair(row);
    if pair.None? || pair.value in seen || pair.value !in byPair then Err(Malformed)
    else
      var canonical := Recompute(row, byPair[pair.value], env);
      if canonical.Err? then Err(canonical.error)
      else if canonical.value.status == JStr("BLOCKED") || canonical.value.blockers != JArr([]) then Err(NotPassed)
      else Ok(pair.value)
  }

  type RowScanner = (Json, set<Pair>) -> Result<Pair, EvidenceError>

  function Scanner(byPair: PairIndex, env: Environment): RowScanner
  {
    (row, seen) => ScanRow(row, seen, byPair, env)
  }

  /** The pairs of the accepted rows, in order. */
  function Scan(rows: seq<Json>, scan: RowScanner): Result<seq<Pair>, EvidenceError>
  {
    if rows == [] then Ok([]) else
      var before := Scan(rows[..|rows| - 1], scan);
      if before.Err? then before else
        var pair := scan(rows[|rows| - 1], set p | p in before.value);
        if pair.Err? then Err(pair.error) else Ok(before.value + [pair.value])
  }

  function PairOf(e: ExpectedDurable): Pair
  {
    Pair(e.stream, e.durable)
  }

  function PairsExpected(expected: Declarations): PairIndex
    requires DeclarationsWf(expected)
  {
    var pairs := set d | d in expected :: PairOf(expected[d]);
    map p | p in pairs :: expected[p.durable]
  }

  function StreamsIn(pairs: seq<Pair>): seq<string>
  {
    seq(|pairs|, i requires 0 <= i < |pairs| => pairs[i].stream)
  }

  predicate PopulationFits(pairs: seq<Pair>, byPair: PairIndex, mode: string)
  {
    || (mode == PRESERVED && (forall p :: p in byPair ==> p in pairs))
    || (mode == FRESH && pairs == [])
  }

  predicate CounterFits(key: Key, row: Json, names: seq<string>)
  {
    var state := ViewRow(row).state;
    && IsMapping(state) && IsRowInteger(ViewState(state).consumerCount) && |key| == 1
    && ViewState(state).consumerCount.num == multiset(names)[key[0]]
  }

  predicate CountersFit(streams: Json, names: seq<string>)
  {
    var index := IndexedRows(streams, StreamRows);
    index.Ok? && forall k :: k in index.value ==> CounterFits(k, index.value[k], names)
  }

  predicate QueryFits(p: Payload, pairs: seq<Pair>)
    requires p.durables.JArr? && p.streams.JArr?
  {
    var events := CountSemantics(p.durables.items, {"event"});
    p.query == Query(true, |p.streams.items|, |pairs|, |pairs|, events, |pairs| - events, |p.streams.items|)
  }

  predicate TargetFits(p: Payload, mode: string, sha: Json -> string)
    requires p.streams.JArr?
  {
    var target := EvaluateTarget(p.streams.items, p.manifest, mode, true);
    && p.manifest.streams.JArr? && p.manifest.sha256 == sha(p.manifest.streams)
    && target.Ok? && target.value.status != TargetBlocked && target.value == p.compliance
  }

  predicate Shaped(p: Payload)
  {
    p.durables.JArr? && p.streams.JArr? && p.unexpected == [] && p.missing == {} && p.blockerClasses == {}
  }

  /** What the re-validation asks of a payload. */
  predicate Accepts(p: Payload, mode: string, expected: Declarations, env: Environment, sha: Json -> string)
    requires DeclarationsWf(expected)
  {
    && Shaped(p)
    && var pairs := Scan(p.durables.items, Scanner(PairsExpected(expected), env));
    && pairs.Ok? && PopulationFits(pairs.value, PairsExpected(expected), mode)
    && QueryFits(p, pairs.value) && CountersFit(p.streams, StreamsIn(pairs.value)) && TargetFits(p, mode, sha)
  }

  lemma {:induction false} ScanFailsFrom(rows: seq<Json>, n: nat, scan: RowScanner)
    requires n <= |rows| && Scan(rows[..n], scan).Err?
    ensures Scan(rows, scan) == Scan(rows[..n], scan)
    decreases |rows|
  {
    if n == |rows| {
      assert rows[..n] == rows;
    } else {
      assert rows[..|rows| - 1][..n] == rows[..n];
      ScanFailsFrom(rows[..|rows| - 1], n, scan);
    }
  }

  datatype Tally = Tally(pairs: set<Pair>, count: nat, events: nat, byStream: map<string, nat>)

  ghost predicate TallyOf(t: Tally, pairs: seq<Pair>, rows: seq<Json>)
  {
    && t.pairs == (set p | p in pairs) && t.count == |pairs| == |rows| && t.events == CountSemantics(rows, {"event"})
    && Tallies(t.byStream, StreamsIn(pairs))
  }

  method ScanRows(rows: seq<Json>, scan: RowScanner) returns (result: Result<Tally, EvidenceError>)
    ensures var scanned := Scan(rows, scan);
      && (result.Ok? <==> scanned.Ok?)
      && (scanned.Ok? ==> TallyOf(result.value, scanned.value, rows))
      && (scanned.Err? ==> result.error == scanned.error)
  {
    var t := Tally({}, 0, 0, map[]);
    ghost var pairs: seq<Pair> := [];
    for i := 0 to |rows|
      invariant Scan(rows[..i], scan) == Ok(pairs)
      invariant TallyOf(t, pairs, rows[..i])
    {
      assert rows[..i + 1] == rows[..i] + [rows[i]];
      assert rows[..i + 1][..i] == rows[..i];
      var pair := scan(rows[i], t.pairs);
      if pair.Err? {
        ScanFailsFrom(rows, i + 1, scan);
        return Err(pair.error);
      }
      RecordedTallies(pairs, rows[..i], pair.value, rows[i]);
      t := Recorded(t, pair.value, rows[i]);
      pairs := pairs + [pair.value];
    }
    assert rows[..|rows|] == rows;
    return Ok(t);
  }

  function Recorded(t: Tally, pair: Pair, row: Json): Tally
  {
    Tally(t.pairs + {pair}, t.count + 1,
          t.events + if ViewIdentity(ViewRow(row).identity).semantics == JStr("event") then 1 else 0,
          t.byStream[pair.stream := (if pair.stream in t.byStream then t.byStream[pair.stream] else 0) + 1])
  }

  lemma RecordedTallies(pairs: seq<Pair>, rows: seq<Json>, pair: Pair, row: Json)
    ensures forall t :: TallyOf(t, pairs, rows) ==> TallyOf(Recorded(t, pair, row), pairs + [pair], rows + [row])
  {
    assert StreamsIn(pairs + [pair]) == StreamsIn(pairs) + [pair.stream];
    assert (rows + [row])[..|rows|] == rows;
  }

  method CheckCounters(index: map<Key, Json>, byStream: map<string, nat>, ghost names: seq<string>) returns (ok: bool)
    requires Tallies(byStream, names)
    ensures ok <==> forall k :: k in index ==> CounterFits(k, index[k], names)
  {
    var keys := Enumerate(index.Keys);
    for i := 0 to |keys|
      invariant forall m :: 0 <= m < |keys| ==> keys[m] in index
      invariant forall m :: 0 <= m < i ==> CounterFits(keys[m], index[keys[m]], names)
    {
      var k := keys[i];
      var state := ViewRow(index[k]).state;
      var counter := ViewState(state).consumerCount;
      if !IsMapping(state) || !IsRowInteger(counter) || |k| != 1 {
        return false;
      }
      if counter.num != if k[0] in byStream then byStream[k[0]] else 0 {
        return false;
      }
    }
    return true;
  }

  method CheckPopulation(observed: set<Pair>, byPair: PairIndex, mode: string, ghost pairs: seq<Pair>)
    returns (failure: Option<EvidenceError>)
    requires observed == (set p | p in pairs) && observed <= byPair.Keys
    ensures failure == PopulationFailure(pairs, byPair, mode)
  {
    assert pairs != [] ==> pairs[0] in observed;
    if mode == PRESERVED {
      return if observed != byPair.Keys then Some(Malformed) else None;
    } else if mode == FRESH {
      return if observed != {} then Some(Malformed) else None;
    }
    return Some(Bootstrap);
  }

  lemma ScannedWithin(rows: seq<Json>, byPair: PairIndex, env: Environment)
    requires Scan(rows, Scanner(byPair, env)).Ok?
    ensures (set p | p in Scan(rows, Scanner(byPair, env)).value) <= byPair.Keys
  {
    AllScanned(rows, byPair, env);
  }

  // The errors of the validator, in the order in which it looks.

  function PopulationFailure(pairs: seq<Pair>, byPair: PairIndex, mode: string): Option<EvidenceError>
  {
    if mode !in {PRESERVED, FRESH} then Some(Bootstrap)
    else if !PopulationFits(pairs, byPair, mode) then Some(Malformed)
    else None
  }

  function CounterFailure(streams: Json, names: seq<string>): Option<EvidenceError>
  {
    var index := IndexedRows(streams, StreamRows);
    if index.Err? then Some(index.error) else if !CountersFit(streams, names) then Some(Malformed) else None
  }

  function TargetFailure(p: Payload, mode: string, sha: Json -> string): Option<EvidenceError>
    requires p.streams.JArr?
  {
    if !p.manifest.streams.JArr? || p.manifest.sha256 != sha(p.manifest.streams) then Some(TargetManifest) else
      var target := EvaluateTarget(p.streams.items, p.manifest, mode, true);
      if target.Err? then Some(target.error)
      else if target.value.status == TargetBlocked || target.value != p.compliance then Some(TargetManifest)
      else None
  }

  function FirstStageFailure(p: Payload, mode: string, expected: Declarations, env: Environment, sha: Json -> string)
    : Option<EvidenceError>
    requires DeclarationsWf(expected)
  {
    if !p.durables.JArr? || !p.streams.JArr? then Some(Malformed)
    else if !Shaped(p) then Some(NotPassed)
    else
      var pairs := Scan(p.durables.items, Scanner(PairsExpected(expected), env));
      if pairs.Err? then Some(pairs.error) else
        var population := PopulationFailure(pairs.value, PairsExpected(expected), mode);
        var counters := CounterFailure(p.streams, StreamsIn(pairs.value));
        if population.Some? then population
        else if !QueryFits(p, pairs.value) then Some(Malformed)
        else if counters.Some? then counters
        else TargetFailure(p, mode, sha)
  }

  method CheckTarget(p: Payload, mode: string, sha: Json -> string) returns (failure: Option<EvidenceError>)
    requires p.streams.JArr?
    ensures failure == TargetFailure(p, mode, sha) && (failure.None? <==> TargetFits(p, mode, sha))
  {
    if !p.manifest.streams.JArr? || p.manifest.sha256 != sha(p.manifest.streams) {
      return Some(TargetManifest);
    }
    var target := EvaluateTarget(p.streams.items, p.manifest, mode, true);
    if target.Err? {
      return Some(target.error);
    }
    if target.value.status == TargetBlocked || target.value != p.compliance {
      return Some(TargetManifest);
    }
    return None;
  }

  /** `validate_preflight_snapshot_projection` */
  method ValidateFirstStage(p: Payload, mode: string, expected: Declarations, env: Environment, sha: Json -> string)
    returns (failure: Option<EvidenceError>)
    requires DeclarationsWf(expected)
    ensures failure.None? <==> Accepts(p, mode, expected, env, sha)
    ensures failure == FirstStageFailure(p, mode, expected, env, sha)
  {
    if !p.durables.JArr? || !p.streams.JArr? {
      return Some(Malformed);
    }
    if p.unexpected != [] || p.missing != {} || p.blockerClasses != {} {
      return Some(NotPassed);
    }
    var byPair := PairsExpected(expected);
    var scanned := ScanRows(p.durables.items, Scanner(byPair, env));
    if scanned.Err? {
      return Some(scanned.error);
    }
    var t := scanned.value;
    ghost var pairs := Scan(p.durables.items, Scanner(byPair, env)).value;
    ScannedWithin(p.durables.items, byPair, env);
    failure := CheckPopulation(t.pairs, byPair, mode, pairs);
    if failure.Some? {
      return;
    }
    if p.query != Query(true, |p.streams.items|, t.count, t.count, t.events, t.count - t.events, |p.streams.items|) {
      return Some(Malformed);
    }
    var index := IndexRows(p.streams, StreamRows);
    if index.Err? {
      return Some(index.error);
    }
    var counted := CheckCounters(index.value, t.byStream, StreamsIn(pairs));
    if !counted {
      return Some(Malformed);
    }
    failure := CheckTarget(p, mode, sha);
  }

  // --------------------------------------------------------------- producer meets validator

  predicate KnownSemantics(expected: Declarations)
  {
    forall d :: d in expected ==> expected[d].semantics in {"event", "snapshot", "transient"}
  }

  function PairsOf(consumers: seq<ConsumerState>): seq<Pair>
  {
    seq(|consumers|, i requires 0 <= i < |consumers| => Pair(StreamOf(consumers[i]), consumers[i].durable))
  }

  /** A row that is not blocked, of a consumer read from the broker, is accepted unless its pair was seen. */
  lemma UnblockedRowScans(c: ConsumerState, e: ExpectedDurable, seen: set<Pair>, byPair: PairIndex, env: Environment)
    requires ReadFromBroker(c, env) && Realises(c, e) && Classify(c, e).status != Blocked
    requires var pair := PairOf(e); pair !in seen && pair in byPair && byPair[pair] == e
    ensures ScanRow(EvaluateConsumer(c, e), seen, byPair, env) == Ok(PairOf(e))
  {
    ImageIsAccepted(c, e, env);
    UnblockedRow(c, e);
    AcceptedRowScans(EvaluateConsumer(c, e), PairOf(e), seen, byPair, env);
  }

  lemma UnblockedRow(c: ConsumerState, e: ExpectedDurable)
    requires Realises(c, e) && Classify(c, e).status != Blocked
    ensures var row := EvaluateConsumer(c, e);
            ReadPair(row) == Some(PairOf(e)) && row.status != JStr("BLOCKED") && row.blockers == JArr([])
  {
    BlockedRow(c, e);
    VerdictMeaning(c, e);
    assert EvaluateConsumer(c, e).blockers == FromTexts([]) == JArr([]);
  }

  lemma AcceptedRowScans(row: Json, pair: Pair, seen: set<Pair>, byPair: PairIndex, env: Environment)
    requires ReadPair(row) == Some(pair) && pair !in seen && pair in byPair
    requires Recompute(row, byPair[pair], env) == Ok(row) && row.JRow?
    requires row.status != JStr("BLOCKED") && row.blockers == JArr([])
    ensures ScanRow(row, seen, byPair, env) == Ok(pair)
  {
  }

  lemma {:induction false} ScanSucceeds(rows: seq<Json>, pairs: seq<Pair>, scan: RowScanner)
    requires |rows| == |pairs|
    requires forall i, j :: 0 <= i < j < |pairs| ==> pairs[i] != pairs[j]
    requires forall i, seen :: 0 <= i < |rows| && pairs[i] !in seen ==> scan(rows[i], seen) == Ok(pairs[i])
    ensures Scan(rows, scan) == Ok(pairs)
  {
    if rows == [] {
      assert pairs == [];
    } else {
      var last := |rows| - 1;
      ScanSucceeds(rows[..last], pairs[..last], scan);
      assert pairs == pairs[..last] + [pairs[last]];
    }
  }

  lemma RowsScan(consumers: seq<ConsumerState>, expected: Declarations, env: Environment)
    requires DeclarationsWf(expected) && PairsDistinct(consumers)
    requires forall c :: c in consumers ==> ReadFromBroker(c, env)
    requires Unexpected(consumers, expected) == [] && !AnyBlocked(EvaluateExisting(consumers, expected))
    ensures Scan(EvaluateExisting(consumers, expected), Scanner(PairsExpected(expected), env)) == Ok(PairsOf(consumers))
  {
    var rows, pairs := EvaluateExisting(consumers, expected), PairsOf(consumers);
    var byPair := PairsExpected(expected);
    RowsCorrespond(consumers, expected, EvaluateConsumer);
    forall i, seen | 0 <= i < |rows| && pairs[i] !in seen
      ensures Scanner(byPair, env)(rows[i], seen) == Ok(pairs[i])
    {
      RowScans(consumers, expected, env, i, seen);
    }
    ScanSucceeds(rows, pairs, Scanner(byPair, env));
  }

  lemma RowScans(consumers: seq<ConsumerState>, expected: Declarations, env: Environment, i: nat, seen: set<Pair>)
    requires DeclarationsWf(expected) && i < |consumers| && ReadFromBroker(consumers[i], env)
    requires Unexpected(consumers, expected) == [] && !AnyBlocked(EvaluateExisting(consumers, expected))
    requires PairsOf(consumers)[i] !in seen
    ensures i < |EvaluateExisting(consumers, expected)|
    ensures ScanRow(EvaluateExisting(consumers, expected)[i], seen, PairsExpected(expected), env)
            == Ok(PairsOf(consumers)[i])
  {
    UnblockedRealises(consumers, expected, i);
    UnblockedVerdict(consumers, expected, i);
    var c := consumers[i];
    var e := expected[c.durable];
    assert PairsExpected(expected)[PairOf(e)] == e;
    UnblockedRowScans(c, e, seen, PairsExpected(expected), env);
  }

  lemma UnblockedVerdict(consumers: seq<ConsumerState>, expected: Declarations, i: nat)
    requires i < |consumers| && Unexpected(consumers, expected) == []
    requires !AnyBlocked(EvaluateExisting(consumers, expected))
    ensures i < |EvaluateExisting(consumers, expected)| && consumers[i].durable in expected
    ensures var e := expected[consumers[i].durable];
            Classify(consumers[i], e).status != Blocked && EvaluateExisting(consumers, expected)[i] == EvaluateConsumer(consumers[i], e)
  {
    RowsCorrespond(consumers, expected, EvaluateConsumer);
    var row := EvaluateExisting(consumers, expected)[i];
    assert row.JRow? && row.status != JStr("BLOCKED");
    BlockedRow(consumers[i], expected[consumers[i].durable]);
  }

  /** Stream rows are indexed under their names, and their counters count the pairs found on them. */
  lemma CountersAreRight(q: QueryResult)
    requires ProjectionOk(q) && IndexedRows(JArr(StreamRowsOf(q.streams)), StreamRows).Ok?
    ensures CountersFit(JArr(StreamRowsOf(q.streams)), StreamNames(q.consumers))
  {
    var rows, keyOf := StreamRowsOf(q.streams), KeyReaderFor(StreamRows);
    var good := (k: Key, row: Json) => CounterFits(k, row, StreamNames(q.consumers));
    forall i | 0 <= i < |rows| && keyOf(rows[i]).Ok?
      ensures good(keyOf(rows[i]).value, rows[i])
    {
      assert q.streams[i].consumerCount == CountFor(q.consumers, q.streams[i].name);
      StreamRowFits(q.streams[i], StreamNames(q.consumers));
    }
    IndexedSatisfy(rows, keyOf, Index(rows, keyOf).value, good);
  }

  lemma StreamRowFits(s: CriticalStream, names: seq<string>)
    requires RowKey(StreamRow(s), StreamRows).Ok? && s.consumerCount == multiset(names)[s.name]
    ensures CounterFits(RowKey(StreamRow(s), StreamRows).value, StreamRow(s), names)
  {
    assert RowKey(StreamRow(s), StreamRows).value == [s.name];
  }

  lemma {:induction false} SemanticsAddUp(rows: seq<Json>)
    requires forall i :: 0 <= i < |rows| ==>
               ViewIdentity(ViewRow(rows[i]).identity).semantics in {JStr("event"), JStr("snapshot"), JStr("transient")}
    ensures CountSemantics(rows, {"event"}) + CountSemantics(rows, {"snapshot", "transient"}) == |rows|
  {
    if rows != [] {
      SemanticsAddUp(rows[..|rows| - 1]);
    }
  }

  predicate Consistent(q: QueryResult, expected: Declarations, manifest: Manifest, env: Environment, sha: Json -> string)
  {
    && DeclarationsWf(expected) && KnownSemantics(expected) && manifest.sha256 == sha(manifest.streams)
    && ProjectionOk(q) && PairsDistinct(q.consumers) && (forall c :: c in q.consumers ==> ReadFromBroker(c, env))
  }

  lemma BlockedRowsLeaveBlockers(consumers: seq<ConsumerState>, expected: Declarations)
    requires Unexpected(consumers, expected) == []
    ensures AnyBlocked(EvaluateExisting(consumers, expected)) <==> RowBlockers(EvaluateExisting(consumers, expected)) != {}
  {
    var rows := EvaluateExisting(consumers, expected);
    RowsCorrespond(consumers, expected, EvaluateConsumer);
    forall i | 0 <= i < |rows|
      ensures BlockersShow(rows[i])
    {
      RowBlockersShow(consumers[i], expected[consumers[i].durable]);
    }
    BlockersShowForAll(rows);
  }

  predicate BlockersShow(row: Json)
  {
    row.JRow? && (row.status == JStr("BLOCKED") <==> ToTexts(row.blockers) != [])
  }

  lemma BlockersShowForAll(rows: seq<Json>)
    requires forall i :: 0 <= i < |rows| ==> BlockersShow(rows[i])
    ensures AnyBlocked(rows) <==> RowBlockers(rows) != {}
  {
    if AnyBlocked(rows) {
      var i :| 0 <= i < |rows| && rows[i].JRow? && rows[i].status == JStr("BLOCKED");
      assert BlockersShow(rows[i]);
      var b := ToTexts(rows[i].blockers)[0];
      assert b in ToTexts(rows[i].blockers);
      assert b in RowBlockers(rows);
    }
    if RowBlockers(rows) != {} {
      var b :| b in RowBlockers(rows);
      var i :| 0 <= i < |rows| && rows[i].JRow? && b in ToTexts(rows[i].blockers);
      assert BlockersShow(rows[i]);
    }
  }

  lemma RowBlockersShow(c: ConsumerState, e: ExpectedDurable)
    ensures BlockersShow(EvaluateConsumer(c, e))
  {
    BlockedRow(c, e);
    VerdictMeaning(c, e);
    assert ToTexts(FromTexts(Classify(c, e).blockers)) == Classify(c, e).blockers;
  }

  /** In a quiescent first stage the evidence written as passed is exactly the evidence the second stage
      accepts, whether the installation was preserved or fresh. */
  lemma PassedIffAccepted(q: QueryResult, expected: Declarations, manifest: Manifest, mode: string, env: Environment,
                          sha: Json -> string)
    requires Consistent(q, expected, manifest, env, sha) && mode in {PRESERVED, FRESH}
    requires Decide(q, expected, manifest, mode, true).Ok?
    ensures var r := Decide(q, expected, manifest, mode, true).value;
            r.status == Passed <==> Accepts(r.payload, mode, expected, env, sha)
  {
    var r := Decide(q, expected, manifest, mode, true).value;
    if r.status == Passed {
      PassedIsAccepted(q, expected, manifest, mode, env, sha);
    }
    if Accepts(r.payload, mode, expected, env, sha) {
      BlockedRowsLeaveBlockers(q.consumers, expected);
    }
  }

  predicate Passes(q: QueryResult, expected: Declarations, manifest: Manifest, mode: string)
  {
    && Unexpected(q.consumers, expected) == [] && !AnyBlocked(EvaluateExisting(q.consumers, expected))
    && (mode == PRESERVED ==> Missing(q.consumers, expected) == {})
    && var target := EvaluateTarget(StreamRowsOf(q.streams), manifest, mode, true);
       target.Ok? && target.value.status != TargetBlocked
  }

  lemma PassedIsAccepted(q: QueryResult, expected: Declarations, manifest: Manifest, mode: string, env: Environment,
                         sha: Json -> string)
    requires Consistent(q, expected, manifest, env, sha) && mode in {PRESERVED, FRESH}
    requires Passes(q, expected, manifest, mode)
    ensures var compliance := EvaluateTarget(StreamRowsOf(q.streams), manifest, mode, true).value;
            Accepts(BuildPayload(q, GatherFacts(q, expected, mode), manifest, compliance), mode, expected, env, sha)
  {
    var compliance := EvaluateTarget(StreamRowsOf(q.streams), manifest, mode, true).value;
    var p := BuildPayload(q, GatherFacts(q, expected, mode), manifest, compliance);
    PassedCounts(q, expected, manifest, mode, compliance);
    RowsScan(q.consumers, expected, env);
    PassedPopulation(q, expected, manifest, mode);
    CountersAreRight(q);
    PassedTarget(p, mode, sha);
    StreamsInPairs(q.consumers);
    PartsAccept(p, PairsOf(q.consumers), mode, expected, env, sha);
  }

  lemma StreamsInPairs(consumers: seq<ConsumerState>)
    ensures StreamsIn(PairsOf(consumers)) == StreamNames(consumers)
  {
  }

  lemma PartsAccept(p: Payload, pairs: seq<Pair>, mode: string, expected: Declarations, env: Environment, sha: Json -> string)
    requires DeclarationsWf(expected) && Shaped(p) && QueryFits(p, pairs)
    requires Scan(p.durables.items, Scanner(PairsExpected(expected), env)) == Ok(pairs)
    requires PopulationFits(pairs, PairsExpected(expected), mode)
    requires CountersFit(p.streams, StreamsIn(pairs)) && TargetFits(p, mode, sha)
    ensures Accepts(p, mode, expected, env, sha)
  {
  }

  lemma PassedTarget(p: Payload, mode: string, sha: Json -> string)
    requires p.streams.JArr? && p.manifest.sha256 == sha(p.manifest.streams)
    requires var target := EvaluateTarget(p.streams.items, p.manifest, mode, true);
             target.Ok? && target.value.status != TargetBlocked && target.value == p.compliance
    ensures TargetFits(p, mode, sha)
  {
  }

  lemma PassedCounts(q: QueryResult, expected: Declarations, manifest: Manifest, mode: string, compliance: Compliance)
    requires DeclarationsWf(expected) && KnownSemantics(expected) && ProjectionOk(q)
    requires Unexpected(q.consumers, expected) == [] && !AnyBlocked(EvaluateExisting(q.consumers, expected))
    requires mode == PRESERVED ==> Missing(q.consumers, expected) == {}
    ensures var p := BuildPayload(q, GatherFacts(q, expected, mode), manifest, compliance);
            Shaped(p) && QueryFits(p, PairsOf(q.consumers))
  {
    BlockedRowsLeaveBlockers(q.consumers, expected);
    RowSemantics(q.consumers, expected);
  }

  lemma RowSemantics(consumers: seq<ConsumerState>, expected: Declarations)
    requires KnownSemantics(expected) && Unexpected(consumers, expected) == []
    ensures var rows := EvaluateExisting(consumers, expected);
            |rows| == |consumers|
            && CountSemantics(rows, {"event"}) + CountSemantics(rows, {"snapshot", "transient"}) == |rows|
  {
    forall c, e
      ensures ViewIdentity(ViewRow(EvaluateConsumer(c, e)).identity).semantics == JStr(e.semantics)
    {
    }
    WrittenSemantics(consumers, expected, EvaluateConsumer);
  }

  lemma WrittenSemantics(consumers: seq<ConsumerState>, expected: Declarations, write: Evaluator)
    requires KnownSemantics(expected) && Unexpected(consumers, expected) == []
    requires forall c, e :: ViewIdentity(ViewRow(write(c, e)).identity).semantics == JStr(e.semantics)
    ensures var rows := EvaluateWith(consumers, expected, write);
            |rows| == |consumers|
            && CountSemantics(rows, {"event"}) + CountSemantics(rows, {"snapshot", "transient"}) == |rows|
  {
    RowsCorrespond(consumers, expected, write);
    SemanticsAddUp(EvaluateWith(consumers, expected, write));
  }

  lemma PassedPopulation(q: QueryResult, expected: Declarations, manifest: Manifest, mode: string)
    requires DeclarationsWf(expected) && ProjectionOk(q) && PairsDistinct(q.consumers) && mode in {PRESERVED, FRESH}
    requires Passes(q, expected, manifest, mode)
    ensures PopulationFits(PairsOf(q.consumers), PairsExpected(expected), mode)
  {
    if mode == FRESH {
      FreshIsEmpty(q, manifest);
    } else {
      OwnershipIsBijective(q.consumers, expected);
      EveryPairObserved(q.consumers, expected);
    }
  }

  lemma EveryPairObserved(consumers: seq<ConsumerState>, expected: Declarations)
    requires DeclarationsWf(expected) && EachObserved(consumers, expected)
    ensures forall p :: p in PairsExpected(expected) ==> p in PairsOf(consumers)
  {
    forall p | p in PairsExpected(expected)
      ensures p in PairsOf(consumers)
    {
      var i :| 0 <= i < |consumers| && Realises(consumers[i], expected[p.durable]);
      assert PairsOf(consumers)[i] == p;
    }
  }

  /** A fresh installation passes only with no stream, and so no consumer, at all. */
  lemma FreshIsEmpty(q: QueryResult, manifest: Manifest)
    requires ProjectionOk(q)
    requires var t := EvaluateTarget(StreamRowsOf(q.streams), manifest, FRESH, true); t.Ok? && t.value.status != TargetBlocked
    ensures q.streams == [] && q.consumers == []
  {
    assert q.consumers != [] ==> StreamOf(q.consumers[0]) in NamesOf(q.streams);
    FreshHasNoRows(StreamRowsOf(q.streams), manifest);
    assert NamesOf(q.streams) == {};
  }

  lemma FreshHasNoRows(rows: seq<Json>, manifest: Manifest)
    requires var t := EvaluateTarget(rows, manifest, FRESH, true); t.Ok? && t.value.status != TargetBlocked
    ensures rows == []
  {
    var index := IndexedRows(JArr(rows), StreamRows).value;
    assert index.Keys == {};
    IndexedSatisfy(rows, KeyReaderFor(StreamRows), index, (k, row) => true);
  }

  predicate RowStandsFor(row: Json, e: ExpectedDurable, env: Environment)
  {
    Recompute(row, e, env).Ok? && Classify(Reconstruct(row, e), e).status != Blocked
  }

  type Standing = (Json, ExpectedDurable) -> bool

  function StandsFor(env: Environment): Standing
  {
    (row, e) => RowStandsFor(row, e, env)
  }

  /** Accepted evidence of a preserved installation, wherever it came from: its rows and the declarations
      correspond one to one, and every row carries the verdict of a consumer that is not blocked. */
  lemma AcceptedIsComplete(p: Payload, expected: Declarations, env: Environment, sha: Json -> string)
    requires DeclarationsWf(expected) && Accepts(p, PRESERVED, expected, env, sha)
    ensures |p.durables.items| == |expected|
    ensures Matching(p.durables.items, expected, StandsFor(env))
  {
    var byPair := PairsExpected(expected);
    AllScanned(p.durables.items, byPair, env);
    ScannedRowsMatch(p.durables.items, Scan(p.durables.items, Scanner(byPair, env)).value, expected, StandsFor(env));
  }

  lemma AllScanned(rows: seq<Json>, byPair: PairIndex, env: Environment)
    requires Scan(rows, Scanner(byPair, env)).Ok?
    ensures Paired(rows, Scan(rows, Scanner(byPair, env)).value, byPair, StandsFor(env))
  {
    var scan, stands := Scanner(byPair, env), StandsFor(env);
    forall row, seen | scan(row, seen).Ok?
      ensures var pair := scan(row, seen).value; pair !in seen && pair in byPair && stands(row, byPair[pair])
    {
      ScannedRow(row, seen, byPair, env);
    }
    ScannedRows(rows, byPair, scan, stands);
  }

  predicate Matching(rows: seq<Json>, expected: Declarations, stands: Standing)
  {
    && (forall i :: 0 <= i < |rows| ==> HasDeclaration(rows[i], expected, stands))
    && (forall d :: d in expected ==> HasRow(rows, expected[d], stands))
  }

  predicate HasDeclaration(row: Json, expected: Declarations, stands: Standing)
  {
    exists d :: d in expected && stands(row, expected[d])
  }

  predicate HasRow(rows: seq<Json>, e: ExpectedDurable, stands: Standing)
  {
    exists i :: 0 <= i < |rows| && stands(rows[i], e)
  }

  predicate Paired(rows: seq<Json>, pairs: seq<Pair>, byPair: PairIndex, stands: Standing)
  {
    && |pairs| == |rows|
    && (forall i :: 0 <= i < |rows| ==> pairs[i] in byPair && stands(rows[i], byPair[pairs[i]]))
    && (forall i, j :: 0 <= i < j < |rows| ==> pairs[i] != pairs[j])
  }

  lemma ScannedRowsMatch(rows: seq<Json>, pairs: seq<Pair>, expected: Declarations, stands: Standing)
    requires DeclarationsWf(expected) && Paired(rows, pairs, PairsExpected(expected), stands)
    requires forall p :: p in PairsExpected(expected) ==> p in pairs
    ensures |rows| == |expected| && Matching(rows, expected, stands)
  {
    ExpectedPairsCount(expected);
    PairIndexEntries(expected);
    PairedRowsMatch(rows, pairs, PairsExpected(expected), expected, stands);
  }

  lemma PairedRowsMatch(rows: seq<Json>, pairs: seq<Pair>, byPair: PairIndex, expected: Declarations, stands: Standing)
    requires EntriesDeclared(byPair, expected) && DeclarationsEntered(byPair, expected) && |byPair| == |expected|
    requires Paired(rows, pairs, byPair, stands) && forall p :: p in byPair ==> p in pairs
    ensures |rows| == |expected| && Matching(rows, expected, stands)
  {
    PairedCount(rows, pairs, byPair, stands);
    RowsMatch(rows, pairs, byPair, expected, stands);
    DeclarationsMatch(rows, pairs, byPair, expected, stands);
  }

  lemma PairedCount(rows: seq<Json>, pairs: seq<Pair>, byPair: PairIndex, stands: Standing)
    requires Paired(rows, pairs, byPair, stands) && forall p :: p in byPair ==> p in pairs
    ensures |rows| == |byPair|
  {
    DistinctPairsCount(pairs, byPair.Keys);
  }

  predicate EntriesDeclared(byPair: PairIndex, expected: Declarations)
  {
    forall p :: p in byPair ==> p.durable in expected && byPair[p] == expected[p.durable]
  }

  predicate DeclarationsEntered(byPair: PairIndex, expected: Declarations)
  {
    forall d :: d in expected ==> PairOf(expected[d]) in byPair && byPair[PairOf(expected[d])] == expected[d]
  }

  lemma PairIndexEntries(expected: Declarations)
    requires DeclarationsWf(expected)
    ensures EntriesDeclared(PairsExpected(expected), expected) && DeclarationsEntered(PairsExpected(expected), expected)
  {
    var byPair := PairsExpected(expected);
    forall d | d in expected
      ensures PairOf(expected[d]) in byPair && byPair[PairOf(expected[d])] == expected[d]
    {
      assert PairOf(expected[d]).durable == d;
    }
  }

  lemma RowsMatch(rows: seq<Json>, pairs: seq<Pair>, byPair: PairIndex, expected: Declarations, stands: Standing)
    requires Paired(rows, pairs, byPair, stands) && EntriesDeclared(byPair, expected)
    ensures forall i :: 0 <= i < |rows| ==> HasDeclaration(rows[i], expected, stands)
  {
    forall i | 0 <= i < |rows|
      ensures HasDeclaration(rows[i], expected, stands)
    {
      assert pairs[i] in byPair && stands(rows[i], expected[pairs[i].durable]);
    }
  }

  lemma DeclarationsMatch(rows: seq<Json>, pairs: seq<Pair>, byPair: PairIndex, expected: Declarations, stands: Standing)
    requires Paired(rows, pairs, byPair, stands) && DeclarationsEntered(byPair, expected)
    requires forall p :: p in byPair ==> p in pairs
    ensures forall d :: d in expected ==> HasRow(rows, expected[d], stands)
  {
    forall d | d in expected
      ensures HasRow(rows, expected[d], stands)
    {
      var pair := PairOf(expected[d]);
      assert pair in byPair && byPair[pair] == expected[d];
      var i :| 0 <= i < |pairs| && pairs[i] == pair;
      assert stands(rows[i], expected[d]);
    }
  }

  lemma {:induction false} ScannedRows(rows: seq<Json>, byPair: PairIndex, scan: RowScanner, stands: Standing)
    requires Scan(rows, scan).Ok?
    requires forall row, seen :: scan(row, seen).Ok? ==>
               var pair := scan(row, seen).value;
               pair !in seen && pair in byPair && stands(row, byPair[pair])
    ensures Paired(rows, Scan(rows, scan).value, byPair, stands)
  {
    if rows != [] {
      var last := |rows| - 1;
      ScannedRows(rows[..last], byPair, scan, stands);
      var before := Scan(rows[..last], scan).value;
      assert scan(rows[last], set p | p in before).Ok?;
    }
  }

  lemma ScannedRow(row: Json, seen: set<Pair>, byPair: PairIndex, env: Environment)
    requires ScanRow(row, seen, byPair, env).Ok?
    ensures var pair := ScanRow(row, seen, byPair, env).value;
            pair !in seen && pair in byPair && RowStandsFor(row, byPair[pair], env)
  {
    var pair := ScanRow(row, seen, byPair, env).value;
    AcceptedIsInImage(row, byPair[pair], env);
    BlockedRow(Reconstruct(row, byPair[pair]), byPair[pair]);
  }

  lemma {:induction false} DistinctPairsCount(pairs: seq<Pair>, all: set<Pair>)
    requires forall i, j :: 0 <= i < j < |pairs| ==> pairs[i] != pairs[j]
    requires forall p :: p in all <==> p in pairs
    ensures |all| == |pairs|
  {
    if pairs != [] {
      var before, last := pairs[..|pairs| - 1], pairs[|pairs| - 1];
      assert pairs == before + [last];
      DistinctPairsCount(before, all - {last});
    } else {
      assert all == {};
    }
  }

  lemma PairSetGrows(expected: Declarations, d: string)
    requires DeclarationsWf(expected) && d in expected
    ensures PairsExpected(expected).Keys == PairsExpected(expected - {d}).Keys + {PairOf(expected[d])}
    ensures PairOf(expected[d]) !in PairsExpected(expected - {d})
  {
    var rest := expected - {d};
    forall p | p in PairsExpected(expected)
      ensures p in PairsExpected(rest).Keys + {PairOf(expected[d])}
    {
      var k :| k in expected && p == PairOf(expected[k]);
      assert k != d ==> k in rest && rest[k] == expected[k];
    }
    forall p | p in PairsExpected(rest)
      ensures p in PairsExpected(expected)
    {
      var k :| k in rest && p == PairOf(rest[k]);
      assert expected[k] == rest[k];
    }
  }

  lemma {:induction false} ExpectedPairsCount(expected: Declarations)
    requires DeclarationsWf(expected)
    ensures |PairsExpected(expected)| == |expected|
    decreases |expected|
  {
    if expected != map[] {
      var d :| d in expected;
      var rest := expected - {d};
      assert expected.Keys == rest.Keys + {d};
      ExpectedPairsCount(rest);
      PairSetGrows(expected, d);
      assert |PairsExpected(expected).Keys| == |PairsExpected(rest).Keys| + 1;
    }
  }
}
