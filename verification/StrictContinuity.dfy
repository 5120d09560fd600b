/** Continuity of a quiescent broker between the two preflight stages. */
module StrictContinuity {
  import opened Json
  import opened Durables
  import opened Evidence
  import opened Collections
  import opened Comparison

  datatype Counters = Counters(messages: int, bytes: int, firstSeq: int, lastSeq: int, consumerCount: int, numDeleted: int)

  /** What the check reads from a stream row; values it compares with `==` are in normal form. */
  datatype StreamFacts = StreamFacts(
    created: Json, config: Json, configMapped: bool, trimsByAge: bool, counters: Counters, deleted: Json)

  /** What the check reads from a durable row; `row` is the row itself, in normal form. */
  datatype DurableFacts = DurableFacts(
    row: Json, created: Json, immutable: Json, mutable: Json, window: Json, cursor: ConsumerCursor, numAckPending: int)

  datatype Facts = Facts(
    streams: map<Key, Result<StreamFacts, EvidenceError>>, durables: map<Key, Result<DurableFacts, EvidenceError>>)

  datatype Violation =
    | StreamSetChanged
    | DurableSetChanged
    | StreamFieldChanged(key: Key, field: Field)
    | DurableFieldChanged(key: Key, field: Field)
    | DurableRowChanged(key: Key)

  datatype Trim = Trim(key: Key, messagesRemoved: int, bytesRemoved: int, firstSeqAdvanced: int)

  datatype Report = Report(violations: seq<Violation>, trims: seq<Trim>)

  // ------------------------------------------------------------------------- reading rows

  predicate CountersReadable(state: StateView)
  {
    && IsRowInteger(state.messages) && IsRowInteger(state.bytes) && IsRowInteger(state.firstSeq)
    && IsRowInteger(state.lastSeq) && IsRowInteger(state.consumerCount) && IsRowInteger(state.numDeleted)
  }

  predicate TrimsByAge(config: SettingsView)
  {
    config.retention == JStr("limits") && config.discard == JStr("old") && PositiveNumber(config.maxAge).Some?
  }

  function ReadStream(row: Json): Result<StreamFacts, EvidenceError>
  {
    var view := ViewRow(row);
    var state := ViewState(view.state);
    if !IsMapping(view.state) || !CountersReadable(state) then Err(Malformed)
    else
      var counters := Counters(state.messages.num, state.bytes.num, state.firstSeq.num, state.lastSeq.num,
                               state.consumerCount.num, state.numDeleted.num);
      Ok(StreamFacts(Norm(view.created), Norm(view.immutable), IsMapping(view.immutable),
                     TrimsByAge(ViewSettings(view.immutable)), counters, Norm(state.deleted)))
  }

  function ReadDurable(row: Json): Result<DurableFacts, EvidenceError>
  {
    var view := ViewRow(row);
    var cursor, outstanding := ReadCursor(view.cursor), ViewOutstanding(view.outstanding);
    if cursor.Err? || !IsMapping(view.outstanding) || !IsRowInteger(outstanding) then Err(Malformed)
    else
      Ok(DurableFacts(Norm(row), Norm(view.created), Norm(view.immutable), Norm(view.mutable), Norm(view.window),
                      cursor.value, outstanding.num))
  }

  function ReadSnapshot(s: Snapshot): Facts
  {
    Facts(map k | k in s.streams :: ReadStream(s.streams[k]), map k | k in s.durables :: ReadDurable(s.durables[k]))
  }

  // --------------------------------------------------------------- comparing a pair of rows

  /** The head of the stream went away and nothing else happened. */
  predicate PassiveTrim(previous: StreamFacts, current: StreamFacts)
  {
    var p, c := previous.counters, current.counters;
    && previous.created == current.created && previous.config == current.config && previous.trimsByAge
    && p.messages - c.messages > 0 && p.bytes - c.bytes > 0
    && c.firstSeq - p.firstSeq == p.messages - c.messages
    && c.lastSeq == p.lastSeq && c.consumerCount == p.consumerCount
    && previous.deleted == JArr([]) && current.deleted == JArr([])
    && p.numDeleted == 0 && c.numDeleted == 0
  }

  function StreamStateViolations(key: Key, previous: StreamFacts, current: StreamFacts): seq<Violation>
  {
    var p, c := previous.counters, current.counters;
    When(c.messages != p.messages, StreamFieldChanged(key, Messages))
    + When(c.bytes != p.bytes, StreamFieldChanged(key, Bytes))
    + When(c.firstSeq != p.firstSeq, StreamFieldChanged(key, FirstSeq))
    + When(c.lastSeq != p.lastSeq, StreamFieldChanged(key, LastSeq))
    + When(c.consumerCount != p.consumerCount, StreamFieldChanged(key, ConsumerCount))
    + When(current.deleted != previous.deleted, StreamFieldChanged(key, Deleted))
    + When(c.numDeleted != p.numDeleted, StreamFieldChanged(key, NumDeleted))
  }

  function StreamViolations(key: Key, previous: StreamFacts, current: StreamFacts): seq<Violation>
  {
    When(previous.created != current.created, StreamFieldChanged(key, Created))
    + When(previous.config != current.config, StreamFieldChanged(key, ImmutableConfig))
    + (if PassiveTrim(previous, current) then [] else StreamStateViolations(key, previous, current))
  }

  function TrimOf(key: Key, previous: StreamFacts, current: StreamFacts): Trim
  {
    var p, c := previous.counters, current.counters;
    Trim(key, p.messages - c.messages, p.bytes - c.bytes, c.firstSeq - p.firstSeq)
  }

  function DurableFieldViolations(key: Key, previous: DurableFacts, current: DurableFacts): seq<Violation>
  {
    var p, c := previous.cursor, current.cursor;
    When(previous.created != current.created, DurableFieldChanged(key, Created))
    + When(previous.immutable != current.immutable, DurableFieldChanged(key, ImmutableConfig))
    + When(previous.mutable != current.mutable, DurableFieldChanged(key, MutableConfig))
    + When(previous.window != current.window, DurableFieldChanged(key, Window))
    + When(c.deliveredStream != p.deliveredStream, DurableFieldChanged(key, DeliveredStreamSeq))
    + When(c.deliveredConsumer != p.deliveredConsumer, DurableFieldChanged(key, DeliveredConsumerSeq))
    + When(c.ackFloorStream != p.ackFloorStream, DurableFieldChanged(key, AckFloorStreamSeq))
    + When(c.ackFloorConsumer != p.ackFloorConsumer, DurableFieldChanged(key, AckFloorConsumerSeq))
    + When(current.numAckPending != previous.numAckPending, DurableFieldChanged(key, NumAckPending))
  }

  function DurableViolations(key: Key, previous: DurableFacts, current: DurableFacts): seq<Violation>
  {
    var fields := DurableFieldViolations(key, previous, current);
    fields + When(previous.row != current.row && fields == [], DurableRowChanged(key))
  }

  // ----------------------------------------------------------------------- the whole check

  /** Of the two rows only the earlier one must have a configuration that is a mapping. */
  predicate StreamPairReadable(p: Reading<StreamFacts>, c: Reading<StreamFacts>)
  {
    p.Ok? && c.Ok? && p.value.configMapped
  }

  predicate DurablePairReadable(p: Reading<DurableFacts>, c: Reading<DurableFacts>)
  {
    p.Ok? && c.Ok?
  }

  predicate Readable(previous: Facts, current: Facts)
  {
    && AllReadable(previous.streams, current.streams, StreamPairReadable)
    && AllReadable(previous.durables, current.durables, DurablePairReadable)
  }

  /** Nothing about the stream changed except possibly a passive head trim. */
  predicate StreamContinues(previous: StreamFacts, current: StreamFacts)
  {
    && previous.created == current.created && previous.config == current.config
    && (PassiveTrim(previous, current)
        || (previous.counters == current.counters && previous.deleted == current.deleted))
  }

  predicate SameIdentities(previous: Facts, current: Facts)
  {
    previous.streams.Keys == current.streams.Keys && previous.durables.Keys == current.durables.Keys
  }

  /** What a PASSED report means, in terms of the two snapshots alone. */
  predicate Continues(previous: Facts, current: Facts)
    requires Readable(previous, current)
  {
    && SameIdentities(previous, current)
    && (forall k :: k in previous.streams ==> StreamContinues(previous.streams[k].value, current.streams[k].value))
    && (forall k :: k in previous.durables ==> previous.durables[k] == current.durables[k])
  }

  lemma StreamViolationsMeaning(key: Key, previous: StreamFacts, current: StreamFacts)
    ensures StreamViolations(key, previous, current) == [] <==> StreamContinues(previous, current)
  {
  }

  lemma DurableViolationsMeaning(key: Key, previous: DurableFacts, current: DurableFacts)
    ensures DurableViolations(key, previous, current) == [] <==> previous == current
  {
  }

  type StreamIndex = Rows<StreamFacts>

  type DurableIndex = Rows<DurableFacts>

  predicate Trimmed(previous: StreamIndex, current: StreamIndex, key: Key)
  {
    && key in previous && key in current && StreamPairReadable(previous[key], current[key])
    && PassiveTrim(previous[key].value, current[key].value)
  }

  function StreamPairReport(k: Key, p: Reading<StreamFacts>, c: Reading<StreamFacts>): seq<Violation>
  {
    if StreamPairReadable(p, c) then StreamViolations(k, p.value, c.value) else []
  }

  function DurablePairReport(k: Key, p: Reading<DurableFacts>, c: Reading<DurableFacts>): seq<Violation>
  {
    if DurablePairReadable(p, c) then DurableViolations(k, p.value, c.value) else []
  }

  function TrimPairReport(k: Key, p: Reading<StreamFacts>, c: Reading<StreamFacts>): seq<Trim>
  {
    if StreamPairReadable(p, c) && PassiveTrim(p.value, c.value) then [TrimOf(k, p.value, c.value)] else []
  }

  function TrimReport(previous: StreamIndex, current: StreamIndex): Key -> seq<Trim>
  {
    RowReport(previous, current, TrimPairReport)
  }

  /** One trim for exactly the streams whose head moved. */
  predicate TrimsAre(trims: seq<Trim>, previous: StreamIndex, current: StreamIndex)
  {
    && (forall k :: k in previous && Trimmed(previous, current, k) ==>
          TrimOf(k, previous[k].value, current[k].value) in trims)
    && (forall i :: 0 <= i < |trims| ==> IsTrim(trims[i], previous, current))
    && (forall i, j :: 0 <= i < j < |trims| ==> trims[i].key != trims[j].key)
  }

  predicate IsTrim(t: Trim, previous: StreamIndex, current: StreamIndex)
  {
    Trimmed(previous, current, t.key) && t == TrimOf(t.key, previous[t.key].value, current[t.key].value)
  }

  predicate TrimsUnder(trims: seq<Trim>, keys: seq<Key>, previous: StreamIndex, current: StreamIndex)
  {
    && (forall i :: 0 <= i < |trims| ==> trims[i].key in keys)
    && (forall i :: 0 <= i < |trims| ==> IsTrim(trims[i], previous, current))
    && (forall i, j :: 0 <= i < j < |trims| ==> trims[i].key != trims[j].key)
  }

  lemma {:induction false} TrimsOfKeys(previous: StreamIndex, current: StreamIndex, keys: seq<Key>)
    requires forall i, j :: 0 <= i < j < |keys| ==> keys[i] != keys[j]
    ensures TrimsUnder(Gather(keys, TrimReport(previous, current)), keys, previous, current)
  {
    if keys != [] {
      var init, last := keys[..|keys| - 1], keys[|keys| - 1];
      TrimsOfKeys(previous, current, init);
      AddTrim(Gather(init, TrimReport(previous, current)), init, last, previous, current);
      assert keys == init + [last];
    }
  }

  lemma TrimAt(previous: StreamIndex, current: StreamIndex, k: Key)
    ensures TrimReport(previous, current)(k)
         == if Trimmed(previous, current, k) then [TrimOf(k, previous[k].value, current[k].value)] else []
  {
    if k in previous && k in current {
      assert TrimReport(previous, current)(k) == TrimPairReport(k, previous[k], current[k]);
    }
  }

  lemma AddTrim(trims: seq<Trim>, init: seq<Key>, last: Key, previous: StreamIndex, current: StreamIndex)
    requires TrimsUnder(trims, init, previous, current) && last !in init
    ensures TrimsUnder(trims + TrimReport(previous, current)(last), init + [last], previous, current)
  {
    TrimAt(previous, current, last);
  }

  lemma TrimsReported(previous: StreamIndex, current: StreamIndex, keys: seq<Key>)
    requires Lists(keys, previous.Keys * current.Keys)
    ensures TrimsAre(Gather(keys, TrimReport(previous, current)), previous, current)
  {
    TrimsOfKeys(previous, current, keys);
    forall k | k in previous && Trimmed(previous, current, k)
      ensures TrimOf(k, previous[k].value, current[k].value) in Gather(keys, TrimReport(previous, current))
    {
      assert k in previous.Keys * current.Keys;
      var i :| 0 <= i < |keys| && keys[i] == k;
      TrimAt(previous, current, k);
      GatherHolds(keys, TrimReport(previous, current), TrimOf(k, previous[k].value, current[k].value));
    }
  }

  /** What the report must contain: a changed set of identities, and what differs in each pair of rows. */
  ghost predicate Reported(previous: Facts, current: Facts, v: Violation)
  {
    || (v == StreamSetChanged && previous.streams.Keys != current.streams.Keys)
    || (v == DurableSetChanged && previous.durables.Keys != current.durables.Keys)
    || SomeReports(previous.streams, current.streams, StreamPairReport, v)
    || SomeReports(previous.durables, current.durables, DurablePairReport, v)
  }

  lemma StreamsReported(previous: StreamIndex, current: StreamIndex, keys: seq<Key>)
    requires Lists(keys, previous.Keys * current.Keys) && AllReadable(previous, current, StreamPairReadable)
    ensures Gather(keys, RowReport(previous, current, StreamPairReport)) == [] <==>
            forall k :: k in previous && k in current ==> StreamContinues(previous[k].value, current[k].value)
  {
    forall k | k in previous && k in current
      ensures StreamPairReport(k, previous[k], current[k]) == [] <==> StreamContinues(previous[k].value, current[k].value)
    {
      StreamViolationsMeaning(k, previous[k].value, current[k].value);
    }
    GatheredReports(previous, current, StreamPairReport,
                    (p, c) => StreamPairReadable(p, c) && StreamContinues(p.value, c.value), keys);
  }

  lemma DurablesReported(previous: DurableIndex, current: DurableIndex, keys: seq<Key>)
    requires Lists(keys, previous.Keys * current.Keys) && AllReadable(previous, current, DurablePairReadable)
    ensures Gather(keys, RowReport(previous, current, DurablePairReport)) == [] <==>
            forall k :: k in previous && k in current ==> previous[k] == current[k]
  {
    forall k | k in previous && k in current
      ensures DurablePairReport(k, previous[k], current[k]) == [] <==> previous[k] == current[k]
    {
      DurableViolationsMeaning(k, previous[k].value, current[k].value);
    }
    GatheredReports(previous, current, DurablePairReport, (p, c) => p == c, keys);
  }

  function SetViolations(previous: Facts, current: Facts): seq<Violation>
  {
    When(previous.streams.Keys != current.streams.Keys, StreamSetChanged)
    + When(previous.durables.Keys != current.durables.Keys, DurableSetChanged)
  }

  lemma AllReported(previous: Facts, current: Facts, streams: seq<Violation>, durables: seq<Violation>)
    requires forall v :: v in streams <==> SomeReports(previous.streams, current.streams, StreamPairReport, v)
    requires forall v :: v in durables <==> SomeReports(previous.durables, current.durables, DurablePairReport, v)
    ensures forall v :: v in SetViolations(previous, current) + streams + durables <==> Reported(previous, current, v)
  {
  }

  /** The report lists exactly the violations there are, none exactly when the snapshots continue each other,
      and one trim for exactly the streams whose head moved. */
  method CompareFacts(previous: Facts, current: Facts) returns (result: Result<Report, EvidenceError>)
    ensures result.Ok? <==> Readable(previous, current)
    ensures result.Ok? ==> (result.value.violations == [] <==> Continues(previous, current))
    ensures result.Ok? ==> forall v :: v in result.value.violations <==> Reported(previous, current, v)
    ensures result.Ok? ==> TrimsAre(result.value.trims, previous.streams, current.streams)
  {
    var streamsReadable, streamViolations, trims, streamKeys :=
      CompareRows(previous.streams, current.streams, StreamPairReadable, StreamPairReport, TrimPairReport);
    var durablesReadable, durableViolations, nothing: seq<Trim>, durableKeys :=
      CompareRows(previous.durables, current.durables, DurablePairReadable, DurablePairReport, (k, p, c) => []);
    if !streamsReadable || !durablesReadable {
      return Err(Malformed);
    }
    StreamsReported(previous.streams, current.streams, streamKeys);
    GatheredFrom(previous.streams, current.streams, StreamPairReport, streamKeys);
    TrimsReported(previous.streams, current.streams, streamKeys);
    DurablesReported(previous.durables, current.durables, durableKeys);
    GatheredFrom(previous.durables, current.durables, DurablePairReport, durableKeys);
    AllReported(previous, current, streamViolations, durableViolations);
    return Ok(Report(SetViolations(previous, current) + streamViolations + durableViolations, trims));
  }

  /** `evaluate_cutover_continuity` */
  method EvaluateCutoverContinuity(previousStreams: Json, currentStreams: Json, previousDurables: Json, currentDurables: Json)
    returns (result: Result<Report, EvidenceError>)
    ensures var ps, cs := IndexedRows(previousStreams, StreamRows), IndexedRows(currentStreams, StreamRows);
            var pd, cd := IndexedRows(previousDurables, DurableRows), IndexedRows(currentDurables, DurableRows);
      if ps.Ok? && cs.Ok? && pd.Ok? && cd.Ok? then
        var previous, current := ReadSnapshot(Snapshot(ps.value, pd.value)), ReadSnapshot(Snapshot(cs.value, cd.value));
        && (result.Ok? <==> Readable(previous, current))
        && (result.Ok? ==> (result.value.violations == [] <==> Continues(previous, current)))
        && (result.Ok? ==> forall v :: v in result.value.violations <==> Reported(previous, current, v))
        && (result.Ok? ==> TrimsAre(result.value.trims, previous.streams, current.streams))
      else result.Err?
  {
    var ps := IndexRows(previousStreams, StreamRows);
    var cs := IndexRows(currentStreams, StreamRows);
    var pd := IndexRows(previousDurables, DurableRows);
    var cd := IndexRows(currentDurables, DurableRows);
    if ps.Err? { return Err(ps.error); }
    if cs.Err? { return Err(cs.error); }
    if pd.Err? { return Err(pd.error); }
    if cd.Err? { return Err(cd.error); }
    result := CompareFacts(ReadSnapshot(Snapshot(ps.value, pd.value)), ReadSnapshot(Snapshot(cs.value, cd.value)));
  }

  // ----------------------------------------------------------------------- order structure

  /** A snapshot all of whose rows can be read. */
  predicate WellRead(f: Facts)
  {
    Readable(f, f)
  }

  lemma ContinuesReflexive(f: Facts)
    requires WellRead(f)
    ensures Continues(f, f)
  {
  }

  /** Two equal steps in opposite directions mean nothing moved at all. */
  lemma ContinuesAntisymmetric(f: Facts, g: Facts)
    requires WellRead(f) && WellRead(g) && Readable(f, g) && Readable(g, f)
    requires Continues(f, g) && Continues(g, f)
    ensures f.durables == g.durables && f.streams.Keys == g.streams.Keys
    ensures forall k :: k in f.streams ==> f.streams[k].value.(trimsByAge := g.streams[k].value.trimsByAge) == g.streams[k].value
  {
  }

  lemma StreamContinuesTransitive(a: StreamFacts, b: StreamFacts, c: StreamFacts)
    requires StreamContinues(a, b) && StreamContinues(b, c)
    ensures StreamContinues(a, c) <==> (PassiveTrim(b, c) ==> a.trimsByAge)
  {
  }

  /** Accepted steps compose through head trims. The one exception is a first snapshot whose own row does
      not read as age-limited although the equal row after it does (a `max_age` stored as a boolean). */
  lemma ContinuesTransitive(a: Facts, b: Facts, c: Facts)
    requires WellRead(a) && WellRead(b) && WellRead(c) && SameIdentities(a, b) && SameIdentities(b, c)
    requires Continues(a, b) && Continues(b, c)
    ensures Continues(a, c) <==>
            forall k :: k in a.streams && PassiveTrim(b.streams[k].value, c.streams[k].value) ==> a.streams[k].value.trimsByAge
  {
    forall k | k in a.streams
      ensures StreamContinues(a.streams[k].value, c.streams[k].value)
              <==> (PassiveTrim(b.streams[k].value, c.streams[k].value) ==> a.streams[k].value.trimsByAge)
    {
      StreamContinuesTransitive(a.streams[k].value, b.streams[k].value, c.streams[k].value);
    }
  }

  function WitnessConfig(maxAge: Json): Json
  {
    JStreamConfig(
      StreamSettings(JNull, JStr("limits"), JNull, JStr("old"), maxAge, JNull, JNull, JNull, JNull, JNull, JNull))
  }

  /** A stream row whose maximum age is stored as given. */
  function WitnessRow(created: string, maxAge: Json, messages: int, firstSeq: int): Json
  {
    JStreamRow(
      JStreamName(JStr("S")), JStr(created), WitnessConfig(maxAge),
      JStreamState(JInt(messages), JInt(messages), JInt(firstSeq), JInt(10), JInt(0), JArr([]), JInt(0)))
  }

  lemma WitnessConfigsEqual()
    ensures Norm(WitnessConfig(JBool(true))) == Norm(WitnessConfig(JReal(1.0)))
  {
    assert Norm(JBool(true)) == JReal(1.0);
    assert Norm(JReal(1.0)) == JReal(1.0);
    assert NormRecord(WitnessConfig(JBool(true))) == Norm(WitnessConfig(JBool(true)));
    assert NormRecord(WitnessConfig(JReal(1.0))) == Norm(WitnessConfig(JReal(1.0)));
  }

  lemma WitnessRowReads(created: string, maxAge: Json, messages: nat, firstSeq: nat)
    ensures ReadStream(WitnessRow(created, maxAge, messages, firstSeq))
         == Ok(StreamFacts(Norm(JStr(created)), Norm(WitnessConfig(maxAge)), true, PositiveNumber(maxAge).Some?,
                           Counters(messages, messages, firstSeq, 10, 0, 0), Norm(JArr([]))))
  {
  }

  function OneStream(row: Json): Facts
  {
    Facts(map[["S"] := ReadStream(row)], map[])
  }

  lemma OneStreamContinues(a: Json, b: Json)
    requires StreamPairReadable(ReadStream(a), ReadStream(b))
    ensures Readable(OneStream(a), OneStream(b))
    ensures Continues(OneStream(a), OneStream(b)) <==> StreamContinues(ReadStream(a).value, ReadStream(b).value)
  {
    assert ["S"] in OneStream(a).streams && ["S"] in OneStream(b).streams;
  }

  lemma TransitivityFailsAt(created: string, flag: Json, age: Json)
    requires Norm(WitnessConfig(flag)) == Norm(WitnessConfig(age))
    requires PositiveNumber(flag).None? && PositiveNumber(age).Some?
    ensures var a, b, c := WitnessRow(created, flag, 10, 1), WitnessRow(created, age, 10, 1), WitnessRow(created, age, 9, 2);
      && Readable(OneStream(a), OneStream(b)) && Readable(OneStream(b), OneStream(c)) && Readable(OneStream(a), OneStream(c))
      && Continues(OneStream(a), OneStream(b)) && Continues(OneStream(b), OneStream(c))
      && !Continues(OneStream(a), OneStream(c))
  {
    var config := Norm(WitnessConfig(age));
    WitnessReads(created, flag, 10, 1, config, false);
    WitnessReads(created, age, 10, 1, config, true);
    WitnessReads(created, age, 9, 2, config, true);
    TransitivityFails(WitnessRow(created, flag, 10, 1), WitnessRow(created, age, 10, 1), WitnessRow(created, age, 9, 2),
                      Norm(JStr(created)), config);
  }

  /** The exception is real: three rows, the first with its maximum age stored as True. */
  lemma TransitivityCanFail(created: string)
    ensures var a, b := WitnessRow(created, JBool(true), 10, 1), WitnessRow(created, JReal(1.0), 10, 1);
            var c := WitnessRow(created, JReal(1.0), 9, 2);
      && Readable(OneStream(a), OneStream(b)) && Readable(OneStream(b), OneStream(c)) && Readable(OneStream(a), OneStream(c))
      && Continues(OneStream(a), OneStream(b)) && Continues(OneStream(b), OneStream(c))
      && !Continues(OneStream(a), OneStream(c))
  {
    WitnessConfigsEqual();
    TransitivityFailsAt(created, JBool(true), JReal(1.0));
  }

  lemma TransitivityFails(a: Json, b: Json, c: Json, created: Json, config: Json)
    requires ReadStream(a) == Ok(StreamFacts(created, config, true, false, Counters(10, 10, 1, 10, 0, 0), Norm(JArr([]))))
    requires ReadStream(b) == Ok(StreamFacts(created, config, true, true, Counters(10, 10, 1, 10, 0, 0), Norm(JArr([]))))
    requires ReadStream(c) == Ok(StreamFacts(created, config, true, true, Counters(9, 9, 2, 10, 0, 0), Norm(JArr([]))))
    ensures Readable(OneStream(a), OneStream(b)) && Readable(OneStream(b), OneStream(c)) && Readable(OneStream(a), OneStream(c))
    ensures Continues(OneStream(a), OneStream(b)) && Continues(OneStream(b), OneStream(c))
    ensures !Continues(OneStream(a), OneStream(c))
  {
    WitnessSteps(created, config);
    OneStreamContinues(a, b);
    OneStreamContinues(b, c);
    OneStreamContinues(a, c);
  }

  lemma WitnessReads(created: string, maxAge: Json, messages: nat, firstSeq: nat, config: Json, trims: bool)
    requires config == Norm(WitnessConfig(maxAge)) && trims == PositiveNumber(maxAge).Some?
    ensures ReadStream(WitnessRow(created, maxAge, messages, firstSeq))
         == Ok(StreamFacts(Norm(JStr(created)), config, true, trims, Counters(messages, messages, firstSeq, 10, 0, 0),
                           Norm(JArr([]))))
  {
    WitnessRowReads(created, maxAge, messages, firstSeq);
  }

  lemma WitnessSteps(created: Json, config: Json)
    ensures var a := StreamFacts(created, config, true, false, Counters(10, 10, 1, 10, 0, 0), Norm(JArr([])));
            var b := StreamFacts(created, config, true, true, Counters(10, 10, 1, 10, 0, 0), Norm(JArr([])));
            var c := StreamFacts(created, config, true, true, Counters(9, 9, 2, 10, 0, 0), Norm(JArr([])));
            StreamContinues(a, b) && StreamContinues(b, c) && !StreamContinues(a, c)
  {
    assert Norm(JArr([])) == JArr([]);
  }

  function SequenceGap(f: StreamFacts): int
  {
    f.counters.lastSeq + 1 - f.counters.firstSeq - f.counters.messages
  }

  /** Sum of the message counts of the listed streams. */
  function TotalMessages(f: Facts, keys: seq<Key>): int
    requires WellRead(f) && forall k :: k in keys ==> k in f.streams
  {
    if keys == [] then 0 else f.streams[keys[0]].value.counters.messages + TotalMessages(f, keys[1..])
  }

  ghost predicate ListsStreams(keys: seq<Key>, f: Facts)
  {
    forall k :: k in keys <==> k in f.streams
  }

  ghost predicate IsProper(f: Facts, g: Facts)
  {
    exists k :: Trimmed(f.streams, g.streams, k)
  }

  /** An accepted step keeps every stream's last sequence and its count of sequence numbers that are
      neither stored nor trimmed from the head. */
  lemma StepConserves(f: Facts, g: Facts, k: Key)
    requires WellRead(f) && WellRead(g) && SameIdentities(f, g) && Continues(f, g) && k in f.streams
    ensures f.streams[k].value.counters.lastSeq == g.streams[k].value.counters.lastSeq
    ensures SequenceGap(f.streams[k].value) == SequenceGap(g.streams[k].value)
    ensures f.streams[k].value.counters.messages - g.streams[k].value.counters.messages
            == g.streams[k].value.counters.firstSeq - f.streams[k].value.counters.firstSeq
  {
  }

  lemma {:induction false} StepLowersMessages(f: Facts, g: Facts, keys: seq<Key>)
    requires WellRead(f) && WellRead(g) && SameIdentities(f, g) && Continues(f, g)
    requires forall k :: k in keys ==> k in f.streams
    ensures TotalMessages(g, keys) <= TotalMessages(f, keys)
    ensures (exists k :: k in keys && Trimmed(f.streams, g.streams, k)) ==> TotalMessages(g, keys) < TotalMessages(f, keys)
  {
    if keys != [] {
      assert keys == [keys[0]] + keys[1..];
      StepLowersMessages(f, g, keys[1..]);
    }
  }

  lemma {:induction false} MessagesAreCounted(f: Facts, keys: seq<Key>)
    requires WellRead(f) && forall k :: k in keys ==> k in f.streams
    requires forall k :: k in f.streams ==> f.streams[k].value.counters.messages >= 0
    ensures TotalMessages(f, keys) >= 0
  {
    if keys != [] {
      MessagesAreCounted(f, keys[1..]);
    }
  }

  predicate IsRun(run: seq<Facts>)
  {
    && (forall i :: 0 <= i < |run| ==> WellRead(run[i]))
    && (forall i :: 0 <= i < |run| - 1 ==> SameIdentities(run[i], run[i + 1]) && Continues(run[i], run[i + 1]))
  }

  ghost function ProperSteps(run: seq<Facts>): nat
  {
    if |run| < 2 then 0 else (if IsProper(run[0], run[1]) then 1 else 0) + ProperSteps(run[1..])
  }

  /** However long the run, it has no more proper steps than there were messages at its start. */
  lemma {:induction false} ProperStepsAreFinite(run: seq<Facts>, keys: seq<Key>)
    requires run != [] && IsRun(run) && ListsStreams(keys, run[0])
    requires forall i, k :: 0 <= i < |run| && k in run[i].streams ==> run[i].streams[k].value.counters.messages >= 0
    ensures ProperSteps(run) <= TotalMessages(run[0], keys)
  {
    if |run| < 2 {
      MessagesAreCounted(run[0], keys);
    } else {
      StepLowersMessages(run[0], run[1], keys);
      ProperStepsAreFinite(run[1..], keys);
    }
  }

  /** Counters that were read are never negative, so the bound above applies to every run of snapshots. */
  lemma ReadMessagesAreCounted(s: Snapshot)
    ensures forall k :: k in s.streams && ReadSnapshot(s).streams[k].Ok? ==>
              ReadSnapshot(s).streams[k].value.counters.messages >= 0
  {
  }
}
