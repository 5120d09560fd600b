/** Continuity of a broker whose applications run, with the declared cutover migrations. */
module ActiveContinuity {
  import opened Json
  import opened Durables
  import opened Evidence
  import opened Collections
  import opened Comparison

  datatype StreamFacts = StreamFacts(created: Json, config: Json, lastSeq: int)

  /** What the check reads from a durable row; values it compares with `==` are in normal form. */
  datatype DurableFacts = DurableFacts(
    semantics: string, created: Json, immutable: Json,
    mutable: Json, actual: Json, expected: Json, ackWait: Json, targetAckWait: Json, maxDeliverMatches: bool,
    migrationBlocked: bool, window: Json, current: int, target: int, numAckPending: Option<int>,
    cursor: ConsumerCursor, status: Json)

  type StreamIndex = Rows<StreamFacts>

  type DurableIndex = Rows<DurableFacts>

  datatype Facts = Facts(streams: StreamIndex, durables: DurableIndex)

  datatype Violation =
    | StreamSetChanged
    | DurableSetChanged
    | StreamFieldChanged(key: Key, field: Field)
    | StreamLastSeqRegressed(key: Key)
    | DurableFieldChanged(key: Key, field: Field)
    | DurableCursorRegressed(key: Key, field: Field)

  datatype MigrationKind = AckWindowShrink | NonEventRebuild | MutableReconcile

  datatype Migration = Migration(key: Key, kind: MigrationKind)

  datatype Report = Report(violations: seq<Violation>, migrations: seq<Migration>)

  // ------------------------------------------------------------------------- reading rows

  function ReadStream(row: Json): Result<StreamFacts, EvidenceError>
  {
    var view := ViewRow(row);
    var lastSeq := ViewState(view.state).lastSeq;
    if !IsMapping(view.state) || !IsRowInteger(lastSeq) then Err(Malformed)
    else Ok(StreamFacts(Norm(view.created), Norm(view.immutable), lastSeq.num))
  }

  predicate PartsReadable(view: RowView)
  {
    var mutable, window := ViewPair(view.mutable), ViewWindow(view.window);
    && IsMapping(view.identity) && IsMapping(view.window) && IsMapping(view.mutable)
    && IsMapping(mutable.first) && IsMapping(mutable.second)
    && IsRowInteger(window.first) && IsRowInteger(window.second) && ReadCursor(view.cursor).Ok?
  }

  function SemanticsOf(identity: Json): string
  {
    var named := ViewIdentity(identity).semantics;
    if named.JStr? then named.text else "invalid"
  }

  function ReadParts(view: RowView): DurableFacts
    requires PartsReadable(view)
  {
    var mutable, window, outstanding := ViewPair(view.mutable), ViewWindow(view.window), ViewOutstanding(view.outstanding);
    var actual, expected := ViewMutable(mutable.first), ViewMutable(mutable.second);
    var semantics := SemanticsOf(view.identity);
    DurableFacts(
      semantics := semantics,
      created := Norm(view.created),
      immutable := Norm(view.immutable),
      mutable := Norm(view.mutable),
      actual := Norm(mutable.first),
      expected := Norm(mutable.second),
      ackWait := Norm(actual.first),
      targetAckWait := Norm(expected.first),
      maxDeliverMatches := PyEq(actual.second, expected.second),
      migrationBlocked :=
        MigrationBlockers(semantics, actual.first, expected.first, actual.second, expected.second) != [],
      window := Norm(view.window),
      current := window.first.num,
      target := window.second.num,
      numAckPending :=
        if IsMapping(view.outstanding) && IsRowInteger(outstanding) then Some(outstanding.num) else None,
      cursor := ReadCursor(view.cursor).value,
      status := view.status)
  }

  function ReadDurable(row: Json): Result<DurableFacts, EvidenceError>
  {
    var view := ViewRow(row);
    if PartsReadable(view) then Ok(ReadParts(view)) else Err(Malformed)
  }

  function ReadSnapshot(s: Snapshot): Facts
  {
    Facts(map k | k in s.streams :: ReadStream(s.streams[k]), map k | k in s.durables :: ReadDurable(s.durables[k]))
  }

  // -------------------------------------------------------------- the authorised migrations

  predicate HasStatus(f: DurableFacts, status: Safety)
  {
    f.status == JStr(StatusText(status))
  }

  predicate IsNonEvent(semantics: string)
  {
    semantics in {"snapshot", "transient"}
  }

  predicate InPlaceShrink(p: DurableFacts, c: DurableFacts)
  {
    && HasStatus(p, SafeToShrink) && HasStatus(c, SafeAlreadyOne)
    && p.target == TARGET_MAX_ACK_PENDING && c.target == TARGET_MAX_ACK_PENDING
    && c.current == TARGET_MAX_ACK_PENDING && ReducingWindow(p.current)
    && p.created == c.created && p.immutable == c.immutable && p.mutable == c.mutable
  }

  predicate SafeAckWaitRaise(p: DurableFacts, c: DurableFacts)
  {
    && IsNonEvent(p.semantics) && c.semantics == p.semantics
    && !p.migrationBlocked && !c.migrationBlocked
    && c.ackWait == p.targetAckWait && c.maxDeliverMatches
  }

  predicate InPlaceReconcile(p: DurableFacts, c: DurableFacts)
  {
    && HasStatus(p, SafeToReconcileInPlace) && HasStatus(c, SafeAlreadyOne)
    && p.created == c.created && p.immutable == c.immutable && SafeAckWaitRaise(p, c)
    && p.actual != p.expected && p.expected == c.expected && c.actual == c.expected
    && p.target == TARGET_MAX_ACK_PENDING && c.target == TARGET_MAX_ACK_PENDING && c.current == TARGET_MAX_ACK_PENDING
    && (p.current == TARGET_MAX_ACK_PENDING || ReducingWindow(p.current))
  }

  predicate RequiresRebuild(current: int, numAckPending: int)
  {
    (ReducingWindow(current) && numAckPending != 0) || OutstandingExceedsTarget(current, numAckPending)
  }

  predicate Rebuild(p: DurableFacts, c: DurableFacts)
    requires p.numAckPending.Some?
  {
    && HasStatus(p, SafeRebuildableNonEvent) && HasStatus(c, SafeAlreadyOne)
    && IsNonEvent(p.semantics) && c.semantics == p.semantics && p.created != c.created
    && c.target == TARGET_MAX_ACK_PENDING && c.current == TARGET_MAX_ACK_PENDING
    && RequiresRebuild(p.current, p.numAckPending.value)
    && p.immutable == c.immutable && p.expected == c.expected && c.actual == c.expected
  }

  predicate CursorAdvances(p: ConsumerCursor, c: ConsumerCursor)
  {
    && p.deliveredStream <= c.deliveredStream && p.deliveredConsumer <= c.deliveredConsumer
    && p.ackFloorStream <= c.ackFloorStream && p.ackFloorConsumer <= c.ackFloorConsumer
  }

  function StreamViolations(key: Key, p: StreamFacts, c: StreamFacts): seq<Violation>
  {
    When(p.created != c.created, StreamFieldChanged(key, Created))
    + When(p.config != c.config, StreamFieldChanged(key, ImmutableConfig))
    + When(c.lastSeq < p.lastSeq, StreamLastSeqRegressed(key))
  }

  function CursorViolations(key: Key, p: ConsumerCursor, c: ConsumerCursor): seq<Violation>
  {
    When(c.deliveredStream < p.deliveredStream, DurableCursorRegressed(key, DeliveredStreamSeq))
    + When(c.deliveredConsumer < p.deliveredConsumer, DurableCursorRegressed(key, DeliveredConsumerSeq))
    + When(c.ackFloorStream < p.ackFloorStream, DurableCursorRegressed(key, AckFloorStreamSeq))
    + When(c.ackFloorConsumer < p.ackFloorConsumer, DurableCursorRegressed(key, AckFloorConsumerSeq))
  }

  function DurableViolations(key: Key, p: DurableFacts, c: DurableFacts, migrate: bool): seq<Violation>
    requires p.numAckPending.Some?
  {
    var shrink := migrate && InPlaceShrink(p, c);
    var reconcile := migrate && InPlaceReconcile(p, c);
    var rebuild := migrate && Rebuild(p, c);
    When(p.created != c.created && !rebuild, DurableFieldChanged(key, Created))
    + When(p.immutable != c.immutable, DurableFieldChanged(key, ImmutableConfig))
    + When(p.mutable != c.mutable && !reconcile && !rebuild, DurableFieldChanged(key, MutableConfig))
    + When(p.window != c.window && !shrink && !reconcile && !rebuild, DurableFieldChanged(key, Window))
    + (if rebuild then [] else CursorViolations(key, p.cursor, c.cursor))
  }

  /** Which migration explains a pair of rows that continue each other. */
  function MigrationOf(p: DurableFacts, c: DurableFacts, migrate: bool): Option<MigrationKind>
    requires p.numAckPending.Some?
  {
    if !DurableContinues(p, c, migrate) || !migrate then None
    else if InPlaceShrink(p, c) then Some(AckWindowShrink)
    else if Rebuild(p, c) then Some(NonEventRebuild)
    else if InPlaceReconcile(p, c) then Some(MutableReconcile)
    else None
  }

  // ----------------------------------------------------------------------- the whole check

  predicate PairReadable(p: Result<DurableFacts, EvidenceError>, c: Result<DurableFacts, EvidenceError>)
  {
    p.Ok? && c.Ok? && p.value.numAckPending.Some?
  }

  predicate StreamPairReadable(p: Reading<StreamFacts>, c: Reading<StreamFacts>)
  {
    p.Ok? && c.Ok?
  }

  predicate Readable(previous: Facts, current: Facts)
  {
    && AllReadable(previous.streams, current.streams, StreamPairReadable)
    && AllReadable(previous.durables, current.durables, PairReadable)
  }

  predicate IdentitiesContinue(previous: set<Key>, current: set<Key>, allowNew: bool)
  {
    previous <= current && (!allowNew ==> previous == current)
  }

  predicate StreamContinues(p: StreamFacts, c: StreamFacts)
  {
    p.created == c.created && p.config == c.config && p.lastSeq <= c.lastSeq
  }

  predicate DurableContinues(p: DurableFacts, c: DurableFacts, migrate: bool)
    requires p.numAckPending.Some?
  {
    || (p.created == c.created && p.immutable == c.immutable && p.mutable == c.mutable && p.window == c.window
        && CursorAdvances(p.cursor, c.cursor))
    || (migrate && (InPlaceShrink(p, c) || InPlaceReconcile(p, c)) && CursorAdvances(p.cursor, c.cursor))
    || (migrate && Rebuild(p, c))
  }

  /** What a PASSED_WITH_TRUST_BOUNDARY report means, in terms of the two snapshots alone. */
  predicate Continues(previous: Facts, current: Facts, allowNew: bool, migrate: bool)
    requires Readable(previous, current)
  {
    && IdentitiesContinue(previous.streams.Keys, current.streams.Keys, allowNew)
    && IdentitiesContinue(previous.durables.Keys, current.durables.Keys, allowNew)
    && (forall k :: k in previous.streams ==> StreamContinues(previous.streams[k].value, current.streams[k].value))
    && (forall k :: k in previous.durables ==>
          DurableContinues(previous.durables[k].value, current.durables[k].value, migrate))
  }

  lemma StreamViolationsMeaning(key: Key, p: StreamFacts, c: StreamFacts)
    ensures StreamViolations(key, p, c) == [] <==> StreamContinues(p, c)
  {
  }

  lemma DurableViolationsMeaning(key: Key, p: DurableFacts, c: DurableFacts, migrate: bool)
    requires p.numAckPending.Some?
    ensures DurableViolations(key, p, c, migrate) == [] <==> DurableContinues(p, c, migrate)
  {
    assert CursorViolations(key, p.cursor, c.cursor) == [] <==> CursorAdvances(p.cursor, c.cursor);
  }

  predicate Authorised(previous: DurableIndex, current: DurableIndex, migrate: bool, m: Migration)
  {
    && m.key in previous && m.key in current && PairReadable(previous[m.key], current[m.key])
    && MigrationOf(previous[m.key].value, current[m.key].value, migrate) == Some(m.kind)
  }

  function StreamPairReport(k: Key, p: Reading<StreamFacts>, c: Reading<StreamFacts>): seq<Violation>
  {
    if p.Ok? && c.Ok? then StreamViolations(k, p.value, c.value) else []
  }

  function DurablePairReport(migrate: bool): PairReport<DurableFacts, Violation>
  {
    (k, p, c) => if PairReadable(p, c) then DurableViolations(k, p.value, c.value, migrate) else []
  }

  function MigrationPairReport(migrate: bool): PairReport<DurableFacts, Migration>
  {
    (k, p, c) => if PairReadable(p, c) then MigrationsOf(k, MigrationOf(p.value, c.value, migrate)) else []
  }

  function MigrationsOf(k: Key, kind: Option<MigrationKind>): seq<Migration>
  {
    if kind.Some? then [Migration(k, kind.value)] else []
  }

  /** What the report must contain: a changed set of identities, and what differs in each pair of rows. */
  ghost predicate Reported(previous: Facts, current: Facts, allowNew: bool, migrate: bool, v: Violation)
  {
    || (v == StreamSetChanged && !IdentitiesContinue(previous.streams.Keys, current.streams.Keys, allowNew))
    || (v == DurableSetChanged && !IdentitiesContinue(previous.durables.Keys, current.durables.Keys, allowNew))
    || SomeReports(previous.streams, current.streams, StreamPairReport, v)
    || SomeReports(previous.durables, current.durables, DurablePairReport(migrate), v)
  }

  lemma StreamsReported(previous: StreamIndex, current: StreamIndex, keys: seq<Key>)
    requires Lists(keys, previous.Keys * current.Keys) && AllReadable(previous, current, StreamPairReadable)
    ensures Gather(keys, RowReport(previous, current, StreamPairReport)) == [] <==>
            forall k :: k in previous && k in current ==> StreamContinues(previous[k].value, current[k].value)
  {
    forall k | k in previous && k in current
      ensures StreamPairReport(k, previous[k], current[k]) == [] <==> StreamContinues(previous[k].value, current[k].value)
    {
      StreamViolationsMeaning(k, previous[k].value, current[k].value);
    }
    GatheredReports(previous, current, StreamPairReport,
                    (p, c) => StreamPairReadable(p, c) && StreamContinues(p.value, c.value), keys);
  }

  lemma DurablesReported(previous: DurableIndex, current: DurableIndex, migrate: bool, keys: seq<Key>)
    requires Lists(keys, previous.Keys * current.Keys) && AllReadable(previous, current, PairReadable)
    ensures Gather(keys, RowReport(previous, current, DurablePairReport(migrate))) == [] <==>
            forall k :: k in previous && k in current ==> DurableContinues(previous[k].value, current[k].value, migrate)
  {
    forall k | k in previous && k in current
      ensures DurablePairReport(migrate)(k, previous[k], current[k]) == [] <==>
              DurableContinues(previous[k].value, current[k].value, migrate)
    {
      DurableViolationsMeaning(k, previous[k].value, current[k].value, migrate);
    }
    GatheredReports(previous, current, DurablePairReport(migrate),
                    (p, c) => PairReadable(p, c) && DurableContinues(p.value, c.value, migrate), keys);
  }

  lemma MigrationsReported(previous: DurableIndex, current: DurableIndex, migrate: bool, keys: seq<Key>)
    requires Lists(keys, previous.Keys * current.Keys)
    ensures forall m :: m in Gather(keys, RowReport(previous, current, MigrationPairReport(migrate)))
                   <==> Authorised(previous, current, migrate, m)
  {
    GatheredFrom(previous, current, MigrationPairReport(migrate), keys);
    forall m
      ensures SomeReports(previous, current, MigrationPairReport(migrate), m) <==> Authorised(previous, current, migrate, m)
    {
      if Authorised(previous, current, migrate, m) {
        assert m in MigrationPairReport(migrate)(m.key, previous[m.key], current[m.key]);
      }
    }
  }

  function SetViolations(previous: Facts, current: Facts, allowNew: bool): seq<Violation>
  {
    When(!IdentitiesContinue(previous.streams.Keys, current.streams.Keys, allowNew), StreamSetChanged)
    + When(!IdentitiesContinue(previous.durables.Keys, current.durables.Keys, allowNew), DurableSetChanged)
  }

  lemma AllReported(previous: Facts, current: Facts, allowNew: bool, migrate: bool, streams: seq<Violation>,
                    durables: seq<Violation>)
    requires forall v :: v in streams <==> SomeReports(previous.streams, current.streams, StreamPairReport, v)
    requires forall v :: v in durables <==> SomeReports(previous.durables, current.durables, DurablePairReport(migrate), v)
    ensures forall v :: v in SetViolations(previous, current, allowNew) + streams + durables
                   <==> Reported(previous, current, allowNew, migrate, v)
  {
  }

  /** The report lists exactly the violations there are, none exactly when the snapshots continue each other,
      and exactly the authorised migrations. */
  method CompareFacts(previous: Facts, current: Facts, allowNew: bool, migrate: bool)
    returns (result: Result<Report, EvidenceError>)
    ensures result.Ok? <==> Readable(previous, current)
    ensures result.Ok? ==> (result.value.violations == [] <==> Continues(previous, current, allowNew, migrate))
    ensures result.Ok? ==> forall v :: v in result.value.violations <==> Reported(previous, current, allowNew, migrate, v)
    ensures result.Ok? ==>
              forall m :: m in result.value.migrations <==> Authorised(previous.durables, current.durables, migrate, m)
  {
    var streamsReadable, streamViolations, nothing: seq<Migration>, streamKeys :=
      CompareRows(previous.streams, current.streams, StreamPairReadable, StreamPairReport, (k, p, c) => []);
    var durablesReadable, durableViolations, migrations, durableKeys :=
      CompareRows(previous.durables, current.durables, PairReadable, DurablePairReport(migrate), MigrationPairReport(migrate));
    if !streamsReadable || !durablesReadable {
      return Err(Malformed);
    }
    StreamsReported(previous.streams, current.streams, streamKeys);
    GatheredFrom(previous.streams, current.streams, StreamPairReport, streamKeys);
    DurablesReported(previous.durables, current.durables, migrate, durableKeys);
    GatheredFrom(previous.durables, current.durables, DurablePairReport(migrate), durableKeys);
    MigrationsReported(previous.durables, current.durables, migrate, durableKeys);
    AllReported(previous, current, allowNew, migrate, streamViolations, durableViolations);
    return Ok(Report(SetViolations(previous, current, allowNew) + streamViolations + durableViolations, migrations));
  }

  /** `evaluate_active_runtime_continuity` */
  method EvaluateActiveRuntimeContinuity(previousStreams: Json, currentStreams: Json, previousDurables: Json,
                                         currentDurables: Json, allowNew: bool, migrate: bool)
    returns (result: Result<Report, EvidenceError>)
    ensures var ps, cs := IndexedRows(previousStreams, StreamRows), IndexedRows(currentStreams, StreamRows);
            var pd, cd := IndexedRows(previousDurables, DurableRows), IndexedRows(currentDurables, DurableRows);
      if ps.Ok? && cs.Ok? && pd.Ok? && cd.Ok? then
        var previous, current := ReadSnapshot(Snapshot(ps.value, pd.value)), ReadSnapshot(Snapshot(cs.value, cd.value));
        && (result.Ok? <==> Readable(previous, current))
        && (result.Ok? ==> (result.value.violations == [] <==> Continues(previous, current, allowNew, migrate)))
        && (result.Ok? ==> forall v :: v in result.value.violations <==> Reported(previous, current, allowNew, migrate, v))
        && (result.Ok? ==>
              forall m :: m in result.value.migrations <==> Authorised(previous.durables, current.durables, migrate, m))
      else result.Err?
  {
    var ps := IndexRows(previousStreams, StreamRows);
    var cs := IndexRows(currentStreams, StreamRows);
    var pd := IndexRows(previousDurables, DurableRows);
    var cd := IndexRows(currentDurables, DurableRows);
    if ps.Err? { return Err(ps.error); }
    if cs.Err? { return Err(cs.error); }
    if pd.Err? { return Err(pd.error); }
    if cd.Err? { return Err(cd.error); }
    result := CompareFacts(ReadSnapshot(Snapshot(ps.value, pd.value)), ReadSnapshot(Snapshot(cs.value, cd.value)),
                           allowNew, migrate);
  }
}
