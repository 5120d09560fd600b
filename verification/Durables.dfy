/** Classification of one JetStream durable against its declaration, and the stage-two
    re-validation of the persisted classification from its own raw facts.
 */
module Durables {
  import opened Json

  const TARGET_MAX_ACK_PENDING := 1

  /** What the durable cutover needs from functions outside its own text. */
  datatype Environment = Environment(isTimestamp: string -> bool)

  datatype ExpectedDurable = ExpectedDurable(
    durable: string, role: string, topic: string, stream: string, filterSubject: string,
    semantics: string, ackPolicy: string, deliverPolicy: string, ackWait: real, maxDeliver: int)

  datatype ConsumerCursor = ConsumerCursor(
    deliveredStream: int, deliveredConsumer: int, ackFloorStream: int, ackFloorConsumer: int)

  /** The immutable part of a consumer. `stream`, `deliverPolicy` and `ackPolicy` are evidence
      values: re-validation rebuilds them from a row without checking that they are text. */
  datatype ConsumerConfig = ConsumerConfig(
    stream: Json, deliverPolicy: Json, ackPolicy: Json,
    filterSubject: Option<string>, filterSubjects: seq<string>, deliverGroup: Option<string>,
    deliverSubjectPresent: bool, replayPolicy: string, headersOnly: bool, pauseUntil: Option<string>,
    backoff: seq<real>, rateLimit: int, inactiveThreshold: Option<real>, memStorage: bool,
    durableNameMatches: bool, optStartSeq: Option<int>, optStartTime: Option<string>)

  datatype ConsumerState = ConsumerState(
    durable: string, created: string, config: ConsumerConfig, maxAckPending: int, numAckPending: int,
    cursor: ConsumerCursor, ackWait: real, maxDeliver: int)

  datatype Safety = Blocked | SafeRebuildableNonEvent | SafeToReconcileInPlace | SafeToShrink | SafeAlreadyOne

  datatype Verdict = Verdict(status: Safety, blockers: seq<string>)

  datatype EvidenceError = Malformed | EvidenceTime | NotPassed | Bootstrap | TargetManifest | BadName | DuplicateIdentity

  function StatusText(s: Safety): string
  {
    match s
    case Blocked => "BLOCKED"
    case SafeRebuildableNonEvent => "SAFE_REBUILDABLE_NON_EVENT"
    case SafeToReconcileInPlace => "SAFE_TO_RECONCILE_IN_PLACE"
    case SafeToShrink => "SAFE_TO_SHRINK"
    case SafeAlreadyOne => "SAFE_ALREADY_ONE"
  }

  lemma StatusTextInjective(a: Safety, b: Safety)
    ensures StatusText(a) == StatusText(b) ==> a == b
  {
    assert StatusText(SafeRebuildableNonEvent)[5] != StatusText(SafeToReconcileInPlace)[5];
  }

  function Flag(condition: bool, code: string): seq<string>
  {
    if condition then [code] else []
  }

  // ------------------------------------------------------------ mutable configuration

  function PositiveNumber(j: Json): Option<real>
  {
    if IsNumber(j) && FloatOf(j) > 0.0 then Some(FloatOf(j)) else None
  }

  predicate AckWaitUnsafe(semantics: string, current: Json, target: Json)
  {
    var c, t := PositiveNumber(current), PositiveNumber(target);
    !(c.Some? && t.Some?
      && (c.value == t.value || (semantics in {"snapshot", "transient"} && t.value > c.value)))
  }

  predicate MaxDeliverUnsafe(current: Json, target: Json)
  {
    !(current.JInt? && target.JInt? && current.num == target.num)
  }

  function MigrationBlockers(semantics: string, currentAckWait: Json, targetAckWait: Json,
                             currentMaxDeliver: Json, targetMaxDeliver: Json): seq<string>
  {
    Flag(AckWaitUnsafe(semantics, currentAckWait, targetAckWait), "ack_wait_drift")
    + Flag(MaxDeliverUnsafe(currentMaxDeliver, targetMaxDeliver), "max_deliver_drift")
  }

  // ------------------------------------------------------------------- classification

  predicate FilterMatches(s: ConsumerState, e: ExpectedDurable)
  {
    || (s.config.filterSubject == Some(e.filterSubject) && s.config.filterSubjects == [])
    || (s.config.filterSubject in {None, Some("")} && s.config.filterSubjects == [e.filterSubject])
  }

  predicate ReducingWindow(maxAckPending: int)
  {
    maxAckPending <= 0 || maxAckPending > TARGET_MAX_ACK_PENDING
  }

  predicate OutstandingExceedsTarget(maxAckPending: int, numAckPending: int)
  {
    maxAckPending == TARGET_MAX_ACK_PENDING && numAckPending > TARGET_MAX_ACK_PENDING
  }

  function IdentityBlockers(s: ConsumerState, e: ExpectedDurable): seq<string>
  {
    Flag(s.config.stream != JStr(e.stream), "stream_drift")
    + Flag(s.config.deliverPolicy != JStr(e.deliverPolicy), "deliver_policy_drift")
    + Flag(s.config.ackPolicy != JStr(e.ackPolicy), "ack_policy_drift")
    + Flag(!FilterMatches(s, e), "filter_subject_drift")
    + Flag(s.config.deliverGroup !in {None, Some("")}, "deliver_group_drift")
    + Flag(!s.config.durableNameMatches, "durable_name_drift")
    + Flag(!s.config.deliverSubjectPresent, "push_delivery_subject_missing")
    + Flag(s.config.replayPolicy != "instant", "replay_policy_drift")
    + Flag(s.config.headersOnly, "headers_only_enabled")
    + Flag(s.config.pauseUntil != None, "consumer_paused")
    + Flag(s.config.backoff != [], "backoff_policy_drift")
    + Flag(s.config.rateLimit != 0, "rate_limit_enabled")
    + Flag(s.config.inactiveThreshold != None, "inactive_threshold_enabled")
    + Flag(s.config.memStorage, "memory_storage_enabled")
  }

  function StateMigrationBlockers(s: ConsumerState, e: ExpectedDurable): seq<string>
  {
    MigrationBlockers(e.semantics, JReal(s.ackWait), JReal(e.ackWait), JInt(s.maxDeliver), JInt(e.maxDeliver))
  }

  function StartBlockers(s: ConsumerState): seq<string>
  {
    Flag(s.config.optStartSeq != None, "start_sequence_enabled")
    + Flag(s.config.optStartTime != None, "start_time_enabled")
    + Flag(s.numAckPending < 0, "invalid_num_ack_pending")
  }

  function WindowBlockers(s: ConsumerState, e: ExpectedDurable): seq<string>
  {
    if e.semantics != "event" then []
    else if ReducingWindow(s.maxAckPending) && s.numAckPending != 0 then ["ack_window_migration_requires_drain"]
    else Flag(OutstandingExceedsTarget(s.maxAckPending, s.numAckPending), "outstanding_exceeds_target")
  }

  function Classify(s: ConsumerState, e: ExpectedDurable): Verdict
  {
    var migration := StateMigrationBlockers(s, e);
    var blockers := IdentityBlockers(s, e) + migration + StartBlockers(s) + WindowBlockers(s, e);
    var reducing := ReducingWindow(s.maxAckPending);
    var status :=
      if blockers != [] then Blocked
      else if e.semantics != "event"
              && ((reducing && s.numAckPending != 0) || OutstandingExceedsTarget(s.maxAckPending, s.numAckPending))
      then SafeRebuildableNonEvent
      else if s.ackWait != e.ackWait && "ack_wait_drift" !in migration then SafeToReconcileInPlace
      else if reducing then SafeToShrink
      else SafeAlreadyOne;
    Verdict(status, blockers)
  }

  // --------------------------------------------------------------------- evidence rows

  function IdentityRow(stream: Json, durable: string, e: ExpectedDurable): Json
  {
    JIdentity(stream, JStr(durable), JStr(e.role), JStr(e.topic), JStr(e.semantics))
  }

  function CursorRow(c: ConsumerCursor): Json
  {
    JCursor(JInt(c.deliveredStream), JInt(c.deliveredConsumer), JInt(c.ackFloorStream), JInt(c.ackFloorConsumer))
  }

  function ActualConfig(c: ConsumerConfig): Json
  {
    JActual(
      filterSubjects := FromTexts(c.filterSubjects),
      common := DeclaredConfig(
        stream := c.stream,
        deliverPolicy := c.deliverPolicy,
        ackPolicy := c.ackPolicy,
        filterSubject := FromOptionalText(c.filterSubject),
        deliverGroup := FromOptionalText(c.deliverGroup),
        deliverSubjectPresent := JBool(c.deliverSubjectPresent),
        replayPolicy := JStr(c.replayPolicy),
        headersOnly := JBool(c.headersOnly),
        pauseUntil := FromOptionalText(c.pauseUntil),
        backoff := FromFloats(c.backoff),
        rateLimit := JInt(c.rateLimit),
        inactiveThreshold := FromOptionalFloat(c.inactiveThreshold),
        memStorage := JBool(c.memStorage),
        durableNameMatches := JBool(c.durableNameMatches),
        optStartSeq := FromOptionalInt(c.optStartSeq),
        optStartTime := FromOptionalText(c.optStartTime)))
  }

  function ExpectedConfig(e: ExpectedDurable): Json
  {
    JExpected(
      DeclaredConfig(
        stream := JStr(e.stream),
        deliverPolicy := JStr(e.deliverPolicy),
        ackPolicy := JStr(e.ackPolicy),
        filterSubject := JStr(e.filterSubject),
        deliverGroup := JNull,
        deliverSubjectPresent := JBool(true),
        replayPolicy := JStr("instant"),
        headersOnly := JBool(false),
        pauseUntil := JNull,
        backoff := JArr([]),
        rateLimit := JInt(0),
        inactiveThreshold := JNull,
        memStorage := JBool(false),
        durableNameMatches := JBool(true),
        optStartSeq := JNull,
        optStartTime := JNull))
  }

  function MutableRow(ackWait: real, maxDeliver: int): Json
  {
    JMutable(JReal(ackWait), JInt(maxDeliver))
  }

  function BuildRow(s: ConsumerState, e: ExpectedDurable, verdict: Verdict): Json
  {
    JRow(
      identity := IdentityRow(s.config.stream, s.durable, e),
      created := JStr(s.created),
      cursor := CursorRow(s.cursor),
      immutable := JPair(ActualConfig(s.config), ExpectedConfig(e)),
      mutable := JPair(MutableRow(s.ackWait, s.maxDeliver), MutableRow(e.ackWait, e.maxDeliver)),
      window := JWindow(JInt(s.maxAckPending), JInt(TARGET_MAX_ACK_PENDING)),
      outstanding := JOutstanding(JInt(s.numAckPending)),
      status := JStr(StatusText(verdict.status)),
      blockers := FromTexts(verdict.blockers))
  }

  function EvaluateConsumer(s: ConsumerState, e: ExpectedDurable): Json
  {
    BuildRow(s, e, Classify(s, e))
  }

  // --------------------------------------------------------- re-validation of a row

  predicate IsRowInteger(j: Json) { j.JInt? && j.num >= 0 }

  predicate ConfigShape(row: Json, e: ExpectedDurable)
    requires row.JRow?
  {
    && row.immutable.JPair? && row.mutable.JPair?
    && PyEq(row.immutable.expected, ExpectedConfig(e)) && row.immutable.actual.JActual?
    && PyEq(row.mutable.expected, MutableRow(e.ackWait, e.maxDeliver)) && row.mutable.actual.JMutable?
  }

  predicate CounterShape(row: Json)
    requires row.JRow?
  {
    && row.cursor.JCursor? && row.window.JWindow? && row.outstanding.JOutstanding?
    && IsRowInteger(row.cursor.deliveredStream) && IsRowInteger(row.cursor.deliveredConsumer)
    && IsRowInteger(row.cursor.ackFloorStream) && IsRowInteger(row.cursor.ackFloorConsumer)
    && row.window.current.JInt?
    && !row.window.target.JBool? && PyEq(row.window.target, JInt(TARGET_MAX_ACK_PENDING))
    && IsRowInteger(row.outstanding.numAckPending)
  }

  predicate ConfigTypes(filterSubjects: Json, c: DeclaredConfig)
  {
    && IsOptionalText(c.filterSubject) && IsTexts(filterSubjects) && IsOptionalText(c.deliverGroup)
    && IsFloats(c.backoff) && IsOptionalText(c.pauseUntil)
    && (c.inactiveThreshold.JNull? || IsNumber(c.inactiveThreshold))
    && c.rateLimit.JInt? && c.deliverSubjectPresent.JBool? && c.replayPolicy.JStr?
    && c.headersOnly.JBool? && c.memStorage.JBool? && c.durableNameMatches.JBool?
    && (c.optStartSeq.JNull? || IsRowInteger(c.optStartSeq)) && IsOptionalText(c.optStartTime)
  }

  predicate RowShape(row: Json, e: ExpectedDurable)
    requires row.JRow?
  {
    && ConfigShape(row, e) && CounterShape(row)
    && ConfigTypes(row.immutable.actual.filterSubjects, row.immutable.actual.common)
    && IsNumber(row.mutable.actual.ackWait) && row.mutable.actual.maxDeliver.JInt?
  }

  function ReadConfig(filterSubjects: Json, c: DeclaredConfig): ConsumerConfig
  {
    ConsumerConfig(
      stream := c.stream,
      deliverPolicy := c.deliverPolicy,
      ackPolicy := c.ackPolicy,
      filterSubject := ToOptionalText(c.filterSubject),
      filterSubjects := ToTexts(filterSubjects),
      deliverGroup := ToOptionalText(c.deliverGroup),
      deliverSubjectPresent := BoolOf(c.deliverSubjectPresent),
      replayPolicy := TextOf(c.replayPolicy),
      headersOnly := BoolOf(c.headersOnly),
      pauseUntil := ToOptionalText(c.pauseUntil),
      backoff := ToFloats(c.backoff),
      rateLimit := IntOf(c.rateLimit),
      inactiveThreshold := if c.inactiveThreshold.JNull? then None else Some(FloatOf(c.inactiveThreshold)),
      memStorage := BoolOf(c.memStorage),
      durableNameMatches := BoolOf(c.durableNameMatches),
      optStartSeq := if c.optStartSeq.JNull? then None else Some(IntOf(c.optStartSeq)),
      optStartTime := ToOptionalText(c.optStartTime))
  }

  function Reconstruct(row: Json, e: ExpectedDurable): ConsumerState
    requires row.JRow? && RowShape(row, e)
  {
    ConsumerState(
      durable := e.durable,
      created := TextOf(row.created),
      config := ReadConfig(row.immutable.actual.filterSubjects, row.immutable.actual.common),
      maxAckPending := row.window.current.num,
      numAckPending := row.outstanding.numAckPending.num,
      cursor := ConsumerCursor(row.cursor.deliveredStream.num, row.cursor.deliveredConsumer.num,
                               row.cursor.ackFloorStream.num, row.cursor.ackFloorConsumer.num),
      ackWait := FloatOf(row.mutable.actual.ackWait),
      maxDeliver := row.mutable.actual.maxDeliver.num)
  }

  function Recompute(row: Json, e: ExpectedDurable, env: Environment): Result<Json, EvidenceError>
  {
    if !row.JRow? || !PyEq(row.identity, IdentityRow(JStr(e.stream), e.durable, e)) then
      Err(Malformed)
    else if !(row.created.JStr? && env.isTimestamp(row.created.text)) then
      Err(EvidenceTime)
    else if !RowShape(row, e) then
      Err(Malformed)
    else
      var recomputed := EvaluateConsumer(Reconstruct(row, e), e);
      if PyEq(recomputed, row) then Ok(recomputed) else Err(Malformed)
  }

  // ------------------------------------------------------------------------ theorems

  /** A state as the broker reader produces it, on the declared stream. */
  predicate WellFormed(s: ConsumerState, e: ExpectedDurable, env: Environment)
  {
    && s.durable == e.durable && s.config.stream == JStr(e.stream) && env.isTimestamp(s.created)
    && s.cursor.deliveredStream >= 0 && s.cursor.deliveredConsumer >= 0
    && s.cursor.ackFloorStream >= 0 && s.cursor.ackFloorConsumer >= 0
    && s.numAckPending >= 0 && (s.config.optStartSeq.Some? ==> s.config.optStartSeq.value >= 0)
  }

  lemma ReadConfigInvertsActual(c: ConsumerConfig)
    ensures ReadConfig(ActualConfig(c).filterSubjects, ActualConfig(c).common) == c
  {
    assert ToTexts(FromTexts(c.filterSubjects)) == c.filterSubjects;
    assert ToFloats(FromFloats(c.backoff)) == c.backoff;
  }

  lemma BuiltRowReads(s: ConsumerState, e: ExpectedDurable, v: Verdict, env: Environment)
    requires WellFormed(s, e, env)
    ensures RowShape(BuildRow(s, e, v), e) && Reconstruct(BuildRow(s, e, v), e) == s
  {
    ReadConfigInvertsActual(s.config);
  }

  lemma ImageIsAccepted(s: ConsumerState, e: ExpectedDurable, env: Environment)
    requires WellFormed(s, e, env)
    ensures Recompute(EvaluateConsumer(s, e), e, env) == Ok(EvaluateConsumer(s, e))
  {
    BuiltRowReads(s, e, Classify(s, e), env);
  }

  lemma EqualRowsHaveEqualIdentities(a: Json, b: Json)
    requires a.JRow? && b.JRow? && PyEq(a, b)
    ensures PyEq(a.identity, b.identity)
  {
    RowsEqual(a, b);
  }

  lemma EqualIdentitiesNameOneStream(stream: Json, e: ExpectedDurable)
    requires PyEq(IdentityRow(stream, e.durable, e), IdentityRow(JStr(e.stream), e.durable, e))
    ensures stream == JStr(e.stream)
  {
    IdentitiesEqual(IdentityRow(stream, e.durable, e), IdentityRow(JStr(e.stream), e.durable, e));
    ScalarsEqual(stream, JStr(e.stream));
  }

  lemma AcceptedIsInImage(row: Json, e: ExpectedDurable, env: Environment)
    requires Recompute(row, e, env).Ok?
    ensures var s := Reconstruct(row, e);
            && WellFormed(s, e, env)
            && Recompute(row, e, env).value == EvaluateConsumer(s, e)
            && PyEq(row, EvaluateConsumer(s, e))
  {
    var s := Reconstruct(row, e);
    EqualRowsHaveEqualIdentities(EvaluateConsumer(s, e), row);
    EqualIdentitiesNameOneStream(s.config.stream, e);
  }

  /** Re-validation returns a row untouched exactly for the rows the classifier can emit. */
  lemma ReturnedUnchangedIffInImage(row: Json, e: ExpectedDurable, env: Environment)
    ensures Recompute(row, e, env) == Ok(row) <==> exists s :: WellFormed(s, e, env) && row == EvaluateConsumer(s, e)
  {
    if Recompute(row, e, env) == Ok(row) {
      AcceptedIsInImage(row, e, env);
    }
    if s :| WellFormed(s, e, env) && row == EvaluateConsumer(s, e) {
      ImageIsAccepted(s, e, env);
    }
  }

  /** What re-validation hands on is itself re-validated to the same row. */
  lemma RecomputeIdempotent(row: Json, e: ExpectedDurable, env: Environment)
    requires Recompute(row, e, env).Ok?
    ensures Recompute(Recompute(row, e, env).value, e, env) == Recompute(row, e, env)
  {
    AcceptedIsInImage(row, e, env);
    ImageIsAccepted(Reconstruct(row, e), e, env);
  }

  function StoreAckWaitAs(row: Json, ackWait: Json): Json
    requires row.JRow? && row.mutable.JPair? && row.mutable.actual.JMutable?
  {
    row.(mutable := JPair(JMutable(ackWait, row.mutable.actual.maxDeliver), row.mutable.expected))
  }

  lemma EqualExceptMutable(row: Json, other: Json)
    requires row.JRow? && PyEq(row.mutable, other)
    ensures PyEq(row, row.(mutable := other))
  {
    RowsEqual(row, row.(mutable := other));
  }

  lemma EqualAckWaits(a: Json, b: Json, maxDeliver: Json, expected: Json)
    requires PyEq(a, b)
    ensures PyEq(JPair(JMutable(a, maxDeliver), expected), JPair(JMutable(b, maxDeliver), expected))
  {
    MutablesEqual(JMutable(a, maxDeliver), JMutable(b, maxDeliver));
    PairsEqual(JPair(JMutable(a, maxDeliver), expected), JPair(JMutable(b, maxDeliver), expected));
  }

  lemma StoredAckWaitCompares(row: Json, ackWait: Json)
    requires row.JRow? && row.mutable.JPair? && row.mutable.actual.JMutable? && PyEq(row.mutable.actual.ackWait, ackWait)
    ensures PyEq(row, StoreAckWaitAs(row, ackWait))
  {
    EqualAckWaits(row.mutable.actual.ackWait, ackWait, row.mutable.actual.maxDeliver, row.mutable.expected);
    EqualExceptMutable(row, StoreAckWaitAs(row, ackWait).mutable);
  }

  lemma StoredAckWaitReads(s: ConsumerState, e: ExpectedDurable, v: Verdict, env: Environment, seconds: int)
    requires WellFormed(s, e, env) && s.ackWait == seconds as real
    ensures var row := StoreAckWaitAs(BuildRow(s, e, v), JInt(seconds));
            RowShape(row, e) && Reconstruct(row, e) == s
  {
    BuiltRowReads(s, e, v, env);
  }

  /** Re-validation is not the identity on accepted rows: Python numbers compare across types, so a
      row that stores a whole ack wait as an integer is accepted and handed on as a float. */
  lemma AcceptedRowNeedNotBeInImage(s: ConsumerState, e: ExpectedDurable, env: Environment, seconds: int)
    requires WellFormed(s, e, env) && s.ackWait == seconds as real
    ensures var written := EvaluateConsumer(s, e);
            var stored := StoreAckWaitAs(written, JInt(seconds));
            stored != written && Recompute(stored, e, env) == Ok(written)
  {
    var v := Classify(s, e);
    ScalarsEqual(JInt(seconds), JReal(s.ackWait));
    StoredAckWaitCompares(BuildRow(s, e, v), JInt(seconds));
    StoredAckWaitReads(s, e, v, env, seconds);
  }

  /** A verdict is never self-attested: two accepted rows with the same raw facts carry the same verdict. */
  lemma VerdictCannotBeForged(row: Json, e: ExpectedDurable, env: Environment, status: Json, blockers: Json)
    requires row.JRow?
    requires Recompute(row, e, env).Ok?
    requires Recompute(row.(status := status, blockers := blockers), e, env).Ok?
    ensures PyEq(status, row.status) && PyEq(blockers, row.blockers)
  {
    var forged := row.(status := status, blockers := blockers);
    assert Reconstruct(forged, e) == Reconstruct(row, e);
    assert PyEq(forged, row);
    RowsEqual(forged, row);
  }

  /** The settings a declaration asks for, in the plain filter form. */
  predicate SettingsAreDeclared(c: ConsumerConfig, e: ExpectedDurable)
  {
    ActualConfig(c.(filterSubject := Some(e.filterSubject), filterSubjects := [], deliverGroup := None))
    == JActual(JArr([]), ExpectedConfig(e).common)
  }

  /** Exactly the consumers that may be kept: every immutable setting is the declared one (up to the two
      spellings of a filter and of no delivery group), and the mutable ones can reach their targets without
      losing an unacknowledged event. */
  lemma UnblockedIffConfigured(s: ConsumerState, e: ExpectedDurable)
    ensures Classify(s, e).status != Blocked
       <==> && SettingsAreDeclared(s.config, e) && FilterMatches(s, e) && s.config.deliverGroup in {None, Some("")}
            && s.maxDeliver == e.maxDeliver && 0.0 < s.ackWait <= e.ackWait
            && (e.semantics !in {"snapshot", "transient"} ==> s.ackWait == e.ackWait)
            && s.numAckPending >= 0
            && (e.semantics == "event" ==> s.numAckPending <= (if s.maxAckPending == 1 then 1 else 0))
  {
    var m := StateMigrationBlockers(s, e);
    var b := IdentityBlockers(s, e) + m + StartBlockers(s) + WindowBlockers(s, e);
    assert b == [] <==> m == [] && StartBlockers(s) == [] && WindowBlockers(s, e) == [] && IdentityBlockers(s, e) == [];
    DeclaredSettings(s, e);
    assert (ReducingWindow(s.maxAckPending) <==> s.maxAckPending != 1);
  }

  predicate NothingEnabled(c: ConsumerConfig, e: ExpectedDurable)
  {
    && c.stream == JStr(e.stream) && c.deliverPolicy == JStr(e.deliverPolicy) && c.ackPolicy == JStr(e.ackPolicy)
    && c.durableNameMatches && c.deliverSubjectPresent && c.replayPolicy == "instant" && !c.headersOnly
    && c.pauseUntil == None && c.backoff == [] && c.rateLimit == 0 && c.inactiveThreshold == None && !c.memStorage
    && c.optStartSeq == None && c.optStartTime == None
  }

  lemma DeclaredSettings(s: ConsumerState, e: ExpectedDurable)
    ensures IdentityBlockers(s, e) == [] && StartBlockers(s) == []
       <==> SettingsAreDeclared(s.config, e) && FilterMatches(s, e) && s.config.deliverGroup in {None, Some("")}
            && s.numAckPending >= 0
  {
    SettingsByField(s.config, e);
    assert IdentityBlockers(s, e) == [] && StartBlockers(s) == []
      <==> NothingEnabled(s.config, e) && FilterMatches(s, e) && s.config.deliverGroup in {None, Some("")}
           && s.numAckPending >= 0;
  }

  lemma SettingsByField(c: ConsumerConfig, e: ExpectedDurable)
    ensures SettingsAreDeclared(c, e) <==> NothingEnabled(c, e)
  {
    assert |FromFloats(c.backoff).items| == |c.backoff|;
    assert FromFloats([]) == JArr([]) && FromTexts([]) == JArr([]);
  }

  /** For a consumer that is not blocked, the verdict is decided by the window, what is outstanding and the
      acknowledgement wait. */
  lemma VerdictMeaning(s: ConsumerState, e: ExpectedDurable)
    ensures var v := Classify(s, e);
      && (v.status == Blocked <==> v.blockers != [])
      && (v.status != Blocked ==>
            var fits := s.numAckPending <= (if s.maxAckPending == 1 then 1 else 0);
            && (v.status == SafeRebuildableNonEvent <==> !fits)
            && (v.status == SafeToReconcileInPlace <==> fits && s.ackWait < e.ackWait)
            && (v.status == SafeToShrink <==> fits && s.ackWait == e.ackWait && s.maxAckPending != 1)
            && (v.status == SafeAlreadyOne <==> fits && s.ackWait == e.ackWait && s.maxAckPending == 1))
  {
    UnblockedIffConfigured(s, e);
    var m := StateMigrationBlockers(s, e);
    var b := IdentityBlockers(s, e) + m + StartBlockers(s) + WindowBlockers(s, e);
    assert b == [] ==> m == [];
  }
}
