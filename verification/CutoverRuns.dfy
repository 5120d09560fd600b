/** What whole runs of accepted active checks keep, for rows written by the classifier. */
module CutoverRuns {
  import opened Json
  import opened Durables
  import opened Evidence
  import opened Comparison
  import opened ActiveContinuity
  import opened Collections
  import opened Inventory

  /** The evidence of one snapshot together with the broker states its durable rows were written from. */
  datatype Observation = Observation(facts: Facts, states: map<Key, ConsumerState>)

  type Declaration = map<Key, ExpectedDurable>

  // ------------------------------------------------------- one step, in broker terms

  predicate SameConfig(s: ConsumerState, t: ConsumerState)
  {
    PyEq(ActualConfig(s.config), ActualConfig(t.config))
  }

  predicate Is(s: ConsumerState, e: ExpectedDurable, status: Safety)
  {
    Classify(s, e).status == status
  }

  predicate Steady(s: ConsumerState, t: ConsumerState)
  {
    && s.created == t.created && s.ackWait == t.ackWait && s.maxDeliver == t.maxDeliver
    && s.maxAckPending == t.maxAckPending && CursorAdvances(s.cursor, t.cursor)
  }

  predicate Shrunk(s: ConsumerState, t: ConsumerState, e: ExpectedDurable)
  {
    && Is(s, e, SafeToShrink) && Is(t, e, SafeAlreadyOne) && s.created == t.created && CursorAdvances(s.cursor, t.cursor)
  }

  predicate Reconciled(s: ConsumerState, t: ConsumerState, e: ExpectedDurable)
  {
    && Is(s, e, SafeToReconcileInPlace) && Is(t, e, SafeAlreadyOne) && s.created == t.created
    && CursorAdvances(s.cursor, t.cursor)
  }

  predicate Rebuilt(s: ConsumerState, t: ConsumerState, e: ExpectedDurable)
  {
    IsNonEvent(e.semantics) && Is(s, e, SafeRebuildableNonEvent) && Is(t, e, SafeAlreadyOne) && s.created != t.created
  }

  predicate InPlace(s: ConsumerState, t: ConsumerState, e: ExpectedDurable)
  {
    Shrunk(s, t, e) || Reconciled(s, t, e)
  }

  predicate Kind(s: ConsumerState, t: ConsumerState, e: ExpectedDurable)
  {
    Steady(s, t) || InPlace(s, t, e) || Rebuilt(s, t, e)
  }

  predicate Step(s: ConsumerState, t: ConsumerState, e: ExpectedDurable)
  {
    SameConfig(s, t) && Kind(s, t, e)
  }

  // ------------------------------------------------ the check on rows is that one step

  predicate Countable(s: ConsumerState)
  {
    && s.maxAckPending >= 0 && s.numAckPending >= 0
    && s.cursor.deliveredStream >= 0 && s.cursor.deliveredConsumer >= 0
    && s.cursor.ackFloorStream >= 0 && s.cursor.ackFloorConsumer >= 0
  }

  /** `p` says of the state what the row of the classifier says. */
  predicate Describes(p: DurableFacts, s: ConsumerState, e: ExpectedDurable)
  {
    && p.semantics == e.semantics && p.created == JStr(s.created)
    && p.ackWait == JReal(s.ackWait) && p.targetAckWait == JReal(e.ackWait)
    && p.maxDeliverMatches == (s.maxDeliver == e.maxDeliver)
    && p.migrationBlocked == (StateMigrationBlockers(s, e) != [])
    && p.current == s.maxAckPending && p.target == TARGET_MAX_ACK_PENDING && p.numAckPending == Some(s.numAckPending)
    && p.cursor == s.cursor && p.status == JStr(StatusText(Classify(s, e).status))
  }

  /** The dictionaries of the row that the check compares as wholes. */
  predicate Carries(p: DurableFacts, s: ConsumerState, e: ExpectedDurable)
  {
    && p.immutable == Norm(JPair(ActualConfig(s.config), ExpectedConfig(e)))
    && p.mutable == Norm(JPair(MutableRow(s.ackWait, s.maxDeliver), MutableRow(e.ackWait, e.maxDeliver)))
    && p.actual == Norm(MutableRow(s.ackWait, s.maxDeliver)) && p.expected == Norm(MutableRow(e.ackWait, e.maxDeliver))
    && p.window == Norm(JWindow(JInt(s.maxAckPending), JInt(TARGET_MAX_ACK_PENDING)))
  }

  /** The view of the classifier's row, but for the immutable configuration. */
  predicate ViewsCounters(view: RowView, s: ConsumerState, e: ExpectedDurable)
  {
    && view.identity == IdentityRow(s.config.stream, s.durable, e) && view.created == JStr(s.created)
    && view.cursor == CursorRow(s.cursor) && view.outstanding == JOutstanding(JInt(s.numAckPending))
    && view.mutable == JPair(MutableRow(s.ackWait, s.maxDeliver), MutableRow(e.ackWait, e.maxDeliver))
    && view.window == JWindow(JInt(s.maxAckPending), JInt(TARGET_MAX_ACK_PENDING))
  }

  predicate ViewsState(view: RowView, s: ConsumerState, e: ExpectedDurable)
  {
    && ViewsCounters(view, s, e)
    && view.immutable == JPair(ActualConfig(s.config), ExpectedConfig(e))
    && view.status == JStr(StatusText(Classify(s, e).status))
  }

  lemma CursorRowReads(c: ConsumerCursor)
    ensures ReadCursor(CursorRow(c)) ==
            if c.deliveredStream >= 0 && c.deliveredConsumer >= 0 && c.ackFloorStream >= 0 && c.ackFloorConsumer >= 0
            then Ok(c) else Err(Malformed)
  {
  }

  lemma PartsReadableIffCountable(s: ConsumerState, e: ExpectedDurable, view: RowView)
    requires s.numAckPending >= 0 && ViewsCounters(view, s, e)
    ensures PartsReadable(view) <==> Countable(s)
  {
    CursorRowReads(s.cursor);
  }

  lemma PartsDescribe(s: ConsumerState, e: ExpectedDurable, view: RowView)
    requires s.numAckPending >= 0 && ViewsCounters(view, s, e) && PartsReadable(view)
    requires view.status == JStr(StatusText(Classify(s, e).status))
    ensures Describes(ReadParts(view), s, e)
  {
    CursorRowReads(s.cursor);
    MutableParts(s, e, view.mutable);
  }

  lemma MutableParts(s: ConsumerState, e: ExpectedDurable, mutable: Json)
    requires mutable == JPair(MutableRow(s.ackWait, s.maxDeliver), MutableRow(e.ackWait, e.maxDeliver))
    ensures var actual, expected := ViewMutable(ViewPair(mutable).first), ViewMutable(ViewPair(mutable).second);
      && Norm(actual.first) == JReal(s.ackWait) && Norm(expected.first) == JReal(e.ackWait)
      && (PyEq(actual.second, expected.second) <==> s.maxDeliver == e.maxDeliver)
      && MigrationBlockers(e.semantics, actual.first, expected.first, actual.second, expected.second)
         == StateMigrationBlockers(s, e)
  {
    ScalarsEqual(JInt(s.maxDeliver), JInt(e.maxDeliver));
  }

  lemma PartsCarry(s: ConsumerState, e: ExpectedDurable, view: RowView)
    requires ViewsState(view, s, e) && PartsReadable(view)
    ensures Carries(ReadParts(view), s, e)
  {
  }

  /** A row of the classifier can be read back by the active check only if its window is not negative,
      although the classifier accepts any window. */
  lemma EvaluatedRowReads(s: ConsumerState, e: ExpectedDurable)
    requires s.numAckPending >= 0
    ensures var read := ReadDurable(EvaluateConsumer(s, e));
            (read.Ok? <==> Countable(s)) && (read.Ok? ==> Describes(read.value, s, e) && Carries(read.value, s, e))
  {
    var view := ViewRow(EvaluateConsumer(s, e));
    PartsReadableIffCountable(s, e, view);
    if Countable(s) {
      PartsDescribe(s, e, view);
      PartsCarry(s, e, view);
    }
  }

  lemma MutableRowsEqual(x: real, m: int, y: real, n: int)
    ensures PyEq(MutableRow(x, m), MutableRow(y, n)) <==> x == y && m == n
  {
    MutablesEqual(MutableRow(x, m), MutableRow(y, n));
    ScalarsEqual(JReal(x), JReal(y));
    ScalarsEqual(JInt(m), JInt(n));
  }

  lemma SameMutable(p: DurableFacts, c: DurableFacts, s: ConsumerState, t: ConsumerState, e: ExpectedDurable)
    requires Carries(p, s, e) && Carries(c, t, e)
    ensures p.mutable == c.mutable <==> s.ackWait == t.ackWait && s.maxDeliver == t.maxDeliver
    ensures p.actual == p.expected <==> s.ackWait == e.ackWait && s.maxDeliver == e.maxDeliver
    ensures p.expected == c.expected
  {
    MutableRowsEqual(s.ackWait, s.maxDeliver, t.ackWait, t.maxDeliver);
    MutableRowsEqual(s.ackWait, s.maxDeliver, e.ackWait, e.maxDeliver);
    PairsEqual(JPair(MutableRow(s.ackWait, s.maxDeliver), MutableRow(e.ackWait, e.maxDeliver)),
               JPair(MutableRow(t.ackWait, t.maxDeliver), MutableRow(e.ackWait, e.maxDeliver)));
  }

  lemma SameWindow(p: DurableFacts, c: DurableFacts, s: ConsumerState, t: ConsumerState, e: ExpectedDurable)
    requires Carries(p, s, e) && Carries(c, t, e)
    ensures p.window == c.window <==> s.maxAckPending == t.maxAckPending
  {
    WindowsEqual(JWindow(JInt(s.maxAckPending), JInt(TARGET_MAX_ACK_PENDING)),
                 JWindow(JInt(t.maxAckPending), JInt(TARGET_MAX_ACK_PENDING)));
    ScalarsEqual(JInt(s.maxAckPending), JInt(t.maxAckPending));
  }

  lemma SameImmutable(p: DurableFacts, c: DurableFacts, s: ConsumerState, t: ConsumerState, e: ExpectedDurable)
    requires Carries(p, s, e) && Carries(c, t, e)
    ensures p.immutable == c.immutable <==> SameConfig(s, t)
  {
    PairsEqual(JPair(ActualConfig(s.config), ExpectedConfig(e)), JPair(ActualConfig(t.config), ExpectedConfig(e)));
  }

  lemma StatusMeaning(p: DurableFacts, s: ConsumerState, e: ExpectedDurable, status: Safety)
    requires Describes(p, s, e)
    ensures HasStatus(p, status) <==> Is(s, e, status)
  {
    StatusTextInjective(Classify(s, e).status, status);
  }

  lemma ShrinkIsShrunk(p: DurableFacts, c: DurableFacts, s: ConsumerState, t: ConsumerState, e: ExpectedDurable)
    requires Describes(p, s, e) && Describes(c, t, e) && p.immutable == c.immutable
    requires p.mutable == c.mutable <==> s.ackWait == t.ackWait && s.maxDeliver == t.maxDeliver
    ensures InPlaceShrink(p, c) && CursorAdvances(p.cursor, c.cursor) <==> Shrunk(s, t, e)
  {
    StatusMeaning(p, s, e, SafeToShrink);
    StatusMeaning(c, t, e, SafeAlreadyOne);
    VerdictMeaning(s, e);
    VerdictMeaning(t, e);
  }

  lemma ReconcileIsReconciled(p: DurableFacts, c: DurableFacts, s: ConsumerState, t: ConsumerState, e: ExpectedDurable)
    requires Describes(p, s, e) && Describes(c, t, e) && p.immutable == c.immutable && p.expected == c.expected
    requires p.actual == p.expected <==> s.ackWait == e.ackWait && s.maxDeliver == e.maxDeliver
    requires c.actual == c.expected <==> t.ackWait == e.ackWait && t.maxDeliver == e.maxDeliver
    ensures InPlaceReconcile(p, c) && CursorAdvances(p.cursor, c.cursor) <==> Reconciled(s, t, e)
  {
    StatusMeaning(p, s, e, SafeToReconcileInPlace);
    StatusMeaning(c, t, e, SafeAlreadyOne);
    VerdictMeaning(s, e);
    VerdictMeaning(t, e);
  }

  lemma RebuildIsRebuilt(p: DurableFacts, c: DurableFacts, s: ConsumerState, t: ConsumerState, e: ExpectedDurable)
    requires Describes(p, s, e) && Describes(c, t, e) && p.immutable == c.immutable && p.expected == c.expected
    requires c.actual == c.expected <==> t.ackWait == e.ackWait && t.maxDeliver == e.maxDeliver
    ensures Rebuild(p, c) <==> Rebuilt(s, t, e)
  {
    StatusMeaning(p, s, e, SafeRebuildableNonEvent);
    StatusMeaning(c, t, e, SafeAlreadyOne);
    VerdictMeaning(s, e);
    VerdictMeaning(t, e);
  }

  lemma ContinuesIsKind(p: DurableFacts, c: DurableFacts, s: ConsumerState, t: ConsumerState, e: ExpectedDurable)
    requires Describes(p, s, e) && Describes(c, t, e) && p.expected == c.expected
    requires p.mutable == c.mutable <==> s.ackWait == t.ackWait && s.maxDeliver == t.maxDeliver
    requires p.window == c.window <==> s.maxAckPending == t.maxAckPending
    requires p.actual == p.expected <==> s.ackWait == e.ackWait && s.maxDeliver == e.maxDeliver
    requires c.actual == c.expected <==> t.ackWait == e.ackWait && t.maxDeliver == e.maxDeliver
    ensures DurableContinues(p, c, true) <==> p.immutable == c.immutable && Kind(s, t, e)
  {
    if p.immutable == c.immutable {
      ShrinkIsShrunk(p, c, s, t, e);
      ReconcileIsReconciled(p, c, s, t, e);
      RebuildIsRebuilt(p, c, s, t, e);
    }
  }

  /** On rows written by the classifier, passing the active check with migrations allowed is exactly one
      of: nothing but progress, a window shrink, an ack-wait raise, or a rebuild of a non-event durable. */
  lemma CheckIsStep(p: DurableFacts, c: DurableFacts, s: ConsumerState, t: ConsumerState, e: ExpectedDurable)
    requires Describes(p, s, e) && Describes(c, t, e) && Carries(p, s, e) && Carries(c, t, e)
    ensures DurableContinues(p, c, true) <==> Step(s, t, e)
  {
    SameMutable(p, c, s, t, e);
    SameMutable(c, p, t, s, e);
    SameWindow(p, c, s, t, e);
    SameImmutable(p, c, s, t, e);
    ContinuesIsKind(p, c, s, t, e);
  }

  // -------------------------------------------------- equal configurations are the same

  lemma OptionalsEqual(a: Option<string>, b: Option<string>, m: Option<int>, n: Option<int>, x: Option<real>, y: Option<real>)
    ensures PyEq(FromOptionalText(a), FromOptionalText(b)) ==> a == b
    ensures PyEq(FromOptionalInt(m), FromOptionalInt(n)) ==> m == n
    ensures PyEq(FromOptionalFloat(x), FromOptionalFloat(y)) ==> x == y
  {
  }

  lemma TextsEqual(xs: seq<string>, ys: seq<string>)
    requires PyEq(FromTexts(xs), FromTexts(ys))
    ensures xs == ys
  {
    var a, b := Norm(FromTexts(xs)).items, Norm(FromTexts(ys)).items;
    assert |xs| == |a| == |b| == |ys|;
    forall i | 0 <= i < |xs| ensures xs[i] == ys[i] {
      assert a[i] == Norm(JStr(xs[i])) && b[i] == Norm(JStr(ys[i]));
    }
  }

  lemma FloatsEqual(xs: seq<real>, ys: seq<real>)
    requires PyEq(FromFloats(xs), FromFloats(ys))
    ensures xs == ys
  {
    var a, b := Norm(FromFloats(xs)).items, Norm(FromFloats(ys)).items;
    assert |xs| == |a| == |b| == |ys|;
    forall i | 0 <= i < |xs| ensures xs[i] == ys[i] {
      assert a[i] == Norm(JReal(xs[i])) && b[i] == Norm(JReal(ys[i]));
    }
  }

  lemma BoolsEqual(a: bool, b: bool)
    requires PyEq(JBool(a), JBool(b))
    ensures a == b
  {
  }

  lemma ActualsEqual(f: Json, c: DeclaredConfig, g: Json, d: DeclaredConfig)
    requires PyEq(JActual(f, c), JActual(g, d))
    ensures PyEq(f, g) && NormConfig(c) == NormConfig(d)
  {
    assert NormRecord(JActual(f, c)) == Norm(JActual(f, c)) && NormRecord(JActual(g, d)) == Norm(JActual(g, d));
  }

  lemma ConfigFieldsEqual(c: DeclaredConfig, d: DeclaredConfig)
    requires NormConfig(c) == NormConfig(d)
    ensures PyEq(c.stream, d.stream) && PyEq(c.deliverPolicy, d.deliverPolicy) && PyEq(c.ackPolicy, d.ackPolicy)
    ensures PyEq(c.filterSubject, d.filterSubject) && PyEq(c.deliverGroup, d.deliverGroup)
    ensures PyEq(c.deliverSubjectPresent, d.deliverSubjectPresent) && PyEq(c.replayPolicy, d.replayPolicy)
    ensures PyEq(c.headersOnly, d.headersOnly) && PyEq(c.pauseUntil, d.pauseUntil) && PyEq(c.backoff, d.backoff)
    ensures PyEq(c.rateLimit, d.rateLimit) && PyEq(c.inactiveThreshold, d.inactiveThreshold)
    ensures PyEq(c.memStorage, d.memStorage) && PyEq(c.durableNameMatches, d.durableNameMatches)
    ensures PyEq(c.optStartSeq, d.optStartSeq) && PyEq(c.optStartTime, d.optStartTime)
  {
  }

  lemma SameConfigIsEqual(c: ConsumerConfig, d: ConsumerConfig)
    requires HasTextPolicies(c) && HasTextPolicies(d) && PyEq(ActualConfig(c), ActualConfig(d))
    ensures c == d
  {
    var a, b := ActualConfig(c), ActualConfig(d);
    ActualsEqual(a.filterSubjects, a.common, b.filterSubjects, b.common);
    ConfigFieldsEqual(a.common, b.common);
    TextsEqual(c.filterSubjects, d.filterSubjects);
    FloatsEqual(c.backoff, d.backoff);
    ScalarsEqual(c.stream, d.stream);
    ScalarsEqual(c.deliverPolicy, d.deliverPolicy);
    ScalarsEqual(c.ackPolicy, d.ackPolicy);
    ScalarsEqual(JStr(c.replayPolicy), JStr(d.replayPolicy));
    ScalarsEqual(JInt(c.rateLimit), JInt(d.rateLimit));
    OptionalsEqual(c.filterSubject, d.filterSubject, c.optStartSeq, d.optStartSeq, c.inactiveThreshold, d.inactiveThreshold);
    OptionalsEqual(c.deliverGroup, d.deliverGroup, None, None, None, None);
    OptionalsEqual(c.pauseUntil, d.pauseUntil, None, None, None, None);
    OptionalsEqual(c.optStartTime, d.optStartTime, None, None, None, None);
    BoolsEqual(c.deliverSubjectPresent, d.deliverSubjectPresent);
    BoolsEqual(c.headersOnly, d.headersOnly);
    BoolsEqual(c.memStorage, d.memStorage);
    BoolsEqual(c.durableNameMatches, d.durableNameMatches);
  }

  // ----------------------------------------------------------------- what one step keeps

  /** The declared mutable configuration and window are reached. */
  predicate AtTargetConfig(s: ConsumerState, e: ExpectedDurable)
  {
    s.ackWait == e.ackWait && s.maxDeliver == e.maxDeliver
  }

  /** The same durable (same creation time) carries on with another window or mutable configuration. */
  predicate MigratedInPlace(s: ConsumerState, t: ConsumerState)
  {
    s.created == t.created && (s.maxAckPending != t.maxAckPending || s.ackWait != t.ackWait || s.maxDeliver != t.maxDeliver)
  }

  predicate Recreated(s: ConsumerState, t: ConsumerState)
  {
    s.created != t.created
  }

  predicate EventKept(s: ConsumerState, t: ConsumerState)
  {
    && s.created == t.created && s.ackWait == t.ackWait && s.maxDeliver == t.maxDeliver
    && CursorAdvances(s.cursor, t.cursor)
    && (s.maxAckPending == t.maxAckPending || (t.maxAckPending == 1 && s.maxAckPending != 1 && s.numAckPending == 0))
  }

  predicate Settling(s: ConsumerState, t: ConsumerState, e: ExpectedDurable)
  {
    && (s.maxAckPending == 1 ==> t.maxAckPending == 1)
    && (AtTargetConfig(s, e) ==> AtTargetConfig(t, e))
    && (MigratedInPlace(s, t) || Recreated(s, t) ==> t.maxAckPending == 1 && AtTargetConfig(t, e))
    && (Recreated(s, t) ==> e.semantics in {"snapshot", "transient"} && s.numAckPending > 0)
    && (!Recreated(s, t) ==> CursorAdvances(s.cursor, t.cursor))
  }

  /** What every accepted step does to one durable. */
  predicate Kept(s: ConsumerState, t: ConsumerState, e: ExpectedDurable)
  {
    s.config == t.config && Settling(s, t, e) && (e.semantics == "event" ==> EventKept(s, t))
  }

  lemma StepKeeps(s: ConsumerState, t: ConsumerState, e: ExpectedDurable)
    requires HasTextPolicies(s.config) && HasTextPolicies(t.config) && Step(s, t, e)
    ensures Kept(s, t, e)
  {
    SameConfigIsEqual(s.config, t.config);
    VerdictMeaning(s, e);
    VerdictMeaning(t, e);
  }

  // ------------------------------------------------------------------------ whole runs

  type States = map<Key, ConsumerState>

  /** The durable row under `k` was written by the classifier from a state the broker reported. */
  predicate EmittedAt(o: Observation, expected: Declaration, k: Key)
    requires k in o.states && k in expected && k in o.facts.durables
  {
    && o.states[k].numAckPending >= 0 && HasTextPolicies(o.states[k].config)
    && o.facts.durables[k] == ReadDurable(EvaluateConsumer(o.states[k], expected[k]))
  }

  ghost predicate Emitted(o: Observation, expected: Declaration)
  {
    && o.facts.durables.Keys == o.states.Keys && o.states.Keys <= expected.Keys
    && forall k :: k in o.states ==> EmittedAt(o, expected, k)
  }

  /** The active check, with migrations allowed, passed from `a` to `b`. */
  predicate Passed(a: Observation, b: Observation)
  {
    Readable(a.facts, b.facts) && Continues(a.facts, b.facts, true, true)
  }

  /** Refusing new identities only strengthens the check. */
  lemma RefusingNewIdentitiesIsStricter(a: Facts, b: Facts, migrate: bool)
    requires Readable(a, b) && Continues(a, b, false, migrate)
    ensures Continues(a, b, true, migrate)
  {
  }

  ghost predicate IsRun(run: seq<Observation>, expected: Declaration)
  {
    && (forall i :: 0 <= i < |run| ==> Emitted(run[i], expected))
    && (forall i :: 0 <= i < |run| - 1 ==> Passed(run[i], run[i + 1]))
  }

  predicate StatesKept(a: States, b: States, expected: Declaration)
    requires a.Keys <= expected.Keys
  {
    forall k :: k in a ==> k in b && Kept(a[k], b[k], expected[k])
  }

  lemma PassedDurableIsKept(a: Observation, b: Observation, expected: Declaration, k: Key)
    requires k in expected && k in a.states && k in b.states && k in a.facts.durables && k in b.facts.durables
    requires EmittedAt(a, expected, k) && EmittedAt(b, expected, k)
    requires PairReadable(a.facts.durables[k], b.facts.durables[k])
    requires DurableContinues(a.facts.durables[k].value, b.facts.durables[k].value, true)
    ensures Kept(a.states[k], b.states[k], expected[k])
  {
    var s, t, e := a.states[k], b.states[k], expected[k];
    EvaluatedRowReads(s, e);
    EvaluatedRowReads(t, e);
    CheckIsStep(a.facts.durables[k].value, b.facts.durables[k].value, s, t, e);
    StepKeeps(s, t, e);
  }

  /** A run of accepted evidence is a run of broker states in which every step keeps every durable. */
  lemma PassedStatesAreKept(a: Observation, b: Observation, expected: Declaration)
    requires Emitted(a, expected) && Emitted(b, expected) && Passed(a, b)
    ensures StatesKept(a.states, b.states, expected)
  {
    forall k | k in a.states
      ensures k in b.states && Kept(a.states[k], b.states[k], expected[k])
    {
      assert k in a.facts.durables.Keys && k in b.facts.durables.Keys;
      PassedDurableIsKept(a, b, expected, k);
    }
  }

  function StatesOf(run: seq<Observation>): seq<States>
  {
    seq(|run|, i requires 0 <= i < |run| => run[i].states)
  }

  predicate IsStateRun(states: seq<States>, expected: Declaration)
  {
    && (forall i :: 0 <= i < |states| ==> states[i].Keys <= expected.Keys)
    && (forall i :: 0 <= i < |states| - 1 ==> StatesKept(states[i], states[i + 1], expected))
  }

  lemma RunOfStates(run: seq<Observation>, expected: Declaration)
    requires IsRun(run, expected)
    ensures IsStateRun(StatesOf(run), expected)
  {
    forall i | 0 <= i < |run| - 1 ensures StatesKept(run[i].states, run[i + 1].states, expected) {
      PassedStatesAreKept(run[i], run[i + 1], expected);
    }
  }

  /** In some step between `i` and `j` the window became one, and nothing was pending before that step. */
  ghost predicate ShrankWhileDrained(states: seq<States>, i: nat, j: nat, k: Key)
    requires i <= j < |states| && forall n :: i <= n <= j ==> k in states[n]
  {
    exists n :: i <= n < j && states[n][k].maxAckPending != 1 && states[n][k].numAckPending == 0
                && states[n + 1][k].maxAckPending == 1
  }

  lemma {:induction false} Persists(states: seq<States>, expected: Declaration, i: nat, j: nat, k: Key)
    requires IsStateRun(states, expected) && i <= j < |states| && k in states[i]
    ensures k in states[j]
  {
    if i < j {
      Persists(states, expected, i, j - 1, k);
      assert StatesKept(states[j - 1], states[j], expected);
    }
  }

  /** Between `i` and `j` the durable kept its creation time, configuration and cursor order, and its
      window changed at most to one, while nothing was pending. */
  ghost predicate EventKeptThroughout(states: seq<States>, i: nat, j: nat, k: Key)
    requires i <= j < |states|
  {
    && (forall n :: i <= n <= j ==> k in states[n])
    && var s, t := states[i][k], states[j][k];
       && s.created == t.created && s.config == t.config && s.ackWait == t.ackWait && s.maxDeliver == t.maxDeliver
       && CursorAdvances(s.cursor, t.cursor)
       && (s.maxAckPending == t.maxAckPending || (t.maxAckPending == 1 && ShrankWhileDrained(states, i, j, k)))
  }

  lemma {:induction false} EventStatesAreKept(states: seq<States>, expected: Declaration, i: nat, j: nat, k: Key)
    requires IsStateRun(states, expected) && i <= j < |states| && k in states[i] && expected[k].semantics == "event"
    ensures EventKeptThroughout(states, i, j, k)
  {
    forall n | i <= n <= j ensures k in states[n] {
      Persists(states, expected, i, n, k);
    }
    if i < j {
      EventStatesAreKept(states, expected, i, j - 1, k);
      assert StatesKept(states[j - 1], states[j], expected);
    }
  }

  lemma {:induction false} SettledStatesStay(states: seq<States>, expected: Declaration, i: nat, j: nat, k: Key)
    requires IsStateRun(states, expected) && i <= j < |states| && k in states[i]
    ensures k in states[j]
    ensures states[i][k].maxAckPending == 1 ==> states[j][k].maxAckPending == 1
    ensures AtTargetConfig(states[i][k], expected[k]) ==> AtTargetConfig(states[j][k], expected[k])
  {
    if i < j {
      SettledStatesStay(states, expected, i, j - 1, k);
      assert StatesKept(states[j - 1], states[j], expected);
    }
  }

  lemma MigratedStatesStay(states: seq<States>, expected: Declaration, i: nat, j: nat, k: Key)
    requires IsStateRun(states, expected) && i < j < |states| - 1 && k in states[i]
    ensures k in states[i + 1] && k in states[j] && k in states[j + 1]
    ensures MigratedInPlace(states[i][k], states[i + 1][k]) || Recreated(states[i][k], states[i + 1][k]) ==>
              !MigratedInPlace(states[j][k], states[j + 1][k])
  {
    assert StatesKept(states[i], states[i + 1], expected);
    SettledStatesStay(states, expected, i + 1, j, k);
    assert StatesKept(states[j], states[j + 1], expected);
  }

  /** An event durable is never rebuilt, reconfigured or rewound in a run of accepted evidence, and its
      window changes only to one and only while nothing is pending. */
  lemma EventDurablesAreKept(run: seq<Observation>, states: seq<States>, expected: Declaration, i: nat, j: nat, k: Key)
    requires IsRun(run, expected) && states == StatesOf(run)
    requires i <= j < |states| && k in states[i] && k in expected && expected[k].semantics == "event"
    ensures EventKeptThroughout(states, i, j, k)
  {
    RunOfStates(run, expected);
    EventStatesAreKept(states, expected, i, j, k);
  }

  /** In a run of accepted evidence, reaching the target window or mutable configuration is permanent. */
  lemma TargetsAreAbsorbing(run: seq<Observation>, states: seq<States>, expected: Declaration, i: nat, j: nat, k: Key)
    requires IsRun(run, expected) && states == StatesOf(run) && i <= j < |states| && k in states[i] && k in expected
    ensures k in states[j]
    ensures states[i][k].maxAckPending == 1 ==> states[j][k].maxAckPending == 1
    ensures AtTargetConfig(states[i][k], expected[k]) ==> AtTargetConfig(states[j][k], expected[k])
  {
    RunOfStates(run, expected);
    SettledStatesStay(states, expected, i, j, k);
  }

  /** A durable is migrated in place at most once in a run of accepted evidence, and never after it was
      recreated. */
  lemma AtMostOneInPlaceMigration(run: seq<Observation>, states: seq<States>, expected: Declaration, i: nat, j: nat, k: Key)
    requires IsRun(run, expected) && states == StatesOf(run) && i < j < |states| - 1 && k in states[i]
    ensures k in states[i + 1] && k in states[j] && k in states[j + 1]
    ensures MigratedInPlace(states[i][k], states[i + 1][k]) || Recreated(states[i][k], states[i + 1][k]) ==>
              !MigratedInPlace(states[j][k], states[j + 1][k])
  {
    RunOfStates(run, expected);
    MigratedStatesStay(states, expected, i, j, k);
  }

  /** Such runs there are: a broker that stands still passes the check, as long as its evidence can be read. */
  lemma StandingStill(o: Observation, expected: Declaration)
    requires Emitted(o, expected) && forall k :: k in o.states ==> Countable(o.states[k])
    requires forall k :: k in o.facts.streams ==> o.facts.streams[k].Ok?
    ensures IsRun([o, o], expected)
  {
    forall k | k in o.facts.durables
      ensures PairReadable(o.facts.durables[k], o.facts.durables[k])
    {
      CountableReads(o, expected, k);
    }
    StillPasses(o.facts);
    TwiceIsRun(o, expected);
  }

  lemma CountableReads(o: Observation, expected: Declaration, k: Key)
    requires k in o.states && k in expected && k in o.facts.durables && EmittedAt(o, expected, k) && Countable(o.states[k])
    ensures PairReadable(o.facts.durables[k], o.facts.durables[k])
  {
    EvaluatedRowReads(o.states[k], expected[k]);
  }

  lemma TwiceIsRun(o: Observation, expected: Declaration)
    requires Emitted(o, expected) && Passed(o, o)
    ensures IsRun([o, o], expected)
  {
    assert forall i :: 0 <= i < 2 ==> [o, o][i] == o;
  }

  lemma StillPasses(f: Facts)
    requires forall k :: k in f.streams ==> f.streams[k].Ok?
    requires forall k :: k in f.durables ==> PairReadable(f.durables[k], f.durables[k])
    ensures Readable(f, f) && Continues(f, f, true, true)
  {
  }

  // ------------------------------------------------------------ from broker reads to evidence

  /** The identity of a consumer's row under its declaration. */
  function KeyFor(c: ConsumerState, e: ExpectedDurable): Key
  {
    [StreamOf(c), c.durable, e.role, e.topic]
  }

  /** The consumers with a declaration, under the keys of their rows. */
  function StatesByKey(consumers: seq<ConsumerState>, declared: Declarations): States
  {
    if consumers == [] then map[] else
      var before, last := StatesByKey(consumers[..|consumers| - 1], declared), consumers[|consumers| - 1];
      if last.durable in declared then before[KeyFor(last, declared[last.durable]) := last] else before
  }

  /** Declarations by row key that agree with those by durable name on the consumers there are. */
  predicate Covers(expected: Declaration, consumers: seq<ConsumerState>, declared: Declarations)
  {
    forall c :: c in consumers && c.durable in declared ==>
      KeyFor(c, declared[c.durable]) in expected && expected[KeyFor(c, declared[c.durable])] == declared[c.durable]
  }

  predicate NamesDeclared(declared: Declarations)
  {
    forall d :: d in declared ==> !IsBlank(declared[d].role) && !IsBlank(declared[d].topic)
  }

  lemma IdentityKey(row: Json, stream: string, durable: string, role: string, topic: string)
    requires row.JRow? && row.identity.JIdentity?
    requires row.identity.stream == JStr(stream) && row.identity.durable == JStr(durable)
    requires row.identity.role == JStr(role) && row.identity.topic == JStr(topic)
    requires !IsBlank(stream) && !IsBlank(durable) && !IsBlank(role) && !IsBlank(topic)
    ensures RowKey(row, DurableRows) == Ok([stream, durable, role, topic])
  {
    var parts := KeyParts(ViewRow(row).identity, DurableRows);
    assert parts == [JStr(stream), JStr(durable), JStr(role), JStr(topic)];
    assert forall i :: 0 <= i < |parts| ==> IsName(parts[i]);
    assert seq(|parts|, i requires 0 <= i < |parts| => TextOf(parts[i])) == [stream, durable, role, topic];
  }

  lemma RowKeyOf(c: ConsumerState, e: ExpectedDurable)
    requires c.config.stream.JStr? && !IsBlank(StreamOf(c)) && !IsBlank(c.durable) && !IsBlank(e.role) && !IsBlank(e.topic)
    ensures RowKey(EvaluateConsumer(c, e), DurableRows) == Ok(KeyFor(c, e))
  {
    IdentityKey(EvaluateConsumer(c, e), StreamOf(c), c.durable, e.role, e.topic);
  }

  /** What the index of the written rows holds. */
  predicate IndexHolds(index: map<Key, Json>, states: States, consumers: seq<ConsumerState>, declared: Declarations,
                       write: Evaluator)
  {
    && index.Keys == states.Keys
    && forall k :: k in states ==>
         && states[k] in consumers && states[k].durable in declared
         && k == KeyFor(states[k], declared[states[k].durable])
         && index[k] == write(states[k], declared[states[k].durable])
  }

  lemma {:induction false} WrittenRowsIndex(consumers: seq<ConsumerState>, declared: Declarations, keyOf: KeyReader,
                                            write: Evaluator)
    requires PairsDistinct(consumers)
    requires forall c :: c in consumers && c.durable in declared ==>
               keyOf(write(c, declared[c.durable])) == Ok(KeyFor(c, declared[c.durable]))
    ensures var index := Index(EvaluateWith(consumers, declared, write), keyOf);
            index.Ok? && IndexHolds(index.value, StatesByKey(consumers, declared), consumers, declared, write)
  {
    if consumers != [] {
      var init, last := consumers[..|consumers| - 1], consumers[|consumers| - 1];
      assert consumers == init + [last];
      WrittenRowsIndex(init, declared, keyOf, write);
      WrittenOneMore(init, last, declared, write);
      var rows := EvaluateWith(init, declared, write);
      RowsOneMore(rows, Index(rows, keyOf).value, StatesByKey(init, declared), init, last, declared, keyOf, write);
    }
  }

  lemma WrittenOneMore(init: seq<ConsumerState>, last: ConsumerState, declared: Declarations, write: Evaluator)
    ensures EvaluateWith(init + [last], declared, write) == RowsWith(EvaluateWith(init, declared, write), last, declared, write)
    ensures StatesByKey(init + [last], declared) == StatesWith(StatesByKey(init, declared), last, declared)
  {
    assert (init + [last])[..|init|] == init;
  }

  function RowsWith(rows: seq<Json>, last: ConsumerState, declared: Declarations, write: Evaluator): seq<Json>
  {
    if last.durable in declared then rows + [write(last, declared[last.durable])] else rows
  }

  function StatesWith(states: States, last: ConsumerState, declared: Declarations): States
  {
    if last.durable in declared then states[KeyFor(last, declared[last.durable]) := last] else states
  }

  lemma RowsOneMore(rows: seq<Json>, index: map<Key, Json>, states: States, init: seq<ConsumerState>, last: ConsumerState,
                    declared: Declarations, keyOf: KeyReader, write: Evaluator)
    requires PairsDistinct(init + [last]) && IndexHolds(index, states, init, declared, write)
    requires Index(rows, keyOf) == Ok(index)
    requires last.durable in declared ==>
               keyOf(write(last, declared[last.durable])) == Ok(KeyFor(last, declared[last.durable]))
    ensures var extended := Index(RowsWith(rows, last, declared, write), keyOf);
            extended.Ok?
            && IndexHolds(extended.value, StatesWith(states, last, declared), init + [last], declared, write)
  {
    HoldsOneMore(index, states, init, last, declared, write);
    if last.durable in declared {
      IndexOneMore(rows, write(last, declared[last.durable]), keyOf, KeyFor(last, declared[last.durable]));
    }
  }

  lemma IndexOneMore(rows: seq<Json>, row: Json, keyOf: KeyReader, key: Key)
    requires Index(rows, keyOf).Ok? && keyOf(row) == Ok(key) && key !in Index(rows, keyOf).value
    ensures Index(rows + [row], keyOf) == Ok(Index(rows, keyOf).value[key := row])
  {
    assert (rows + [row])[..|rows|] == rows;
  }

  lemma HoldsOneMore(index: map<Key, Json>, states: States, init: seq<ConsumerState>, last: ConsumerState,
                     declared: Declarations, write: Evaluator)
    requires PairsDistinct(init + [last]) && IndexHolds(index, states, init, declared, write)
    ensures if last.durable !in declared then IndexHolds(index, states, init + [last], declared, write) else
              var key := KeyFor(last, declared[last.durable]);
              && key !in states
              && IndexHolds(index[key := write(last, declared[last.durable])], states[key := last], init + [last],
                            declared, write)
  {
    if last.durable in declared {
      NewKey(init, last, declared, states);
    }
  }

  lemma NewKey(init: seq<ConsumerState>, last: ConsumerState, declared: Declarations, states: States)
    requires PairsDistinct(init + [last]) && last.durable in declared
    requires forall k :: k in states ==>
               states[k] in init && states[k].durable in declared && k == KeyFor(states[k], declared[states[k].durable])
    ensures KeyFor(last, declared[last.durable]) !in states
  {
    var all, key := init + [last], KeyFor(last, declared[last.durable]);
    forall k | k in states
      ensures k != key
    {
      var i :| 0 <= i < |init| && init[i] == states[k];
      assert k[0] == StreamOf(init[i]) && k[1] == init[i].durable;
      assert all[i] == init[i] && all[|init|] == last;
      assert key[0] == StreamOf(last) && key[1] == last.durable;
    }
  }

  /** The evidence written for consumers read from the broker can always be indexed, and is an observation of
      those consumers: the theorems about runs apply to what the active check is given. */
  lemma EvidenceIsEmitted(consumers: seq<ConsumerState>, declared: Declarations, expected: Declaration, env: Environment,
                          streams: map<Key, Json>)
    requires ReadConsumers(consumers, env) && NamesDeclared(declared) && Covers(expected, consumers, declared)
    ensures var index := IndexedRows(JArr(EvaluateExisting(consumers, declared)), DurableRows);
            index.Ok? && Emitted(Observation(ReadSnapshot(Snapshot(streams, index.value)), StatesByKey(consumers, declared)),
                                 expected)
  {
    var keyOf := KeyReaderFor(DurableRows);
    forall c | c in consumers && c.durable in declared
      ensures keyOf(EvaluateConsumer(c, declared[c.durable])) == Ok(KeyFor(c, declared[c.durable]))
    {
      RowKeyOf(c, declared[c.durable]);
    }
    WrittenRowsIndex(consumers, declared, keyOf, EvaluateConsumer);
    var index := Index(EvaluateExisting(consumers, declared), keyOf).value;
    SnapshotDurables(Snapshot(streams, index), ReadDurable);
    IndexIsEmitted(index, StatesByKey(consumers, declared), consumers, declared, expected, env,
                   ReadSnapshot(Snapshot(streams, index)), EvaluateConsumer, ReadDurable);
  }

  type Reader = Json -> Result<DurableFacts, EvidenceError>

  /** The functions through which the evidence is written and read. */
  ghost predicate WritesAndReads(write: Evaluator, read: Reader)
  {
    write == EvaluateConsumer && read == ReadDurable
  }

  lemma IndexIsEmitted(index: map<Key, Json>, states: States, consumers: seq<ConsumerState>, declared: Declarations,
                       expected: Declaration, env: Environment, facts: Facts, write: Evaluator, read: Reader)
    requires WritesAndReads(write, read) && IndexHolds(index, states, consumers, declared, write)
    requires ReadConsumers(consumers, env) && Covers(expected, consumers, declared)
    requires facts.durables.Keys == index.Keys && forall k :: k in index ==> facts.durables[k] == read(index[k])
    ensures Emitted(Observation(facts, states), expected)
  {
    HeldStates(index, states, consumers, declared, expected, env, write);
    ReadsAreEmitted(Observation(facts, states), index, expected, write, read);
  }

  lemma SnapshotDurables(s: Snapshot, read: Reader)
    requires read == ReadDurable
    ensures ReadSnapshot(s).durables.Keys == s.durables.Keys
    ensures forall k :: k in s.durables ==> ReadSnapshot(s).durables[k] == read(s.durables[k])
  {
  }

  lemma HeldStates(index: map<Key, Json>, states: States, consumers: seq<ConsumerState>, declared: Declarations,
                   expected: Declaration, env: Environment, write: Evaluator)
    requires IndexHolds(index, states, consumers, declared, write)
    requires ReadConsumers(consumers, env) && Covers(expected, consumers, declared)
    ensures forall k :: k in states ==>
              k in expected && states[k].numAckPending >= 0 && HasTextPolicies(states[k].config)
              && index[k] == write(states[k], expected[k])
  {
    forall k | k in states
      ensures k in expected && states[k].numAckPending >= 0 && HasTextPolicies(states[k].config)
      ensures index[k] == write(states[k], expected[k])
    {
      HeldState(index, states, consumers, declared, expected, env, write, k);
    }
  }

  lemma HeldState(index: map<Key, Json>, states: States, consumers: seq<ConsumerState>, declared: Declarations,
                  expected: Declaration, env: Environment, write: Evaluator, k: Key)
    requires IndexHolds(index, states, consumers, declared, write) && k in states
    requires ReadConsumers(consumers, env) && Covers(expected, consumers, declared)
    ensures k in expected && states[k].numAckPending >= 0 && HasTextPolicies(states[k].config)
    ensures index[k] == write(states[k], expected[k])
  {
    assert ReadFromBroker(states[k], env);
    assert KeyFor(states[k], declared[states[k].durable]) in expected;
  }

  lemma ReadsAreEmitted(o: Observation, index: map<Key, Json>, expected: Declaration, write: Evaluator, read: Reader)
    requires o.facts.durables.Keys == index.Keys == o.states.Keys && WritesAndReads(write, read)
    requires forall k :: k in index ==> o.facts.durables[k] == read(index[k])
    requires forall k :: k in o.states ==>
               k in expected && o.states[k].numAckPending >= 0 && HasTextPolicies(o.states[k].config)
               && index[k] == write(o.states[k], expected[k])
    ensures Emitted(o, expected)
  {
    forall k | k in o.states
      ensures k in expected && EmittedAt(o, expected, k)
    {
      RowIsEmitted(o, index[k], expected, k, write, read);
    }
  }

  lemma RowIsEmitted(o: Observation, row: Json, expected: Declaration, k: Key, write: Evaluator, read: Reader)
    requires WritesAndReads(write, read) && k in o.states && k in expected && k in o.facts.durables
    requires o.states[k].numAckPending >= 0 && HasTextPolicies(o.states[k].config)
    requires o.facts.durables[k] == read(row) && row == write(o.states[k], expected[k])
    ensures EmittedAt(o, expected, k)
  {
  }

  /** The declarations by the identity they declare. */
  function ByIdentity(declared: Declarations): Declaration
    requires DeclarationsWf(declared)
  {
    var keys := set d | d in declared :: [declared[d].stream, d, declared[d].role, declared[d].topic];
    map k | k in keys && |k| == 4 && k[1] in declared :: declared[k[1]]
  }

  /** They cover all consumers on the streams declared for them, in particular when none is blocked. */
  lemma ByIdentityCovers(consumers: seq<ConsumerState>, declared: Declarations)
    requires DeclarationsWf(declared)
    requires forall c :: c in consumers && c.durable in declared ==> c.config.stream == JStr(declared[c.durable].stream)
    ensures Covers(ByIdentity(declared), consumers, declared)
  {
  }
}
