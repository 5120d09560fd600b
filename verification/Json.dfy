/** Evidence values as the deployment scripts handle them in Python.

    A dictionary whose key set is exactly one of the sets the checkers test for has its own
    constructor, so `set(row) == {...}` is a constructor test. Every other dictionary is a
    `JOther`, from which the lenient `mapping.get(key)` reads still work.
 */
module Json {

  datatype Option<+T> = None | Some(value: T)

  datatype Result<+T, +E> = Ok(value: T) | Err(error: E)

  /** The keys the checkers read. */
  datatype Field =
    | Identity | Created | Cursor | ImmutableConfig | MutableConfig | Window | Outstanding | Status | Blockers
    | Stream | Durable | Role | Topic | DeliverySemantics | Name
    | Actual | Expected | AckWaitSeconds | MaxDeliver
    | CurrentMaxAckPending | TargetMaxAckPending | NumAckPending
    | DeliveredStreamSeq | DeliveredConsumerSeq | AckFloorStreamSeq | AckFloorConsumerSeq
    | State | Messages | Bytes | FirstSeq | LastSeq | ConsumerCount | Deleted | NumDeleted
    | Retention | Discard | MaxAgeSeconds

  /** The sixteen immutable consumer settings that a declaration also fixes. */
  datatype DeclaredConfig = DeclaredConfig(
    stream: Json, deliverPolicy: Json, ackPolicy: Json, filterSubject: Json, deliverGroup: Json,
    deliverSubjectPresent: Json, replayPolicy: Json, headersOnly: Json, pauseUntil: Json, backoff: Json,
    rateLimit: Json, inactiveThreshold: Json, memStorage: Json, durableNameMatches: Json,
    optStartSeq: Json, optStartTime: Json)

  /** The eleven settings of a stream. */
  datatype StreamSettings = StreamSettings(
    subjects: Json, retention: Json, storage: Json, discard: Json, maxAge: Json, maxBytes: Json, maxMsgs: Json,
    maxMsgSize: Json, numReplicas: Json, duplicateWindow: Json, denyPurge: Json)

  datatype Json =
    | JNull
    | JBool(flag: bool)
    | JInt(num: int)
    | JReal(quantity: real)
    | JStr(text: string)
    | JArr(items: seq<Json>)
    | JRow(identity: Json, created: Json, cursor: Json, immutable: Json, mutable: Json, window: Json, outstanding: Json,
           status: Json, blockers: Json)
    | JIdentity(stream: Json, durable: Json, role: Json, topic: Json, semantics: Json)
    | JCursor(deliveredStream: Json, deliveredConsumer: Json, ackFloorStream: Json, ackFloorConsumer: Json)
    | JPair(actual: Json, expected: Json)
    | JActual(filterSubjects: Json, common: DeclaredConfig)
    | JExpected(common: DeclaredConfig)
    | JMutable(ackWait: Json, maxDeliver: Json)
    | JWindow(current: Json, target: Json)
    | JOutstanding(numAckPending: Json)
    | JStreamRow(identity: Json, created: Json, immutable: Json, state: Json)
    | JStreamName(name: Json)
    | JStreamConfig(settings: StreamSettings)
    | JStreamState(messages: Json, bytes: Json, firstSeq: Json, lastSeq: Json, consumerCount: Json, deleted: Json,
                   numDeleted: Json)
    | JOther(fields: map<Field, Json>)

  predicate IsMapping(j: Json)
  {
    !(j.JNull? || j.JBool? || j.JInt? || j.JReal? || j.JStr? || j.JArr?)
  }

  /** `mapping.get(field)` on a dictionary without a constructor of its own. */
  function Lookup(fields: map<Field, Json>, f: Field): Json
  {
    if f in fields then fields[f] else JNull
  }

  // The lenient reads: a missing key reads as None.

  datatype RowView = RowView(
    identity: Json, created: Json, cursor: Json, immutable: Json, mutable: Json, window: Json, outstanding: Json,
    status: Json, state: Json)

  function ViewRow(j: Json): RowView
  {
    match j
    case JRow(identity, created, cursor, immutable, mutable, window, outstanding, status, _) =>
      RowView(identity, created, cursor, immutable, mutable, window, outstanding, status, JNull)
    case JStreamRow(identity, created, immutable, state) =>
      RowView(identity, created, JNull, immutable, JNull, JNull, JNull, JNull, state)
    case JOther(m) =>
      RowView(Lookup(m, Identity), Lookup(m, Created), Lookup(m, Cursor), Lookup(m, ImmutableConfig),
              Lookup(m, MutableConfig), Lookup(m, Window), Lookup(m, Outstanding), Lookup(m, Status), Lookup(m, State))
    case _ => RowView(JNull, JNull, JNull, JNull, JNull, JNull, JNull, JNull, JNull)
  }

  datatype IdentityView = IdentityView(stream: Json, durable: Json, role: Json, topic: Json, semantics: Json, name: Json)

  function ViewIdentity(j: Json): IdentityView
  {
    match j
    case JIdentity(stream, durable, role, topic, semantics) =>
      IdentityView(stream, durable, role, topic, semantics, JNull)
    case JStreamName(name) => IdentityView(JNull, JNull, JNull, JNull, JNull, name)
    case JOther(m) =>
      IdentityView(Lookup(m, Stream), Lookup(m, Durable), Lookup(m, Role), Lookup(m, Topic), Lookup(m, DeliverySemantics),
                   Lookup(m, Name))
    case _ => IdentityView(JNull, JNull, JNull, JNull, JNull, JNull)
  }

  datatype CursorView = CursorView(
    deliveredStream: Json, deliveredConsumer: Json, ackFloorStream: Json, ackFloorConsumer: Json)

  function ViewCursor(j: Json): CursorView
  {
    match j
    case JCursor(a, b, c, d) => CursorView(a, b, c, d)
    case JOther(m) =>
      CursorView(Lookup(m, DeliveredStreamSeq), Lookup(m, DeliveredConsumerSeq), Lookup(m, AckFloorStreamSeq),
                 Lookup(m, AckFloorConsumerSeq))
    case _ => CursorView(JNull, JNull, JNull, JNull)
  }

  /** A dictionary read under two keys. */
  datatype TwoView = TwoView(first: Json, second: Json)

  function ViewPair(j: Json): TwoView
  {
    match j
    case JPair(actual, expected) => TwoView(actual, expected)
    case JOther(m) => TwoView(Lookup(m, Actual), Lookup(m, Expected))
    case _ => TwoView(JNull, JNull)
  }

  function ViewMutable(j: Json): TwoView
  {
    match j
    case JMutable(ackWait, maxDeliver) => TwoView(ackWait, maxDeliver)
    case JOther(m) => TwoView(Lookup(m, AckWaitSeconds), Lookup(m, MaxDeliver))
    case _ => TwoView(JNull, JNull)
  }

  function ViewWindow(j: Json): TwoView
  {
    match j
    case JWindow(current, target) => TwoView(current, target)
    case JOther(m) => TwoView(Lookup(m, CurrentMaxAckPending), Lookup(m, TargetMaxAckPending))
    case _ => TwoView(JNull, JNull)
  }

  function ViewOutstanding(j: Json): Json
  {
    match j
    case JOutstanding(numAckPending) => numAckPending
    case JOther(m) => Lookup(m, NumAckPending)
    case _ => JNull
  }

  datatype SettingsView = SettingsView(retention: Json, discard: Json, maxAge: Json)

  function ViewSettings(j: Json): SettingsView
  {
    match j
    case JStreamConfig(s) => SettingsView(s.retention, s.discard, s.maxAge)
    case JOther(m) => SettingsView(Lookup(m, Retention), Lookup(m, Discard), Lookup(m, MaxAgeSeconds))
    case _ => SettingsView(JNull, JNull, JNull)
  }

  datatype StateView = StateView(
    messages: Json, bytes: Json, firstSeq: Json, lastSeq: Json, consumerCount: Json, deleted: Json, numDeleted: Json)

  function ViewState(j: Json): StateView
  {
    match j
    case JStreamState(messages, bytes, firstSeq, lastSeq, consumerCount, deleted, numDeleted) =>
      StateView(messages, bytes, firstSeq, lastSeq, consumerCount, deleted, numDeleted)
    case JOther(m) =>
      StateView(Lookup(m, Messages), Lookup(m, Bytes), Lookup(m, FirstSeq), Lookup(m, LastSeq), Lookup(m, ConsumerCount),
                Lookup(m, Deleted), Lookup(m, NumDeleted))
    case _ => StateView(JNull, JNull, JNull, JNull, JNull, JNull, JNull)
  }

  /** One representative per class of Python's `==`, under which True == 1 == 1.0. */
  function Norm(j: Json): Json
    decreases j, 1
  {
    match j
    case JNull => j
    case JReal(_) => j
    case JStr(_) => j
    case JBool(flag) => JReal(if flag then 1.0 else 0.0)
    case JInt(num) => JReal(num as real)
    case JArr(items) => JArr(seq(|items|, i requires 0 <= i < |items| => Norm(items[i])))
    case JOther(fields) => JOther(map k | k in fields :: Norm(fields[k]))
    case _ => NormRecord(j)
  }

  function NormRecord(j: Json): (r: Json)
    requires IsMapping(j) && !j.JOther?
    ensures IsMapping(r) && !r.JOther?
    decreases j, 0
  {
    match j
    case JRow(i, c, u, m, n, w, o, s, b) =>
      JRow(Norm(i), Norm(c), Norm(u), Norm(m), Norm(n), Norm(w), Norm(o), Norm(s), Norm(b))
    case JIdentity(s, d, r, t, v) => JIdentity(Norm(s), Norm(d), Norm(r), Norm(t), Norm(v))
    case JCursor(a, b, c, d) => JCursor(Norm(a), Norm(b), Norm(c), Norm(d))
    case JPair(a, e) => JPair(Norm(a), Norm(e))
    case JActual(f, c) => JActual(Norm(f), NormConfig(c))
    case JExpected(c) => JExpected(NormConfig(c))
    case JMutable(a, m) => JMutable(Norm(a), Norm(m))
    case JWindow(c, t) => JWindow(Norm(c), Norm(t))
    case JOutstanding(n) => JOutstanding(Norm(n))
    case JStreamRow(i, c, m, s) => JStreamRow(Norm(i), Norm(c), Norm(m), Norm(s))
    case JStreamName(n) => JStreamName(Norm(n))
    case JStreamConfig(s) => JStreamConfig(NormSettings(s))
    case JStreamState(m, b, f, l, c, d, n) =>
      JStreamState(Norm(m), Norm(b), Norm(f), Norm(l), Norm(c), Norm(d), Norm(n))
  }

  function NormConfig(c: DeclaredConfig): DeclaredConfig
  {
    DeclaredConfig(
      Norm(c.stream), Norm(c.deliverPolicy), Norm(c.ackPolicy), Norm(c.filterSubject), Norm(c.deliverGroup),
      Norm(c.deliverSubjectPresent), Norm(c.replayPolicy), Norm(c.headersOnly), Norm(c.pauseUntil), Norm(c.backoff),
      Norm(c.rateLimit), Norm(c.inactiveThreshold), Norm(c.memStorage), Norm(c.durableNameMatches),
      Norm(c.optStartSeq), Norm(c.optStartTime))
  }

  function NormSettings(s: StreamSettings): StreamSettings
  {
    StreamSettings(
      Norm(s.subjects), Norm(s.retention), Norm(s.storage), Norm(s.discard), Norm(s.maxAge), Norm(s.maxBytes),
      Norm(s.maxMsgs), Norm(s.maxMsgSize), Norm(s.numReplicas), Norm(s.duplicateWindow), Norm(s.denyPurge))
  }

  /** Python's `==` on evidence values. */
  predicate PyEq(a: Json, b: Json)
  {
    Norm(a) == Norm(b)
  }

  /** Records compare field by field. */
  lemma RowsEqual(a: Json, b: Json)
    requires a.JRow? && b.JRow?
    ensures PyEq(a, b) <==>
            PyEq(a.identity, b.identity) && PyEq(a.created, b.created) && PyEq(a.cursor, b.cursor)
            && PyEq(a.immutable, b.immutable) && PyEq(a.mutable, b.mutable) && PyEq(a.window, b.window)
            && PyEq(a.outstanding, b.outstanding) && PyEq(a.status, b.status) && PyEq(a.blockers, b.blockers)
  {
    assert NormRecord(a) == Norm(a) && NormRecord(b) == Norm(b);
  }

  lemma IdentitiesEqual(a: Json, b: Json)
    requires a.JIdentity? && b.JIdentity?
    ensures PyEq(a, b) <==>
            PyEq(a.stream, b.stream) && PyEq(a.durable, b.durable) && PyEq(a.role, b.role) && PyEq(a.topic, b.topic)
            && PyEq(a.semantics, b.semantics)
  {
    assert NormRecord(a) == Norm(a) && NormRecord(b) == Norm(b);
  }

  lemma PairsEqual(a: Json, b: Json)
    requires a.JPair? && b.JPair?
    ensures PyEq(a, b) <==> PyEq(a.actual, b.actual) && PyEq(a.expected, b.expected)
  {
    assert NormRecord(a) == Norm(a) && NormRecord(b) == Norm(b);
  }

  lemma MutablesEqual(a: Json, b: Json)
    requires a.JMutable? && b.JMutable?
    ensures PyEq(a, b) <==> PyEq(a.ackWait, b.ackWait) && PyEq(a.maxDeliver, b.maxDeliver)
  {
    assert NormRecord(a) == Norm(a) && NormRecord(b) == Norm(b);
  }

  lemma WindowsEqual(a: Json, b: Json)
    requires a.JWindow? && b.JWindow?
    ensures PyEq(a, b) <==> PyEq(a.current, b.current) && PyEq(a.target, b.target)
  {
    assert NormRecord(a) == Norm(a) && NormRecord(b) == Norm(b);
  }

  lemma ScalarsEqual(a: Json, b: Json)
    ensures a.JStr? || b.JStr? ==> (PyEq(a, b) <==> a == b)
    ensures a.JInt? && b.JInt? ==> (PyEq(a, b) <==> a == b)
    ensures IsNumber(a) && IsNumber(b) ==> (PyEq(a, b) <==> FloatOf(a) == FloatOf(b))
  {
  }

  // Typed readings of values; each is only used where a shape check has passed.

  function IntOf(j: Json): int { if j.JInt? then j.num else 0 }

  function BoolOf(j: Json): bool { j.JBool? && j.flag }

  function TextOf(j: Json): string { if j.JStr? then j.text else "" }

  /** `float(value)` */
  function FloatOf(j: Json): real
  {
    match j
    case JInt(num) => num as real
    case JReal(quantity) => quantity
    case _ => 0.0
  }

  predicate IsNumber(j: Json) { j.JInt? || j.JReal? }

  predicate IsOptionalText(j: Json) { j.JNull? || j.JStr? }

  function FromOptionalText(o: Option<string>): Json
  {
    if o.None? then JNull else JStr(o.value)
  }

  function ToOptionalText(j: Json): Option<string>
  {
    if j.JStr? then Some(j.text) else None
  }

  function FromOptionalFloat(o: Option<real>): Json
  {
    if o.None? then JNull else JReal(o.value)
  }

  function FromOptionalInt(o: Option<int>): Json
  {
    if o.None? then JNull else JInt(o.value)
  }

  function FromTexts(xs: seq<string>): Json
  {
    JArr(seq(|xs|, i requires 0 <= i < |xs| => JStr(xs[i])))
  }

  predicate IsTexts(j: Json)
  {
    j.JArr? && forall i :: 0 <= i < |j.items| ==> j.items[i].JStr?
  }

  function ToTexts(j: Json): seq<string>
  {
    if j.JArr? then seq(|j.items|, i requires 0 <= i < |j.items| => TextOf(j.items[i])) else []
  }

  function FromFloats(xs: seq<real>): Json
  {
    JArr(seq(|xs|, i requires 0 <= i < |xs| => JReal(xs[i])))
  }

  predicate IsFloats(j: Json)
  {
    j.JArr? && forall i :: 0 <= i < |j.items| ==> IsNumber(j.items[i])
  }

  function ToFloats(j: Json): seq<real>
  {
    if j.JArr? then seq(|j.items|, i requires 0 <= i < |j.items| => FloatOf(j.items[i])) else []
  }
}
