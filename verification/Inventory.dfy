/** What the broker reports, checked against its own counts and against the declared consumers. */
module Inventory {
  import opened Json
  import opened Durables
  import opened Evidence
  import opened Pagination

  datatype CriticalStream = CriticalStream(
    name: string, created: string, settings: StreamSettings, messages: int, bytes: int, firstSeq: int, lastSeq: int,
    consumerCount: int, deleted: seq<int>, numDeleted: int)

  datatype QueryResult = QueryResult(
    streamCount: int, consumerCount: int, consumers: seq<ConsumerState>, streams: seq<CriticalStream>)

  /** Keyed by durable name. */
  type Declarations = map<string, ExpectedDurable>

  datatype ProjectionError = CountInvalid | StreamDuplicate | StreamCountMismatch | StreamMissing

  function StreamOf(c: ConsumerState): string
  {
    TextOf(c.config.stream)
  }

  // ------------------------------------------------------------------ the count projection

  function StreamNames(consumers: seq<ConsumerState>): seq<string>
  {
    seq(|consumers|, i requires 0 <= i < |consumers| => StreamOf(consumers[i]))
  }

  function CountFor(consumers: seq<ConsumerState>, name: string): nat
  {
    multiset(StreamNames(consumers))[name]
  }

  function NamesOf(streams: seq<CriticalStream>): set<string>
  {
    set s | s in streams :: s.name
  }

  predicate TotalsAgree(r: QueryResult)
  {
    r.streamCount == |r.streams| && r.consumerCount == |r.consumers|
  }

  predicate NamesDistinct(streams: seq<CriticalStream>)
  {
    forall i, j :: 0 <= i < j < |streams| ==> streams[i].name != streams[j].name
  }

  predicate CountsAgree(streams: seq<CriticalStream>, consumers: seq<ConsumerState>)
  {
    forall i :: 0 <= i < |streams| ==> streams[i].consumerCount == CountFor(consumers, streams[i].name)
  }

  predicate ProjectionOk(r: QueryResult)
  {
    && TotalsAgree(r) && NamesDistinct(r.streams) && CountsAgree(r.streams, r.consumers)
    && (forall c :: c in r.consumers ==> StreamOf(c) in NamesOf(r.streams))
  }

  ghost predicate Tallies(enumerated: map<string, nat>, names: seq<string>)
  {
    && (forall n :: n in enumerated <==> n in names)
    && (forall n :: n in enumerated ==> enumerated[n] == multiset(names)[n])
  }

  method Enumerated(consumers: seq<ConsumerState>) returns (enumerated: map<string, nat>)
    ensures Tallies(enumerated, StreamNames(consumers))
  {
    enumerated := map[];
    ghost var names := StreamNames(consumers);
    for i := 0 to |consumers|
      invariant Tallies(enumerated, names[..i])
    {
      assert names[..i + 1] == names[..i] + [names[i]];
      var name := StreamOf(consumers[i]);
      enumerated := enumerated[name := (if name in enumerated then enumerated[name] else 0) + 1];
    }
    assert names[..|consumers|] == names;
  }

  method CheckStreams(streams: seq<CriticalStream>, consumers: seq<ConsumerState>, enumerated: map<string, nat>)
    returns (failure: Option<ProjectionError>)
    requires Tallies(enumerated, StreamNames(consumers))
    ensures failure.None? <==> NamesDistinct(streams) && CountsAgree(streams, consumers)
    ensures failure in {None, Some(StreamDuplicate), Some(StreamCountMismatch)}
    ensures failure == Some(StreamDuplicate) ==> !NamesDistinct(streams)
    ensures failure == Some(StreamCountMismatch) ==> !CountsAgree(streams, consumers)
  {
    var names: set<string> := {};
    for i := 0 to |streams|
      invariant forall n :: n in names <==> exists k :: 0 <= k < i && streams[k].name == n
      invariant forall k, l :: 0 <= k < l < i ==> streams[k].name != streams[l].name
      invariant forall k :: 0 <= k < i ==> streams[k].consumerCount == CountFor(consumers, streams[k].name)
    {
      var name := streams[i].name;
      if name in names {
        return Some(StreamDuplicate);
      }
      names := names + {name};
      assert CountFor(consumers, name) == if name in enumerated then enumerated[name] else 0;
      if streams[i].consumerCount != if name in enumerated then enumerated[name] else 0 {
        return Some(StreamCountMismatch);
      }
    }
    return None;
  }

  /** `validate_query_result_consumer_projection` */
  method ValidateProjection(r: QueryResult) returns (failure: Option<ProjectionError>)
    ensures failure.None? <==> ProjectionOk(r)
    ensures failure == Some(CountInvalid) <==> !TotalsAgree(r)
    ensures failure == Some(StreamDuplicate) ==> !NamesDistinct(r.streams)
    ensures failure == Some(StreamCountMismatch) ==> !CountsAgree(r.streams, r.consumers)
    ensures failure == Some(StreamMissing) ==> NamesDistinct(r.streams) && CountsAgree(r.streams, r.consumers)
  {
    if r.streamCount != |r.streams| || r.consumerCount != |r.consumers| {
      return Some(CountInvalid);
    }
    var enumerated := Enumerated(r.consumers);
    failure := CheckStreams(r.streams, r.consumers, enumerated);
    if failure.None? && enumerated.Keys - NamesOf(r.streams) != {} {
      var n :| n in enumerated.Keys - NamesOf(r.streams);
      var i :| 0 <= i < |r.consumers| && StreamNames(r.consumers)[i] == n;
      assert r.consumers[i] in r.consumers;
      failure := Some(StreamMissing);
    } else if failure.None? {
      forall i | 0 <= i < |r.consumers|
        ensures StreamOf(r.consumers[i]) in NamesOf(r.streams)
      {
        assert StreamNames(r.consumers)[i] in StreamNames(r.consumers);
        assert StreamNames(r.consumers)[i] !in enumerated.Keys - NamesOf(r.streams);
      }
    }
  }

  function TotalDeclared(streams: seq<CriticalStream>): int
  {
    if streams == [] then 0 else TotalDeclared(streams[..|streams| - 1]) + streams[|streams| - 1].consumerCount
  }

  function CountWithin(listed: seq<string>, names: set<string>): nat
  {
    if listed == [] then 0 else
      CountWithin(listed[..|listed| - 1], names) + if listed[|listed| - 1] in names then 1 else 0
  }

  lemma {:induction false} CountWithinGrows(listed: seq<string>, names: set<string>, name: string)
    requires name !in names
    ensures CountWithin(listed, names + {name}) == CountWithin(listed, names) + multiset(listed)[name]
  {
    if listed != [] {
      assert listed == listed[..|listed| - 1] + [listed[|listed| - 1]];
      CountWithinGrows(listed[..|listed| - 1], names, name);
    }
  }

  lemma {:induction false} CountWithinBounds(listed: seq<string>, names: set<string>)
    ensures names == {} ==> CountWithin(listed, names) == 0
    ensures (forall i :: 0 <= i < |listed| ==> listed[i] in names) ==> CountWithin(listed, names) == |listed|
  {
    if listed != [] {
      CountWithinBounds(listed[..|listed| - 1], names);
    }
  }

  lemma {:induction false} TotalIsCountWithin(streams: seq<CriticalStream>, consumers: seq<ConsumerState>)
    requires NamesDistinct(streams) && CountsAgree(streams, consumers)
    ensures TotalDeclared(streams) == CountWithin(StreamNames(consumers), NamesOf(streams))
  {
    if streams == [] {
      assert NamesOf(streams) == {};
      CountWithinBounds(StreamNames(consumers), {});
    } else {
      var before, stream := streams[..|streams| - 1], streams[|streams| - 1];
      TotalIsCountWithin(before, consumers);
      forall i | 0 <= i < |before|
        ensures before[i].name != stream.name
      {
        assert before[i] == streams[i];
      }
      CountWithinGrows(StreamNames(consumers), NamesOf(before), stream.name);
      assert streams == before + [stream];
      assert NamesOf(streams) == NamesOf(before) + {stream.name};
    }
  }

  /** No consumer is counted twice or missed: the streams' own counts add up to the consumers listed. */
  lemma CountsAddUp(r: QueryResult)
    requires ProjectionOk(r)
    ensures TotalDeclared(r.streams) == |r.consumers| == r.consumerCount
  {
    TotalIsCountWithin(r.streams, r.consumers);
    CountWithinBounds(StreamNames(r.consumers), NamesOf(r.streams));
  }

  // -------------------------------------------------------------------- reading the broker

  /** Management replies, in the shape of what is read from them: a consumer's `config.stream` is not in the reply
      and a stream's `created` not in the listing, so the reader fills them in. `rawCreated` is the creation time in
      a raw reply about one stream, none if it is malformed; the readers may find any other entry malformed. */
  datatype Broker = Broker(
    streams: nat -> seq<CriticalStream>, consumers: (string, nat) -> seq<ConsumerState>,
    rawCreated: string -> Option<string>, streamWellFormed: CriticalStream -> bool,
    consumerWellFormed: ConsumerState -> bool, env: Environment)

  /** What the stream reader lets through. */
  predicate StreamReads(s: CriticalStream, broker: Broker)
  {
    && broker.streamWellFormed(s) && broker.rawCreated(s.name).Some?
    && s.messages >= 0 && s.bytes >= 0 && s.firstSeq >= 0 && s.lastSeq >= 0 && s.consumerCount >= 0 && s.numDeleted >= 0
  }

  predicate HasTextPolicies(c: ConsumerConfig)
  {
    c.stream.JStr? && c.deliverPolicy.JStr? && c.ackPolicy.JStr?
  }

  /** Counters that are counted, and a creation time that is one. */
  predicate CountersRead(c: ConsumerState, env: Environment)
  {
    && env.isTimestamp(c.created) && c.numAckPending >= 0
    && c.cursor.deliveredStream >= 0 && c.cursor.deliveredConsumer >= 0
    && c.cursor.ackFloorStream >= 0 && c.cursor.ackFloorConsumer >= 0
    && (c.config.optStartSeq.Some? ==> c.config.optStartSeq.value >= 0)
  }

  /** What the consumer reader lets through. */
  predicate ConsumerReads(c: ConsumerState, broker: Broker)
  {
    broker.consumerWellFormed(c) && c.config.deliverPolicy.JStr? && c.config.ackPolicy.JStr? && CountersRead(c, broker.env)
  }

  /** A consumer as the broker reader produces it. */
  predicate ReadFromBroker(c: ConsumerState, env: Environment)
  {
    HasTextPolicies(c.config) && CountersRead(c, env)
  }

  function RequiredName(name: string): Result<string, PageError>
  {
    if IsBlank(name) then Err(PageError.Malformed) else Ok(name)
  }

  function OnStream(c: ConsumerState, stream: string): ConsumerState
  {
    c.(config := c.config.(stream := JStr(stream)))
  }

  predicate PairsDistinct(consumers: seq<ConsumerState>)
  {
    forall i, j :: 0 <= i < j < |consumers| ==>
      StreamOf(consumers[i]) != StreamOf(consumers[j]) || consumers[i].durable != consumers[j].durable
  }

  function NameOfStream(): Identity<CriticalStream>
  {
    (s: CriticalStream) => RequiredName(s.name)
  }

  function NameOfConsumer(): Identity<ConsumerState>
  {
    (c: ConsumerState) => RequiredName(c.durable)
  }

  function ConsumerPages(broker: Broker, stream: string): nat -> seq<ConsumerState>
  {
    (offset: nat) => broker.consumers(stream, offset)
  }

  function StreamsOf(broker: Broker): Result<seq<CriticalStream>, PageError>
  {
    var listed := FetchFrom(broker.streams, NameOfStream(), 0, [], {});
    if listed.Err? then listed
    else if exists i :: 0 <= i < |listed.value| && !StreamReads(listed.value[i], broker) then Err(PageError.Malformed)
    else Ok(Dated(listed.value, broker))
  }

  /** The streams with their creation times filled in. */
  function Dated(streams: seq<CriticalStream>, broker: Broker): seq<CriticalStream>
  {
    seq(|streams|, i requires 0 <= i < |streams| =>
          var created := broker.rawCreated(streams[i].name);
          streams[i].(created := if created.Some? then created.value else ""))
  }

  function ConsumersOf(broker: Broker, stream: string): Result<seq<ConsumerState>, PageError>
  {
    var listed := FetchFrom(ConsumerPages(broker, stream), NameOfConsumer(), 0, [], {});
    if listed.Err? then listed
    else if exists i :: 0 <= i < |listed.value| && !ConsumerReads(listed.value[i], broker) then Err(PageError.Malformed)
    else Ok(seq(|listed.value|, i requires 0 <= i < |listed.value| => OnStream(listed.value[i], stream)))
  }

  function AllConsumers(broker: Broker, streams: seq<CriticalStream>): Result<seq<ConsumerState>, PageError>
  {
    if streams == [] then Ok([]) else
      var before := AllConsumers(broker, streams[..|streams| - 1]);
      if before.Err? then before else
        var page := ConsumersOf(broker, streams[|streams| - 1].name);
        if page.Err? then page else Ok(before.value + page.value)
  }

  /** Consumers read from the broker: no stream and durable twice, and what the reader guarantees of each. */
  predicate ReadConsumers(consumers: seq<ConsumerState>, env: Environment)
  {
    && PairsDistinct(consumers)
    && forall c :: c in consumers ==> ReadFromBroker(c, env) && !IsBlank(StreamOf(c)) && !IsBlank(c.durable)
  }

  /** `query_consumer_states_from_js`, against a broker that answers anything at all. */
  method QueryBroker(broker: Broker) returns (result: Option<QueryResult>)
    ensures result.Some? ==>
              StreamsOf(broker) == Ok(result.value.streams)
              && AllConsumers(broker, result.value.streams) == Ok(result.value.consumers)
    ensures result.Some? ==> ProjectionOk(result.value) && ReadConsumers(result.value.consumers, broker.env)
    ensures result.Some? <==> Projected(broker)
  {
    var listed := ListStreams(broker);
    if listed.Err? {
      return None;
    }
    var consumers := ListConsumers(broker, listed.value);
    if consumers.Err? {
      return None;
    }
    var q := QueryResult(|listed.value|, |consumers.value|, consumers.value, listed.value);
    var failure := ValidateProjection(q);
    return if failure.None? then Some(q) else None;
  }

  /** Everything could be paged and read, and the broker's counts agree with it. */
  predicate Projected(broker: Broker)
  {
    && StreamsOf(broker).Ok?
    && var streams := StreamsOf(broker).value;
    && AllConsumers(broker, streams).Ok?
    && var consumers := AllConsumers(broker, streams).value;
    ProjectionOk(QueryResult(|streams|, |consumers|, consumers, streams))
  }

  method ListStreams(broker: Broker) returns (result: Result<seq<CriticalStream>, PageError>)
    ensures result == StreamsOf(broker)
    ensures result.Ok? ==> NamesDistinct(result.value) && forall s :: s in result.value ==> !IsBlank(s.name)
  {
    var listed := FetchAllPages(broker.streams, NameOfStream());
    if listed.Err? {
      return listed;
    }
    FetchedNamesAreDistinct(broker.streams, NameOfStream());
    NamesOfFetched(listed.value);
    for i := 0 to |listed.value|
      invariant forall k :: 0 <= k < i ==> StreamReads(listed.value[k], broker)
    {
      if !StreamReads(listed.value[i], broker) {
        return Err(PageError.Malformed);
      }
    }
    return Ok(Dated(listed.value, broker));
  }

  lemma NamesOfFetched(streams: seq<CriticalStream>)
    requires Pagination.DistinctNames(streams, NameOfStream())
    ensures NamesDistinct(streams) && forall i :: 0 <= i < |streams| ==> !IsBlank(streams[i].name)
  {
    assert forall i :: 0 <= i < |streams| ==> NameOfStream()(streams[i]) == Ok(streams[i].name);
    assert forall i, j :: 0 <= i < j < |streams| ==> NameOfStream()(streams[i]) != NameOfStream()(streams[j]);
  }

  method ListConsumers(broker: Broker, streams: seq<CriticalStream>) returns (result: Result<seq<ConsumerState>, PageError>)
    requires NamesDistinct(streams) && forall s :: s in streams ==> !IsBlank(s.name)
    ensures result.Ok? <==> AllConsumers(broker, streams).Ok?
    ensures result.Ok? ==> result == AllConsumers(broker, streams) && ReadConsumers(result.value, broker.env)
  {
    var consumers: seq<ConsumerState> := [];
    for i := 0 to |streams|
      invariant AllConsumers(broker, streams[..i]) == Ok(consumers) && ReadConsumers(consumers, broker.env)
      invariant forall c :: c in consumers ==> exists k :: 0 <= k < i && StreamOf(c) == streams[k].name
    {
      assert streams[..i + 1][..i] == streams[..i];
      assert streams[i] in streams;
      var page := FetchConsumers(broker, streams[i].name);
      if page.Err? {
        AllConsumersFailFrom(broker, streams, i + 1);
        return page;
      }
      assert forall c :: c in page.value ==> StreamOf(c) == streams[i].name;
      consumers := consumers + page.value;
    }
    assert streams[..|streams|] == streams;
    return Ok(consumers);
  }

  lemma {:induction false} AllConsumersFailFrom(broker: Broker, streams: seq<CriticalStream>, n: nat)
    requires n <= |streams| && AllConsumers(broker, streams[..n]).Err?
    ensures AllConsumers(broker, streams).Err?
    decreases |streams|
  {
    if n == |streams| {
      assert streams[..n] == streams;
    } else {
      assert streams[..|streams| - 1][..n] == streams[..n];
      AllConsumersFailFrom(broker, streams[..|streams| - 1], n);
    }
  }

  method CheckConsumers(found: seq<ConsumerState>, broker: Broker) returns (readable: bool)
    ensures readable <==> forall k :: 0 <= k < |found| ==> ConsumerReads(found[k], broker)
  {
    for i := 0 to |found|
      invariant forall k :: 0 <= k < i ==> ConsumerReads(found[k], broker)
    {
      if !ConsumerReads(found[i], broker) {
        return false;
      }
    }
    return true;
  }

  method FetchConsumers(broker: Broker, stream: string) returns (page: Result<seq<ConsumerState>, PageError>)
    requires !IsBlank(stream)
    ensures page == ConsumersOf(broker, stream)
    ensures page.Ok? ==> ReadConsumers(page.value, broker.env)
    ensures page.Ok? ==> forall c :: c in page.value ==> StreamOf(c) == stream
  {
    var listed := FetchAllPages(ConsumerPages(broker, stream), NameOfConsumer());
    if listed.Err? {
      return listed;
    }
    FetchedNamesAreDistinct(ConsumerPages(broker, stream), NameOfConsumer());
    var found := listed.value;
    assert forall i :: 0 <= i < |found| ==> NameOfConsumer()(found[i]) == Ok(found[i].durable);
    var readable := CheckConsumers(found, broker);
    if !readable {
      return Err(PageError.Malformed);
    }
    page := Ok(seq(|found|, i requires 0 <= i < |found| => OnStream(found[i], stream)));
    DurablesOfFetched(found, page.value, stream);
  }

  lemma DurablesOfFetched(found: seq<ConsumerState>, read: seq<ConsumerState>, stream: string)
    requires Pagination.DistinctNames(found, NameOfConsumer()) && |read| == |found|
    requires forall i :: 0 <= i < |found| ==> read[i] == OnStream(found[i], stream)
    ensures PairsDistinct(read) && forall i :: 0 <= i < |read| ==> !IsBlank(read[i].durable)
  {
    assert forall i :: 0 <= i < |found| ==> NameOfConsumer()(found[i]) == Ok(found[i].durable);
    assert forall i, j :: 0 <= i < j < |found| ==> NameOfConsumer()(found[i]) != NameOfConsumer()(found[j]);
  }

  // ------------------------------------------------------------------------- the bijection

  predicate DeclarationsWf(expected: Declarations)
  {
    forall d :: d in expected ==> expected[d].durable == d
  }

  type Evaluator = (ConsumerState, ExpectedDurable) -> Json

  function EvaluateWith(consumers: seq<ConsumerState>, expected: Declarations, evaluate: Evaluator): seq<Json>
  {
    if consumers == [] then [] else
      var last := consumers[|consumers| - 1];
      EvaluateWith(consumers[..|consumers| - 1], expected, evaluate)
      + if last.durable in expected then [evaluate(last, expected[last.durable])] else []
  }

  /** `evaluate_existing_consumers` */
  function EvaluateExisting(consumers: seq<ConsumerState>, expected: Declarations): seq<Json>
  {
    EvaluateWith(consumers, expected, EvaluateConsumer)
  }

  predicate AnyBlocked(rows: seq<Json>)
  {
    exists i :: 0 <= i < |rows| && rows[i].JRow? && rows[i].status == JStr("BLOCKED")
  }

  function Unexpected(consumers: seq<ConsumerState>, expected: Declarations): seq<ConsumerState>
  {
    if consumers == [] then [] else
      var last := consumers[|consumers| - 1];
      Unexpected(consumers[..|consumers| - 1], expected) + if last.durable in expected then [] else [last]
  }

  function Missing(consumers: seq<ConsumerState>, expected: Declarations): set<string>
  {
    var observed := set c | c in consumers :: c.durable;
    set d | d in expected && d !in observed
  }

  lemma {:induction false} RowsCorrespond(consumers: seq<ConsumerState>, expected: Declarations, evaluate: Evaluator)
    requires Unexpected(consumers, expected) == []
    ensures var rows := EvaluateWith(consumers, expected, evaluate);
      && |rows| == |consumers|
      && forall i :: 0 <= i < |rows| ==>
           consumers[i].durable in expected && rows[i] == evaluate(consumers[i], expected[consumers[i].durable])
  {
    if consumers != [] {
      RowsCorrespond(consumers[..|consumers| - 1], expected, evaluate);
    }
  }

  /** An evaluated row is blocked exactly when the verdict is. */
  lemma BlockedRow(s: ConsumerState, e: ExpectedDurable)
    ensures EvaluateConsumer(s, e).status == JStr("BLOCKED") <==> Classify(s, e).status == Blocked
  {
    StatusTextInjective(Classify(s, e).status, Blocked);
  }

  /** The declaration a consumer stands for. */
  predicate Realises(c: ConsumerState, e: ExpectedDurable)
  {
    c.config.stream == JStr(e.stream) && c.durable == e.durable
  }

  predicate Owned(consumers: seq<ConsumerState>, expected: Declarations)
  {
    && Unexpected(consumers, expected) == [] && Missing(consumers, expected) == {}
    && !AnyBlocked(EvaluateExisting(consumers, expected))
  }

  lemma UnblockedRealises(consumers: seq<ConsumerState>, expected: Declarations, i: nat)
    requires DeclarationsWf(expected) && Unexpected(consumers, expected) == [] && i < |consumers|
    requires !AnyBlocked(EvaluateExisting(consumers, expected))
    ensures consumers[i].durable in expected && Realises(consumers[i], expected[consumers[i].durable])
  {
    RowsCorrespond(consumers, expected, EvaluateConsumer);
    var c := consumers[i];
    BlockedRow(c, expected[c.durable]);
    var row := EvaluateExisting(consumers, expected)[i];
    assert row.JRow? && row.status != JStr("BLOCKED");
    UnblockedIffConfigured(c, expected[c.durable]);
  }

  predicate EachObserved(consumers: seq<ConsumerState>, expected: Declarations)
  {
    forall d :: d in expected ==> exists i :: 0 <= i < |consumers| && Realises(consumers[i], expected[d])
  }

  predicate Bijective(consumers: seq<ConsumerState>, expected: Declarations)
  {
    && (forall i :: 0 <= i < |consumers| ==>
          consumers[i].durable in expected && Realises(consumers[i], expected[consumers[i].durable]))
    && EachObserved(consumers, expected)
    && (forall i, j :: 0 <= i < j < |consumers| ==> consumers[i].durable != consumers[j].durable)
  }

  /** With nothing blocked, unexpected or missing, consumers and declarations correspond one to one: a
      durable name that recurs on another stream would have drifted from its declared stream. */
  lemma OwnershipIsBijective(consumers: seq<ConsumerState>, expected: Declarations)
    requires DeclarationsWf(expected) && PairsDistinct(consumers) && Owned(consumers, expected)
    ensures Bijective(consumers, expected) && |consumers| == |expected|
  {
    forall i | 0 <= i < |consumers|
      ensures consumers[i].durable in expected && Realises(consumers[i], expected[consumers[i].durable])
    {
      UnblockedRealises(consumers, expected, i);
    }
    RealisedIsBijective(consumers, expected);
  }

  lemma RealisedIsBijective(consumers: seq<ConsumerState>, expected: Declarations)
    requires DeclarationsWf(expected) && PairsDistinct(consumers) && Missing(consumers, expected) == {}
    requires forall i :: 0 <= i < |consumers| ==>
               consumers[i].durable in expected && Realises(consumers[i], expected[consumers[i].durable])
    ensures Bijective(consumers, expected) && |consumers| == |expected|
  {
    forall d | d in expected
      ensures exists i :: 0 <= i < |consumers| && Realises(consumers[i], expected[d]) && consumers[i].durable == d
    {
      assert d !in Missing(consumers, expected);
      var c :| c in consumers && c.durable == d;
      var i :| 0 <= i < |consumers| && consumers[i] == c;
      assert Realises(consumers[i], expected[d]);
    }
    DistinctDurablesCount(consumers, expected.Keys);
  }

  lemma {:induction false} DistinctDurablesCount(consumers: seq<ConsumerState>, names: set<string>)
    requires forall i, j :: 0 <= i < j < |consumers| ==> consumers[i].durable != consumers[j].durable
    requires forall n :: n in names <==> exists i :: 0 <= i < |consumers| && consumers[i].durable == n
    ensures |names| == |consumers|
  {
    if consumers == [] {
      assert names == {};
    } else {
      var last := |consumers| - 1;
      var before := consumers[..last];
      assert forall i :: 0 <= i < last ==> before[i] == consumers[i];
      assert forall n :: n in names - {consumers[last].durable} ==>
          exists i :: 0 <= i < |before| && before[i].durable == n;
      assert consumers[last].durable in names;
      forall i | 0 <= i < |before|
        ensures before[i].durable in names - {consumers[last].durable}
      {
        assert before[i] == consumers[i];
        assert consumers[i].durable in names;
      }
      DistinctDurablesCount(before, names - {consumers[last].durable});
    }
  }
}
