/** The live Docker event monitor: overlapping segments, recorded events, sealing, and the packet it builds. */
module DockerMonitor {
  import opened Json
  import opened Collections
  import opened Sorting
  import opened DockerEvidence

  datatype Fatal =
    | RenameObserved | EventLimitExceeded | DuplicateReady | MissingReady | EarlyEof | ClockDrift | ReaderFailed
    | RuntimeExceeded | DaemonDrift

  datatype Segment = Segment(
    id: int, requestedAt: int, requestedMono: int, until: int, readyAt: Option<int>, readyMono: Option<int>,
    completedAt: Option<int>, completedMono: Option<int>, eventCount: int, error: Option<Fatal>, done: bool)

  /** What the constructor fixes. */
  datatype Config = Config(allowlist: seq<string>, segmentLength: int, overlap: int, tolerance: int)

  /** `LiveDockerEventMonitor.__init__` */
  function Configure(allowlist: seq<string>, segmentLength: int, overlap: int, f: Formats): Option<Config>
  {
    if AllowlistOk(allowlist, f) && 1_000_000_000 <= segmentLength <= 30_000_000_000
       && 250_000_000 <= overlap && 2 * overlap < segmentLength && DriftTolerance(overlap).Some?
    then Some(Config(allowlist, segmentLength, overlap, DriftTolerance(overlap).value)) else None
  }

  /** Every monitor that can be made accepts only clock steps shorter than its overlap, which is shorter than
      half a segment; from 300 milliseconds of overlap on, 250 of them are always left. */
  lemma ConfiguredToleranceFits(allowlist: seq<string>, segmentLength: int, overlap: int, f: Formats)
    requires Configure(allowlist, segmentLength, overlap, f).Some?
    ensures var c := Configure(allowlist, segmentLength, overlap, f).value;
      && 0 < c.tolerance < c.overlap && 2 * c.overlap < c.segmentLength
      && (c.overlap >= 300_000_000 ==> c.tolerance <= c.overlap - 250_000_000)
  {
    ToleranceLeavesOverlap(overlap, overlap);
  }

  datatype MonitorState = MonitorState(
    segments: seq<Segment>, events: seq<Event>, tracked: set<string>, fatal: Option<Fatal>, sealCutoff: Option<int>,
    started: Option<int>, finished: bool)

  const INITIAL := MonitorState([], [], {}, None, None, None, false)

  /** One atomic step under the monitor's lock, with the clock readings it takes. */
  datatype Step =
    | Launch(now: int, mono: int)
    | Ready(i: nat, now: int, mono: int)
    | Deliver(i: nat, event: Event)
    | Complete(i: nat, now: int, mono: int, readerFailed: bool)
    | Coordinate(mono: int, deadline: int, wall: int, now: int, launchMono: int)
    | Snapshot(ids: set<string>)
    | Begin
    | RequestSeal(cutoff: int)
    | Drift

  // ----------------------------------------------------------------------------- the steps

  /** The first fatal error stays. */
  function SetError(s: MonitorState, e: Fatal): MonitorState
  {
    if s.fatal.None? then s.(fatal := Some(e)) else s
  }

  /** Exec events are discarded, any rename is fatal, other events of known containers are kept once. */
  function Record(s: MonitorState, e: Event, c: Config): MonitorState
  {
    if StartsWith(e.action, "exec_") then s
    else if e.action == "rename" then SetError(s, RenameObserved)
    else
      var t := if e.name in c.allowlist then s.(tracked := s.tracked + {e.containerId}) else s;
      if e.name !in c.allowlist && e.containerId !in t.tracked then t
      else if e in t.events then t
      else if |t.events| >= MAX_TARGET_EVENTS then SetError(t, EventLimitExceeded)
      else t.(events := t.events + [e])
  }

  function LaunchSegment(s: MonitorState, now: int, mono: int, c: Config): MonitorState
  {
    s.(segments := s.segments + [Segment(|s.segments| + 1, now, mono, now + c.segmentLength, None, None, None, None, 0, None, false)])
  }

  function OnReady(s: MonitorState, i: nat, now: int, mono: int): MonitorState
    requires i < |s.segments|
  {
    if s.segments[i].readyAt.Some? then SetError(s, DuplicateReady)
    else s.(segments := s.segments[i := s.segments[i].(readyAt := Some(now), readyMono := Some(mono))])
  }

  function OnEvent(s: MonitorState, i: nat, e: Event, c: Config): MonitorState
    requires i < |s.segments|
  {
    var t := Record(s, e, c);
    t.(segments := t.segments[i := t.segments[i].(eventCount := t.segments[i].eventCount + 1)])
  }

  function Abs(x: int): int
  {
    if x < 0 then -x else x
  }

  /** What is wrong with a segment whose reader has come to its end. */
  function CompletionError(s: Segment, c: Config): Option<Fatal>
    requires s.completedAt.Some? && s.completedMono.Some?
  {
    if s.readyAt.None? || s.readyMono.None? then Some(MissingReady)
    else if s.completedAt.value < s.until then Some(EarlyEof)
    else if Abs((s.completedAt.value - s.readyAt.value) - (s.completedMono.value - s.readyMono.value)) > c.tolerance
    then Some(ClockDrift)
    else None
  }

  /** The end of a segment's worker. */
  function OnComplete(s: MonitorState, i: nat, now: int, mono: int, readerFailed: bool, c: Config): MonitorState
    requires i < |s.segments|
  {
    if readerFailed then
      SetError(s.(segments := s.segments[i := s.segments[i].(error := Some(ReaderFailed), done := true)]), ReaderFailed)
    else
      var ended := s.segments[i].(completedAt := Some(now), completedMono := Some(mono), done := true);
      var error := CompletionError(ended, c);
      if error.None? then s.(segments := s.segments[i := ended])
      else SetError(s.(segments := s.segments[i := ended.(error := error)]), error.value)
  }

  function LatestCoversSeal(s: MonitorState): bool
    requires s.segments != []
  {
    var latest := s.segments[|s.segments| - 1];
    s.sealCutoff.Some? && latest.readyAt.Some? && latest.until >= s.sealCutoff.value
  }

  predicate AllDone(s: MonitorState)
  {
    forall i :: 0 <= i < |s.segments| ==> s.segments[i].done
  }

  /** One turn of the coordinator: give up, finish, or open the next segment in time to overlap the latest. */
  function OnCoordinate(s: MonitorState, mono: int, deadline: int, wall: int, now: int, launchMono: int, c: Config): MonitorState
    requires s.segments != []
  {
    if s.finished || s.fatal.Some? then s.(finished := true)
    else if mono >= deadline then SetError(s, RuntimeExceeded).(finished := true)
    else if LatestCoversSeal(s) then
      if AllDone(s) then s.(finished := true) else s
    else if wall >= s.segments[|s.segments| - 1].until - c.overlap then LaunchSegment(s, now, launchMono, c)
    else s
  }

  /** `_initialize_start`: the window begins when the first segment was ready. */
  function OnBegin(s: MonitorState): MonitorState
  {
    if s.started.None? && s.fatal.None? && s.segments != [] && s.segments[0].readyAt.Some?
    then s.(started := s.segments[0].readyAt) else s
  }

  /** Only one cutoff, not before the start. */
  function OnSeal(s: MonitorState, cutoff: int): MonitorState
  {
    if s.started.Some? && cutoff >= s.started.value && s.sealCutoff.None? then s.(sealCutoff := Some(cutoff)) else s
  }

  /** A worker reports only between its launch and its end. */
  predicate Live(s: MonitorState, i: nat)
  {
    i < |s.segments| && !s.segments[i].done
  }

  /** Steps that cannot happen in a state change nothing. */
  function Apply(s: MonitorState, step: Step, c: Config): MonitorState
  {
    match step
    case Launch(now, mono) => if s.segments == [] then LaunchSegment(s, now, mono, c) else s
    case Ready(i, now, mono) => if Live(s, i) then OnReady(s, i, now, mono) else s
    case Deliver(i, event) => if Live(s, i) then OnEvent(s, i, event, c) else s
    case Complete(i, now, mono, failed) => if Live(s, i) then OnComplete(s, i, now, mono, failed, c) else s
    case Coordinate(mono, deadline, wall, now, launchMono) =>
      if s.segments != [] then OnCoordinate(s, mono, deadline, wall, now, launchMono, c) else s
    case Snapshot(ids) => s.(tracked := s.tracked + ids)
    case Begin => OnBegin(s)
    case RequestSeal(cutoff) => OnSeal(s, cutoff)
    case Drift => SetError(s, DaemonDrift)
  }

  function Run(steps: seq<Step>, c: Config): MonitorState
  {
    if steps == [] then INITIAL else Apply(Run(steps[..|steps| - 1], c), steps[|steps| - 1], c)
  }

  // ----------------------------------------------------------------------------- the packet

  function TextLe(a: string, b: string): bool
  {
    a == "" || (b != "" && (a[0] < b[0] || (a[0] == b[0] && TextLe(a[1..], b[1..]))))
  }

  /** The order of the packet's events: time, name, action, exec id. */
  function EventLe(a: Event, b: Event): bool
  {
    var x, y := if a.execId.Some? then a.execId.value else "", if b.execId.Some? then b.execId.value else "";
    if a.time != b.time then a.time < b.time
    else if a.name != b.name then TextLe(a.name, b.name)
    else if a.action != b.action then TextLe(a.action, b.action)
    else TextLe(x, y)
  }

  function ReadyTime(s: Segment): int
  {
    if s.readyAt.Some? then s.readyAt.value else 0
  }

  function ReadyLe(a: Segment, b: Segment): bool
  {
    ReadyTime(a) <= ReadyTime(b)
  }

  function Relevant(segments: seq<Segment>, started: int, cutoff: int): seq<Segment>
  {
    if segments == [] then [] else
      var last := segments[|segments| - 1];
      Relevant(segments[..|segments| - 1], started, cutoff)
      + if ReadyTime(last) != 0 && ReadyTime(last) <= cutoff && last.until >= started then [last] else []
  }

  function LatestUntil(segments: seq<Segment>): int
    requires segments != []
  {
    if |segments| == 1 then segments[0].until else
      var before, last := LatestUntil(segments[..|segments| - 1]), segments[|segments| - 1].until;
      if before < last then last else before
  }

  function Before(events: seq<Event>, t: int): seq<Event>
  {
    if events == [] then [] else
      var last := events[|events| - 1];
      Before(events[..|events| - 1], t) + if last.time < t then [last] else []
  }

  function From(events: seq<Event>, t: int): seq<Event>
  {
    if events == [] then [] else
      var last := events[|events| - 1];
      From(events[..|events| - 1], t) + if last.time >= t then [last] else []
  }

  function Row(s: Segment): SegmentRow
  {
    SegmentRow(s.id, s.requestedAt, s.until, ReadyTime(s), s.completedAt, s.eventCount, s.error.None? && s.done)
  }

  function Rows(segments: seq<Segment>): seq<SegmentRow>
  {
    seq(|segments|, i requires 0 <= i < |segments| => Row(segments[i]))
  }

  /** `_build_packet` */
  function BuildPacket(s: MonitorState, cutoff: int, daemonId: string, c: Config): Option<Packet>
  {
    if s.started.None? then None else
      var started := s.started.value;
      var relevant := Relevant(s.segments, started, cutoff);
      if relevant == [] || LatestUntil(relevant) < cutoff then None else
        var delivered := Sort(s.events, EventLe);
        Some(Packet(HEADER, TRUST_BOUNDARY, c.allowlist, daemonId, started, cutoff, LatestUntil(relevant),
                    Rows(Sort(relevant, ReadyLe)), Before(delivered, started), From(delivered, started), []))
  }

  /** What `seal` returns after the coordinator is gone: a packet that passes validation, or an error. */
  function Sealed(s: MonitorState, daemonId: string, c: Config, f: Formats): Option<Packet>
  {
    if s.fatal.Some? || !s.finished || s.sealCutoff.None? then None else
      var packet := BuildPacket(s, s.sealCutoff.value, daemonId, c);
      if packet.Some? && Valid(packet.value, Expectation(c.allowlist, s.started, s.sealCutoff, Some(daemonId)), f)
      then packet else None
  }

  // ----------------------------------------------------------------------------- recording

  /** The events handed over by live segments, in the order of arrival. */
  function Deliveries(steps: seq<Step>, c: Config): seq<Event>
  {
    if steps == [] then [] else
      var before, step := steps[..|steps| - 1], steps[|steps| - 1];
      Deliveries(before, c) + if step.Deliver? && Live(Run(before, c), step.i) then [step.event] else []
  }

  predicate IsExec(e: Event)
  {
    StartsWith(e.action, "exec_")
  }

  /** Everything recorded was delivered, is a lifecycle event of a container that is or was allowed, and is
      there once; nothing recordable is missing. */
  predicate RecordsAre(s: MonitorState, delivered: seq<Event>, c: Config)
  {
    && Distinct(s.events) && |s.events| <= MAX_TARGET_EVENTS
    && (forall e :: e in s.events ==>
          e in delivered && !IsExec(e) && e.action != "rename" && (e.name in c.allowlist || e.containerId in s.tracked))
    && (|s.events| < MAX_TARGET_EVENTS ==>
          forall e :: e in delivered && !IsExec(e) && e.action != "rename" && e.name in c.allowlist ==> e in s.events)
    && ((exists i :: 0 <= i < |delivered| && delivered[i].action == "rename") ==> s.fatal.Some?)
  }

  lemma RecordKeepsRecords(s: MonitorState, delivered: seq<Event>, e: Event, c: Config)
    requires RecordsAre(s, delivered, c)
    ensures RecordsAre(Record(s, e, c), delivered + [e], c)
  {
    var t, all := Record(s, e, c), delivered + [e];
    assert all[|delivered|] == e;
    assert forall i :: 0 <= i < |delivered| ==> all[i] == delivered[i];
    assert "exec_"[0] != "rename"[0];
    assert e.action == "rename" ==> !IsExec(e) && t.fatal.Some?;
    if i :| 0 <= i < |all| && all[i].action == "rename" {
      assert t.fatal.Some?;
    }
  }

  lemma OtherStepsKeepRecords(s: MonitorState, step: Step, delivered: seq<Event>, c: Config)
    requires RecordsAre(s, delivered, c) && !(step.Deliver? && Live(s, step.i))
    ensures RecordsAre(Apply(s, step, c), delivered, c)
  {
    var t := Apply(s, step, c);
    assert t.events == s.events && s.tracked <= t.tracked && (s.fatal.Some? ==> t.fatal.Some?);
  }

  /** Over any interleaving of any segments. */
  lemma {:induction false} RunRecords(steps: seq<Step>, c: Config)
    ensures RecordsAre(Run(steps, c), Deliveries(steps, c), c)
  {
    if steps != [] {
      var before, step := steps[..|steps| - 1], steps[|steps| - 1];
      RunRecords(before, c);
      var s := Run(before, c);
      if step.Deliver? && Live(s, step.i) {
        RecordKeepsRecords(s, Deliveries(before, c), step.event, c);
        var t := Record(s, step.event, c);
        assert Apply(s, step, c).events == t.events && Apply(s, step, c).tracked == t.tracked;
      } else {
        OtherStepsKeepRecords(s, step, Deliveries(before, c), c);
      }
    }
  }

  /** Whether the event would be kept, were it the first of its kind. */
  predicate Recordable(s: MonitorState, e: Event, c: Config)
  {
    !IsExec(e) && e.action != "rename" && (e.name in c.allowlist || e.containerId in s.tracked)
  }

  /** The events that were recordable when they were delivered: under an allowed name, or of a container
      tracked by then. */
  function Due(steps: seq<Step>, c: Config): seq<Event>
  {
    if steps == [] then [] else
      var before, step := steps[..|steps| - 1], steps[|steps| - 1];
      var s := Run(before, c);
      Due(before, c) + if step.Deliver? && Live(s, step.i) && Recordable(s, step.event, c) then [step.event] else []
  }

  predicate RecordsDue(events: seq<Event>, due: seq<Event>)
  {
    && Distinct(events) && (forall e :: e in events ==> e in due)
    && (|events| < MAX_TARGET_EVENTS ==> forall e :: e in due ==> e in events)
  }

  lemma RecordKeepsDue(s: MonitorState, e: Event, c: Config, due: seq<Event>)
    requires RecordsDue(s.events, due)
    ensures RecordsDue(Record(s, e, c).events, due + if Recordable(s, e, c) then [e] else [])
  {
    assert "exec_"[0] != "rename"[0];
  }

  /** Over any interleaving, what is recorded is what was due, each event once, and all of it below the limit. */
  lemma {:induction false} RunRecordsDue(steps: seq<Step>, c: Config)
    ensures RecordsDue(Run(steps, c).events, Due(steps, c))
  {
    if steps != [] {
      var before, step := steps[..|steps| - 1], steps[|steps| - 1];
      RunRecordsDue(before, c);
      var s := Run(before, c);
      if step.Deliver? && Live(s, step.i) {
        RecordKeepsDue(s, step.event, c, Due(before, c));
        assert Apply(s, step, c).events == Record(s, step.event, c).events;
      } else {
        assert Apply(s, step, c).events == s.events;
      }
    }
  }

  /** Below the limit, an event is recorded exactly once if some delivery of it was due, however many
      overlapping segments delivered it, and otherwise not at all. */
  lemma DueIsRecordedOnce(steps: seq<Step>, c: Config, e: Event)
    requires |Run(steps, c).events| < MAX_TARGET_EVENTS
    ensures multiset(Run(steps, c).events)[e] == if e in Due(steps, c) then 1 else 0
  {
    RunRecordsDue(steps, c);
    DistinctCount(Run(steps, c).events, e);
  }

  /** In particular each lifecycle event of an allowed name, whether or not its container was tracked. */
  lemma DeliveredIsRecordedOnce(steps: seq<Step>, c: Config, e: Event)
    requires |Run(steps, c).events| < MAX_TARGET_EVENTS
    requires e.name in c.allowlist && !IsExec(e) && e.action != "rename"
    ensures multiset(Run(steps, c).events)[e] == if e in Deliveries(steps, c) then 1 else 0
  {
    RunRecords(steps, c);
    DistinctCount(Run(steps, c).events, e);
  }

  lemma {:induction false} DistinctCount(events: seq<Event>, e: Event)
    requires Distinct(events)
    ensures multiset(events)[e] == if e in events then 1 else 0
  {
    if events != [] {
      var init, last := events[..|events| - 1], events[|events| - 1];
      assert events == init + [last];
      DistinctCount(init, e);
    }
  }

  /** After a rename of any container the monitor never again returns a packet, whatever happens next. */
  lemma RenameNeverSeals(steps: seq<Step>, later: seq<Step>, c: Config, i: nat, daemonId: string, f: Formats)
    requires i < |Deliveries(steps, c)| && Deliveries(steps, c)[i].action == "rename"
    ensures Sealed(Run(steps + later, c), daemonId, c, f) == None
  {
    RunRecords(steps, c);
    FatalStays(steps, later, c);
  }

  lemma {:induction false} FatalStays(steps: seq<Step>, later: seq<Step>, c: Config)
    requires Run(steps, c).fatal.Some?
    ensures Run(steps + later, c).fatal == Run(steps, c).fatal
  {
    if later == [] {
      assert steps + later == steps;
    } else {
      var init, last := later[..|later| - 1], later[|later| - 1];
      FatalStays(steps, init, c);
      assert (steps + later)[..|steps + later| - 1] == steps + init;
      FatalStaysOnce(Run(steps + init, c), last, c);
    }
  }

  lemma FatalStaysOnce(s: MonitorState, step: Step, c: Config)
    requires s.fatal.Some?
    ensures Apply(s, step, c).fatal == s.fatal
  {
  }

  // ------------------------------------------------------------- what every run of the clock keeps

  /** The latest reading of the wall clock. */
  function WallAfter(step: Step, last: int): int
  {
    match step
    case Launch(now, _) => now
    case Ready(_, now, _) => now
    case Complete(_, now, _, _) => now
    case Coordinate(_, _, _, now, _) => now
    case _ => last
  }

  predicate WallOk(step: Step, last: int)
  {
    && last <= WallAfter(step, last)
    && (match step
        case Launch(now, _) => now > 0
        case Coordinate(_, _, wall, now, _) => last <= wall <= now && now > 0
        case _ => true)
  }

  function Wall(steps: seq<Step>): int
  {
    if steps == [] then 0 else WallAfter(steps[|steps| - 1], Wall(steps[..|steps| - 1]))
  }

  /** The wall clock never goes back. */
  predicate WallNonDecreasing(steps: seq<Step>)
  {
    steps == [] || (WallNonDecreasing(steps[..|steps| - 1]) && WallOk(steps[|steps| - 1], Wall(steps[..|steps| - 1])))
  }

  predicate SegmentInv(s: Segment, id: int, last: int, c: Config)
  {
    && s.id == id && 0 < s.requestedAt <= last && s.until == s.requestedAt + c.segmentLength && s.eventCount >= 0
    && (s.readyAt.Some? ==> s.requestedAt <= s.readyAt.value <= last)
    && (!s.done ==> s.error.None?)
    && (s.done && s.error.None? ==> s.readyAt.Some? && s.completedAt.Some? && s.completedAt.value >= s.until)
  }

  predicate SegmentsInv(segments: seq<Segment>, last: int, c: Config)
  {
    && (forall i :: 0 <= i < |segments| ==> SegmentInv(segments[i], i + 1, last, c))
    && (forall i :: 1 <= i < |segments| ==> segments[i - 1].requestedAt <= segments[i].requestedAt)
  }

  predicate NoErrors(segments: seq<Segment>)
  {
    forall i :: 0 <= i < |segments| ==> segments[i].error.None?
  }

  predicate Inv(s: MonitorState, last: int, c: Config)
  {
    && SegmentsInv(s.segments, last, c) && (s.fatal.None? ==> NoErrors(s.segments))
    && (s.started.Some? ==> s.segments != [] && s.started == s.segments[0].readyAt)
    && (s.sealCutoff.Some? ==> s.started.Some? && s.started.value <= s.sealCutoff.value)
    && (s.finished && s.fatal.None? ==> s.segments != [] && AllDone(s) && LatestCoversSeal(s))
  }

  lemma LaunchKeepsInv(s: MonitorState, now: int, mono: int, last: int, c: Config)
    requires Inv(s, last, c) && last <= now && 0 < now && (s.finished ==> s.fatal.Some?)
    ensures Inv(LaunchSegment(s, now, mono, c), now, c)
  {
  }

  /** A worker's report about its own live segment. */
  lemma UpdateKeepsInv(s: MonitorState, t: MonitorState, i: nat, last: int, now: int, c: Config)
    requires Inv(s, last, c) && last <= now && Live(s, i) && |t.segments| == |s.segments|
    requires forall j :: 0 <= j < |s.segments| && j != i ==> t.segments[j] == s.segments[j]
    requires SegmentInv(t.segments[i], i + 1, now, c) && t.segments[i].requestedAt == s.segments[i].requestedAt
    requires s.segments[i].readyAt.Some? ==> t.segments[i].readyAt == s.segments[i].readyAt
    requires t.fatal.None? ==> s.fatal.None? && t.segments[i].error.None?
    requires t.started == s.started && t.sealCutoff == s.sealCutoff && t.finished == s.finished
    ensures Inv(t, now, c)
  {
  }

  lemma CoordinateKeepsInv(s: MonitorState, step: Step, last: int, c: Config)
    requires Inv(s, last, c) && step.Coordinate? && WallOk(step, last) && s.segments != []
    ensures Inv(Apply(s, step, c), WallAfter(step, last), c)
  {
    if !s.finished && s.fatal.None? {
      LaunchKeepsInv(s, step.now, step.launchMono, last, c);
    }
  }

  lemma ReadyKeepsInv(s: MonitorState, i: nat, now: int, mono: int, last: int, c: Config)
    requires Inv(s, last, c) && last <= now && Live(s, i)
    ensures Inv(OnReady(s, i, now, mono), now, c)
  {
    UpdateKeepsInv(s, OnReady(s, i, now, mono), i, last, now, c);
  }

  lemma EventKeepsInv(s: MonitorState, i: nat, e: Event, last: int, c: Config)
    requires Inv(s, last, c) && Live(s, i)
    ensures Inv(OnEvent(s, i, e, c), last, c)
  {
    UpdateKeepsInv(s, OnEvent(s, i, e, c), i, last, last, c);
  }

  lemma CompleteKeepsInv(s: MonitorState, i: nat, now: int, mono: int, failed: bool, last: int, c: Config)
    requires Inv(s, last, c) && last <= now && Live(s, i)
    ensures Inv(OnComplete(s, i, now, mono, failed, c), now, c)
  {
    UpdateKeepsInv(s, OnComplete(s, i, now, mono, failed, c), i, last, now, c);
  }

  lemma StepKeepsInv(s: MonitorState, step: Step, last: int, c: Config)
    requires Inv(s, last, c) && WallOk(step, last)
    ensures Inv(Apply(s, step, c), WallAfter(step, last), c)
  {
    if step.Launch? && s.segments == [] {
      LaunchKeepsInv(s, step.now, step.mono, last, c);
    } else if step.Coordinate? && s.segments != [] {
      CoordinateKeepsInv(s, step, last, c);
    } else if step.Ready? && Live(s, step.i) {
      ReadyKeepsInv(s, step.i, step.now, step.mono, last, c);
    } else if step.Deliver? && Live(s, step.i) {
      EventKeepsInv(s, step.i, step.event, last, c);
    } else if step.Complete? && Live(s, step.i) {
      CompleteKeepsInv(s, step.i, step.now, step.mono, step.readerFailed, last, c);
    } else {
      OtherStepKeepsInv(s, step, last, c);
    }
  }

  lemma OtherStepKeepsInv(s: MonitorState, step: Step, last: int, c: Config)
    requires Inv(s, last, c) && WallOk(step, last)
    requires step.Launch? || step.Coordinate? ==> Apply(s, step, c) == s
    requires step.Ready? || step.Deliver? || step.Complete? ==> !Live(s, step.i)
    ensures Inv(Apply(s, step, c), WallAfter(step, last), c)
  {
    var t := Apply(s, step, c);
    assert t.segments == s.segments && t.finished == s.finished && (t.fatal.None? ==> s.fatal.None?);
  }

  lemma {:induction false} RunKeepsInv(steps: seq<Step>, c: Config)
    requires WallNonDecreasing(steps)
    ensures Inv(Run(steps, c), Wall(steps), c)
  {
    if steps != [] {
      RunKeepsInv(steps[..|steps| - 1], c);
      StepKeepsInv(Run(steps[..|steps| - 1], c), steps[|steps| - 1], Wall(steps[..|steps| - 1]), c);
    }
  }

  // ------------------------------------------------------------------ the packet's segments

  /** Segments became ready in the order of their launch, each before its own deadline and before that of the
      one before it. */
  predicate ReadyInOrder(segments: seq<Segment>)
  {
    && (forall i :: 0 <= i < |segments| ==> segments[i].readyAt.Some? && ReadyTime(segments[i]) <= segments[i].until)
    && (forall i, j :: 0 <= i < j < |segments| ==> ReadyTime(segments[i]) <= ReadyTime(segments[j]))
    && (forall i :: 1 <= i < |segments| ==> ReadyTime(segments[i]) <= segments[i - 1].until)
  }

  /** How many segments were ready by the cutoff. */
  function ReadyBy(segments: seq<Segment>, cutoff: int): (m: nat)
    ensures m <= |segments|
  {
    if segments == [] || ReadyTime(segments[0]) > cutoff then 0 else 1 + ReadyBy(segments[1..], cutoff)
  }

  lemma {:induction false} ReadyBySplits(segments: seq<Segment>, cutoff: int)
    requires forall i, j :: 0 <= i < j < |segments| ==> ReadyTime(segments[i]) <= ReadyTime(segments[j])
    ensures forall i :: 0 <= i < |segments| ==> (i < ReadyBy(segments, cutoff) <==> ReadyTime(segments[i]) <= cutoff)
  {
    if segments != [] && ReadyTime(segments[0]) <= cutoff {
      ReadyBySplits(segments[1..], cutoff);
      assert forall i :: 1 <= i < |segments| ==> segments[1..][i - 1] == segments[i];
    }
  }

  lemma {:induction false} RelevantIsPrefix(segments: seq<Segment>, started: int, cutoff: int, m: nat, k: nat)
    requires m <= |segments| && k <= |segments|
    requires forall i :: 0 <= i < |segments| ==> (i < m <==> ReadyTime(segments[i]) <= cutoff)
    requires forall i :: 0 <= i < |segments| ==> 0 < ReadyTime(segments[i]) && started <= segments[i].until
    ensures Relevant(segments[..k], started, cutoff) == segments[..if k < m then k else m]
  {
    if k > 0 {
      assert segments[..k][..k - 1] == segments[..k - 1];
      RelevantIsPrefix(segments, started, cutoff, m, k - 1);
    }
  }

  lemma {:induction false} LatestIsLast(segments: seq<Segment>)
    requires segments != [] && forall i :: 1 <= i < |segments| ==> segments[i - 1].until <= segments[i].until
    ensures LatestUntil(segments) == segments[|segments| - 1].until
  {
    if |segments| > 1 {
      LatestIsLast(segments[..|segments| - 1]);
    }
  }

  /** A finished monitor without an error, whose segments became ready in order. */
  predicate Orderly(s: MonitorState, last: int, c: Config)
  {
    Inv(s, last, c) && s.finished && s.fatal.None? && ReadyInOrder(s.segments)
  }

  lemma RelevantSegments(s: MonitorState, last: int, c: Config)
    requires Orderly(s, last, c)
    ensures var cutoff, m := s.sealCutoff.value, ReadyBy(s.segments, s.sealCutoff.value);
      && m > 0 && Relevant(s.segments, s.started.value, cutoff) == s.segments[..m]
      && cutoff <= s.segments[m - 1].until
  {
    var n, cutoff := |s.segments|, s.sealCutoff.value;
    ReadyBySplits(s.segments, cutoff);
    var m := ReadyBy(s.segments, cutoff);
    assert ReadyTime(s.segments[0]) <= cutoff;
    forall i | 0 <= i < n
      ensures 0 < ReadyTime(s.segments[i]) && s.started.value <= s.segments[i].until
    {
      assert SegmentInv(s.segments[i], i + 1, last, c);
      assert ReadyTime(s.segments[0]) <= ReadyTime(s.segments[i]) <= s.segments[i].until;
    }
    RelevantIsPrefix(s.segments, s.started.value, cutoff, m, n);
    assert s.segments[..n] == s.segments;
    if m < n {
      assert ReadyTime(s.segments[m]) > cutoff;
    }
  }

  lemma RelevantRowsCover(s: MonitorState, last: int, c: Config, m: nat, cutoff: int)
    requires Orderly(s, last, c) && 0 < m <= |s.segments| && s.sealCutoff == Some(cutoff)
    requires ReadyTime(s.segments[m - 1]) <= cutoff <= s.segments[m - 1].until
    ensures RowsCover(Rows(s.segments[..m]), s.started.value, cutoff, s.segments[m - 1].until)
  {
    var rows := Rows(s.segments[..m]);
    forall i | 0 <= i < m
      ensures rows[i] == Row(s.segments[i]) && SegmentOk(rows[i])
    {
      assert SegmentInv(s.segments[i], i + 1, last, c);
    }
    assert Covers(rows[0], s.started.value);
    assert Covers(rows[m - 1], cutoff);
  }

  lemma SortedByReady(segments: seq<Segment>, m: nat)
    requires m <= |segments| && ReadyInOrder(segments)
    ensures Sort(segments[..m], ReadyLe) == segments[..m]
  {
    SortIsIdentity(segments[..m], ReadyLe);
  }

  lemma LatestOfPrefix(s: MonitorState, last: int, c: Config, m: nat)
    requires Inv(s, last, c) && 0 < m <= |s.segments|
    ensures LatestUntil(s.segments[..m]) == s.segments[m - 1].until
  {
    forall i | 1 <= i < m
      ensures s.segments[i - 1].until <= s.segments[i].until
    {
      assert SegmentInv(s.segments[i], i + 1, last, c) && SegmentInv(s.segments[i - 1], i, last, c);
    }
    LatestIsLast(s.segments[..m]);
  }

  // -------------------------------------------------------------------- the packet's events

  lemma EventOrderRanks()
    ensures Ranks(EventLe, (e: Event) => e.time)
  {
  }

  lemma {:induction false} PartsHaveTheirSide(events: seq<Event>, t: int)
    ensures forall e :: e in Before(events, t) ==> e.time < t
    ensures forall e :: e in From(events, t) ==> e.time >= t
  {
    if events != [] {
      PartsHaveTheirSide(events[..|events| - 1], t);
    }
  }

  lemma {:induction false} NoneFrom(events: seq<Event>, t: int)
    requires forall i :: 0 <= i < |events| ==> events[i].time < t
    ensures From(events, t) == []
  {
    if events != [] {
      NoneFrom(events[..|events| - 1], t);
    }
  }

  predicate TimesAscending(events: seq<Event>)
  {
    forall i, j :: 0 <= i < j < |events| ==> events[i].time <= events[j].time
  }

  lemma {:induction false} TimeSplits(events: seq<Event>, t: int)
    requires TimesAscending(events)
    ensures Before(events, t) + From(events, t) == events
  {
    if events != [] {
      var init, last := events[..|events| - 1], events[|events| - 1];
      TimeSplits(init, t);
      assert events == init + [last];
      if last.time < t {
        assert forall i :: 0 <= i < |init| ==> init[i].time <= last.time;
        NoneFrom(init, t);
        assert From(events, t) == [] && Before(events, t) == Before(init, t) + [last];
      } else {
        assert From(events, t) == From(init, t) + [last] && Before(events, t) == Before(init, t);
      }
    }
  }

  lemma SameElements(a: seq<Event>, b: seq<Event>)
    requires multiset(a) == multiset(b)
    ensures forall e :: e in a <==> e in b
    ensures Distinct(a) ==> Distinct(b)
  {
    forall e
      ensures e in a <==> e in b
    {
      assert e in a <==> e in multiset(a);
      assert e in b <==> e in multiset(b);
    }
    if Distinct(a) {
      forall i, j | 0 <= i < j < |b|
        ensures b[i] != b[j]
      {
        if b[i] == b[j] {
          TwiceCounts(b, i, j);
          DistinctCount(a, b[i]);
        }
      }
    }
  }

  lemma TwiceCounts(b: seq<Event>, i: nat, j: nat)
    requires i < j < |b| && b[i] == b[j]
    ensures multiset(b)[b[i]] >= 2
  {
    assert b == b[..j] + b[j..];
    assert b[i] in b[..j] && b[j] in b[j..];
  }

  /** The two event lists of the packet. */
  predicate EventsAllowed(events: seq<Event>, c: Config, end: int)
  {
    forall e :: e in events ==> e.name in c.allowlist && e.time <= end
  }

  /** The events in order of time, split at the start. */
  predicate SplitOf(p: Packet, delivered: seq<Event>)
  {
    && p.preEvents + p.events == delivered && Ascending(delivered, (e: Event) => e.time) && Distinct(delivered)
    && (forall e :: e in p.preEvents ==> e.time < p.start) && (forall e :: e in p.events ==> e.time >= p.start)
  }

  lemma AscendingByTime(events: seq<Event>)
    requires Ascending(events, (e: Event) => e.time)
    ensures TimesAscending(events)
  {
    var rank := (e: Event) => e.time;
    forall i, j | 0 <= i < j < |events|
      ensures events[i].time <= events[j].time
    {
      assert rank(events[i]) <= rank(events[j]);
    }
  }

  lemma SortedEvents(events: seq<Event>, p: Packet)
    requires Distinct(events)
    requires p.preEvents == Before(Sort(events, EventLe), p.start) && p.events == From(Sort(events, EventLe), p.start)
    ensures SplitOf(p, Sort(events, EventLe)) && |Sort(events, EventLe)| == |events|
    ensures forall e :: e in Sort(events, EventLe) <==> e in events
  {
    EventOrderRanks();
    SortAscends(events, EventLe, (e: Event) => e.time);
    SortKeeps(events, EventLe);
    AscendingByTime(Sort(events, EventLe));
    TimeSplits(Sort(events, EventLe), p.start);
    PartsHaveTheirSide(Sort(events, EventLe), p.start);
    SameElements(events, Sort(events, EventLe));
  }

  lemma SplitEvents(delivered: seq<Event>, p: Packet, f: Formats)
    requires SplitOf(p, delivered) && |delivered| <= MAX_TARGET_EVENTS && 0 < p.start <= p.end
    requires forall e :: e in delivered ==> Sanitized(e, f)
    ensures EventsOk(p, f) <==> forall e :: e in delivered ==> e.name in p.allowlist && e.time <= p.end
  {
    OrderedParts(p, delivered);
    ListedParts(p, delivered, p.start, p.end, f);
  }

  lemma PacketEvents(events: seq<Event>, c: Config, f: Formats, p: Packet)
    requires Distinct(events) && |events| <= MAX_TARGET_EVENTS && 0 < p.start <= p.end && p.allowlist == c.allowlist
    requires forall e :: e in events ==> Sanitized(e, f)
    requires p.preEvents == Before(Sort(events, EventLe), p.start) && p.events == From(Sort(events, EventLe), p.start)
    ensures EventsOk(p, f) <==> EventsAllowed(events, c, p.end)
  {
    SortedEvents(events, p);
    SplitEvents(Sort(events, EventLe), p, f);
  }

  lemma OrderedParts(p: Packet, delivered: seq<Event>)
    requires p.preEvents + p.events == delivered && Ascending(delivered, (e: Event) => e.time)
    ensures forall i :: 1 <= i < |p.preEvents| ==> p.preEvents[i - 1].time <= p.preEvents[i].time
    ensures forall i :: 1 <= i < |p.events| ==> p.events[i - 1].time <= p.events[i].time
  {
    var rank := (e: Event) => e.time;
    forall i | 1 <= i < |p.preEvents|
      ensures p.preEvents[i - 1].time <= p.preEvents[i].time
    {
      assert rank(delivered[i - 1]) <= rank(delivered[i]);
    }
    forall i | 1 <= i < |p.events|
      ensures p.events[i - 1].time <= p.events[i].time
    {
      var k := |p.preEvents| + i;
      assert rank(delivered[k - 1]) <= rank(delivered[k]);
      assert delivered[k - 1] == p.events[i - 1] && delivered[k] == p.events[i];
    }
  }

  lemma ListedParts(p: Packet, delivered: seq<Event>, started: int, end: int, f: Formats)
    requires p.preEvents + p.events == delivered && forall e :: e in delivered ==> Sanitized(e, f)
    requires forall e :: e in p.preEvents ==> e.time < started
    requires forall e :: e in p.events ==> e.time >= started
    requires started <= end
    ensures (Listed(p.preEvents, p.allowlist, f) && Listed(p.events, p.allowlist, f)
             && (forall i :: 0 <= i < |p.preEvents| ==> 1 <= p.preEvents[i].time <= started - 1)
             && (forall i :: 0 <= i < |p.events| ==> started <= p.events[i].time <= end))
       <==> forall e :: e in delivered ==> e.name in p.allowlist && e.time <= end
  {
    assert forall e :: e in p.preEvents || e in p.events <==> e in delivered;
    assert forall i :: 0 <= i < |p.preEvents| ==> p.preEvents[i] in p.preEvents;
    assert forall i :: 0 <= i < |p.events| ==> p.events[i] in p.events;
  }

  // ------------------------------------------------------------- the monitor and the validator

  /** Delivered events have passed the reader's sanitiser. */
  predicate ReaderSanitizes(steps: seq<Step>, f: Formats)
  {
    forall i :: 0 <= i < |steps| && steps[i].Deliver? ==> Sanitized(steps[i].event, f)
  }

  lemma {:induction false} DeliveriesAreSanitized(steps: seq<Step>, c: Config, f: Formats)
    requires ReaderSanitizes(steps, f)
    ensures forall e :: e in Deliveries(steps, c) ==> Sanitized(e, f)
  {
    if steps != [] {
      var init, last := steps[..|steps| - 1], steps[|steps| - 1];
      assert forall i :: 0 <= i < |init| ==> init[i] == steps[i];
      DeliveriesAreSanitized(init, c, f);
    }
  }

  /** The last deadline of the packet: that of the last segment ready by the cutoff. */
  function CoverageEnd(s: MonitorState): int
  {
    if s.sealCutoff.None? then 0 else
      var m := ReadyBy(s.segments, s.sealCutoff.value);
      if m == 0 then 0 else s.segments[m - 1].until
  }

  /** The first `m` segments are the relevant ones, in order, and cover the run up to the cutoff. */
  predicate PrefixCovers(s: MonitorState, cutoff: int, m: nat)
  {
    && s.started.Some? && 0 < s.started.value <= cutoff && 0 < m <= |s.segments|
    && Relevant(s.segments, s.started.value, cutoff) == s.segments[..m] == Sort(s.segments[..m], ReadyLe)
    && LatestUntil(s.segments[..m]) == s.segments[m - 1].until >= cutoff
    && RowsCover(Rows(s.segments[..m]), s.started.value, cutoff, s.segments[m - 1].until)
  }

  predicate RowsCover(rows: seq<SegmentRow>, start: int, cutoff: int, end: int)
  {
    rows != [] && SegmentsOk(rows) && SomeCovers(rows, start) && SomeCovers(rows, cutoff) && rows[|rows| - 1].until == end
  }

  lemma PacketOfPrefix(s: MonitorState, cutoff: int, m: nat, daemonId: string, c: Config)
    requires PrefixCovers(s, cutoff, m)
    ensures var p := BuildPacket(s, cutoff, daemonId, c);
      && p.Some? && p.value.end == s.segments[m - 1].until && CoverageOk(p.value)
      && 0 < p.value.start <= p.value.cutoff <= p.value.end
  {
  }

  /** What the run's order says of the packet's instants. */
  lemma OrderlyInstants(s: MonitorState, last: int, c: Config)
    requires Orderly(s, last, c)
    ensures 0 < s.started.value <= s.sealCutoff.value && ReadyTime(s.segments[0]) <= s.sealCutoff.value
  {
    assert SegmentInv(s.segments[0], 1, last, c);
  }

  lemma OrderlyPrefixCovers(s: MonitorState, last: int, c: Config)
    requires Orderly(s, last, c)
    ensures PrefixCovers(s, s.sealCutoff.value, ReadyBy(s.segments, s.sealCutoff.value))
  {
    var cutoff := s.sealCutoff.value;
    var m := ReadyBy(s.segments, cutoff);
    OrderlyInstants(s, last, c);
    RelevantSegments(s, last, c);
    ReadyBySplits(s.segments, cutoff);
    LatestOfPrefix(s, last, c, m);
    SortedByReady(s.segments, m);
    RelevantRowsCover(s, last, c, m, cutoff);
  }

  lemma PacketOfOrderly(s: MonitorState, last: int, c: Config, daemonId: string)
    requires Orderly(s, last, c)
    ensures var p := BuildPacket(s, s.sealCutoff.value, daemonId, c);
      && p.Some? && p.value.end == CoverageEnd(s) && CoverageOk(p.value)
      && 0 < p.value.start <= p.value.cutoff <= p.value.end
  {
    OrderlyPrefixCovers(s, last, c);
    PacketOfPrefix(s, s.sealCutoff.value, ReadyBy(s.segments, s.sealCutoff.value), daemonId, c);
  }

  lemma OrderlySealsIff(s: MonitorState, last: int, c: Config, daemonId: string, f: Formats)
    requires Orderly(s, last, c) && AllowlistOk(c.allowlist, f) && f.isDaemonId(daemonId)
    requires Distinct(s.events) && |s.events| <= MAX_TARGET_EVENTS && forall e :: e in s.events ==> Sanitized(e, f)
    ensures Sealed(s, daemonId, c, f).Some? <==> EventsAllowed(s.events, c, CoverageEnd(s))
  {
    PacketOfOrderly(s, last, c, daemonId);
    var p := BuildPacket(s, s.sealCutoff.value, daemonId, c).value;
    PacketEvents(s.events, c, f, p);
    assert HeaderOk(p, Expectation(c.allowlist, s.started, s.sealCutoff, Some(daemonId)), f);
  }

  /** A monitor that finished without an error, on a wall clock that never goes back, and whose segments became
      ready in order, always has a packet for its cutoff. The validator accepts that packet exactly when every
      recorded event names an allowed container and is not later than the last deadline covered: an event
      recorded because only its container id was tracked makes the packet unacceptable. */
  lemma FinishedRunSealsIff(steps: seq<Step>, c: Config, daemonId: string, f: Formats)
    requires WallNonDecreasing(steps) && ReaderSanitizes(steps, f)
    requires AllowlistOk(c.allowlist, f) && f.isDaemonId(daemonId)
    requires Run(steps, c).finished && Run(steps, c).fatal.None? && ReadyInOrder(Run(steps, c).segments)
    ensures Sealed(Run(steps, c), daemonId, c, f).Some?
       <==> EventsAllowed(Run(steps, c).events, c, CoverageEnd(Run(steps, c)))
  {
    RunKeepsInv(steps, c);
    RunRecords(steps, c);
    DeliveriesAreSanitized(steps, c, f);
    OrderlySealsIff(Run(steps, c), Wall(steps), c, daemonId, f);
  }

  // ----------------------------------------------------------- an unacceptable recorded event

  /** A monitor of one container with segments of five seconds that overlap by two, as by default. */
  const WITNESS_CONFIG := Config(["app"], 5_000_000_000, 2_000_000_000, 1_500_000_000)

  /** An event of a tracked container under a name that is not on the allowlist. */
  function Stranger(id: string): Event
  {
    Event(id, "stranger", "start", 3, None, None)
  }

  /** One segment: it becomes ready, the container is tracked, its event is delivered, and after the deadline the
      segment ends and the coordinator finishes. */
  function Witness(id: string): seq<Step>
  {
    [Launch(1, 1), Ready(0, 2, 2), Begin, Snapshot({id}), Deliver(0, Stranger(id)), RequestSeal(4),
     Complete(0, 5_000_000_010, 5_000_000_010, false),
     Coordinate(5_000_000_011, 90_000_000_000, 5_000_000_011, 5_000_000_011, 5_000_000_011)]
  }

  lemma RunExtends(steps: seq<Step>, n: nat, c: Config)
    requires n < |steps|
    ensures Run(steps[..n + 1], c) == Apply(Run(steps[..n], c), steps[n], c)
  {
    assert steps[..n + 1][..n] == steps[..n];
  }

  function WitnessSegment(events: int, completed: Option<int>): Segment
  {
    Segment(1, 1, 1, 5_000_000_001, Some(2), Some(2), completed, completed, events, None, completed.Some?)
  }

  lemma WitnessOpens(id: string)
    ensures Run(Witness(id)[..4], WITNESS_CONFIG)
         == MonitorState([WitnessSegment(0, None)], [], {id}, None, None, Some(2), false)
  {
    assert Witness(id)[..0] == [];
    RunExtends(Witness(id), 0, WITNESS_CONFIG);
    RunExtends(Witness(id), 1, WITNESS_CONFIG);
    RunExtends(Witness(id), 2, WITNESS_CONFIG);
    RunExtends(Witness(id), 3, WITNESS_CONFIG);
  }

  lemma StrangerIsPlain()
    ensures !StartsWith("start", "exec_") && "start" != "rename" && "stranger" !in WITNESS_CONFIG.allowlist
  {
    assert |"start"| != |"rename"| && |"stranger"| != |"app"|;
    assert "start"[..5][0] == 's';
    assert "exec_"[0] == 'e';
  }

  lemma WitnessRecords(id: string)
    ensures Run(Witness(id)[..6], WITNESS_CONFIG)
         == MonitorState([WitnessSegment(1, None)], [Stranger(id)], {id}, None, Some(4), Some(2), false)
  {
    WitnessOpens(id);
    StrangerIsPlain();
    RunExtends(Witness(id), 4, WITNESS_CONFIG);
    RunExtends(Witness(id), 5, WITNESS_CONFIG);
  }

  lemma WitnessCloses(id: string)
    ensures Run(Witness(id), WITNESS_CONFIG)
         == MonitorState([WitnessSegment(1, Some(5_000_000_010))], [Stranger(id)], {id}, None, Some(4), Some(2), true)
  {
    WitnessRecords(id);
    RunExtends(Witness(id), 6, WITNESS_CONFIG);
    RunExtends(Witness(id), 7, WITNESS_CONFIG);
    assert Witness(id)[..8] == Witness(id);
  }

  lemma OneEventLists(e: Event, t: int)
    requires e.time >= t
    ensures Sort([e], EventLe) == [e] && From([e], t) == [e] && Before([e], t) == []
  {
    assert [e][..0] == [];
  }

  /** A run the code can go through: a default configuration, a container id and names that pass their checks, a
      clean end. Its packet is valid but for the one event recorded because its container was tracked, and for
      that event's name the monitor's own validation refuses it. */
  lemma TrackedStrangerIsRefused(id: string, daemonId: string, f: Formats)
    requires f.isContainerId(id) && f.isName("app") && f.isName("stranger") && f.isDaemonId(daemonId)
    ensures Configure(["app"], 5_000_000_000, 2_000_000_000, f) == Some(WITNESS_CONFIG)
    ensures WallNonDecreasing(Witness(id)) && ReaderSanitizes(Witness(id), f)
    ensures var s := Run(Witness(id), WITNESS_CONFIG);
            var p := BuildPacket(s, 4, daemonId, WITNESS_CONFIG);
            var x := Expectation(["app"], s.started, s.sealCutoff, Some(daemonId));
      && s.finished && s.fatal.None? && ReadyInOrder(s.segments)
      && p.Some? && p.value.events == [Stranger(id)] && Valid(p.value.(events := []), x, f)
      && Stranger(id).time <= p.value.end && Stranger(id).name !in p.value.allowlist
      && Sealed(s, daemonId, WITNESS_CONFIG, f) == None
  {
    StrangerIsPlain();
    WitnessIsPossible(id, f);
    WitnessOutcome(id);
    LoneStrangerIsRefused(Run(Witness(id), WITNESS_CONFIG), Wall(Witness(id)), WITNESS_CONFIG, daemonId, f, Stranger(id));
  }

  lemma WitnessIsPossible(id: string, f: Formats)
    requires f.isContainerId(id) && f.isName("app") && f.isName("stranger")
    ensures Configure(["app"], 5_000_000_000, 2_000_000_000, f) == Some(WITNESS_CONFIG) && AllowlistOk(["app"], f)
    ensures WallNonDecreasing(Witness(id)) && ReaderSanitizes(Witness(id), f)
  {
    StrangerIsPlain();
    WitnessClock(id);
    assert Sanitized(Stranger(id), f);
  }

  lemma WitnessOutcome(id: string)
    ensures var s := Run(Witness(id), WITNESS_CONFIG);
            Orderly(s, Wall(Witness(id)), WITNESS_CONFIG) && s.events == [Stranger(id)] && s.started == Some(2)
            && s.sealCutoff == Some(4) && CoverageEnd(s) == 5_000_000_001
  {
    WitnessCloses(id);
    WitnessClock(id);
    RunKeepsInv(Witness(id), WITNESS_CONFIG);
    WitnessIsOrderly(Run(Witness(id), WITNESS_CONFIG), id, Wall(Witness(id)));
  }

  lemma WitnessIsOrderly(s: MonitorState, id: string, last: int)
    requires Inv(s, last, WITNESS_CONFIG)
    requires s == MonitorState([WitnessSegment(1, Some(5_000_000_010))], [Stranger(id)], {id}, None, Some(4), Some(2), true)
    ensures Orderly(s, last, WITNESS_CONFIG) && CoverageEnd(s) == 5_000_000_001
  {
    assert ReadyBy(s.segments[1..], 4) == 0;
  }

  /** A single recorded event in the window under a name that is not allowed is all that is wrong. */
  lemma LoneStrangerIsRefused(s: MonitorState, last: int, c: Config, daemonId: string, f: Formats, e: Event)
    requires Orderly(s, last, c) && AllowlistOk(c.allowlist, f) && f.isDaemonId(daemonId)
    requires s.events == [e] && s.started.value <= e.time && e.name !in c.allowlist
    ensures var p := BuildPacket(s, s.sealCutoff.value, daemonId, c);
            var x := Expectation(c.allowlist, s.started, s.sealCutoff, Some(daemonId));
      && p.Some? && p.value.events == [e] && p.value.allowlist == c.allowlist && p.value.end == CoverageEnd(s)
      && Valid(p.value.(events := []), x, f) && Sealed(s, daemonId, c, f) == None
  {
    PacketOfOrderly(s, last, c, daemonId);
    OneEventLists(e, s.started.value);
    var p := BuildPacket(s, s.sealCutoff.value, daemonId, c).value;
    assert p.events == [e] && p.preEvents == [];
    WithoutEventsIsValid(p, Expectation(c.allowlist, s.started, s.sealCutoff, Some(daemonId)), f);
    assert !Listed(p.events, p.allowlist, f);
  }

  lemma WithoutEventsIsValid(p: Packet, x: Expectation, f: Formats)
    requires AllowlistOk(x.allowlist, f) && HeaderOk(p, x, f) && WindowOk(p, x) && CoverageOk(p) && p.preEvents == []
    ensures Valid(p.(events := []), x, f)
  {
  }

  lemma WitnessClock(id: string)
    ensures WallNonDecreasing(Witness(id))
  {
    var steps := Witness(id);
    assert steps[..8] == steps;
    ClockExtends(steps, 0);
    ClockExtends(steps, 1);
    ClockExtends(steps, 2);
    ClockExtends(steps, 3);
    ClockExtends(steps, 4);
    ClockExtends(steps, 5);
    ClockExtends(steps, 6);
    ClockExtends(steps, 7);
  }

  lemma ClockExtends(steps: seq<Step>, n: nat)
    requires n < |steps|
    ensures WallNonDecreasing(steps[..n + 1]) <==> WallNonDecreasing(steps[..n]) && WallOk(steps[n], Wall(steps[..n]))
    ensures Wall(steps[..n + 1]) == WallAfter(steps[n], Wall(steps[..n]))
  {
    assert steps[..n + 1][..n] == steps[..n];
  }
}
