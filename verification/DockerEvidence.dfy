/** The evidence packet of a live Docker event window and its independent validation. Times are in nanoseconds. */
module DockerEvidence {
  import opened Json
  import opened Collections

  const MAX_TARGET_EVENTS := 10_000
  const MAX_TOLERANCE := 1_500_000_000
  const MIN_TOLERANCE := 50_000_000
  const OVERLAP_MARGIN := 250_000_000

  /** `_clock_drift_tolerance_for_overlap` */
  function DriftTolerance(overlap: int): Option<int>
  {
    if overlap <= 0 then None else
      var wanted := if overlap - OVERLAP_MARGIN > MIN_TOLERANCE then overlap - OVERLAP_MARGIN else MIN_TOLERANCE;
      Some(if wanted < MAX_TOLERANCE then wanted else MAX_TOLERANCE)
  }

  /** An accepted clock step never eats the whole overlap, except for overlaps no longer than the least
      tolerance. It grows with the overlap. */
  lemma ToleranceLeavesOverlap(overlap: int, larger: int)
    requires 0 < overlap <= larger
    ensures DriftTolerance(overlap).value < overlap <==> overlap > MIN_TOLERANCE
    ensures DriftTolerance(overlap).value <= DriftTolerance(larger).value
    ensures overlap >= OVERLAP_MARGIN + MIN_TOLERANCE ==> DriftTolerance(overlap).value <= overlap - OVERLAP_MARGIN
  {
  }

  /** A sanitised event; as a dictionary it has `exec_id` and `exit_code` exactly when they are present here. */
  datatype Event = Event(
    containerId: string, name: string, action: string, time: int, execId: Option<string>, exitCode: Option<int>)

  datatype SegmentRow = SegmentRow(
    id: int, requestedAt: int, until: int, readyAt: int, completedAt: Option<int>, eventCount: int, cleanEof: bool)

  datatype Header = Header(formatVersion: string, source: string, complete: bool, coverageStatus: string)

  const FORMAT_VERSION := "aats.live_docker_event_window.v1"
  const HEADER := Header(FORMAT_VERSION, "docker_engine_live_stream", false, "BOUNDED_OBSERVED")

  /** What the packet says about the limits of its own observation. */
  datatype TrustBoundary = TrustBoundary(
    serverFilter: string, socketWriterExclusionVerified: bool, deliveryLossDetectable: bool, historyCapacity: int,
    readyPrecedesSubscriptionAck: bool, eventClockAlignmentVerified: bool, losslessAuditSourceVerified: bool,
    healthcheckOriginDistinguishable: bool, execEventsObserved: bool, networkEventsObserved: bool,
    volumeAccessObserved: bool, renameEventsFailClosed: bool, preCoverageHistoryRetained: bool)

  const TRUST_BOUNDARY := TrustBoundary(
    serverFilter := "type=container AND com.docker.compose.project=aats-dev",
    socketWriterExclusionVerified := false,
    deliveryLossDetectable := false,
    historyCapacity := 256,
    readyPrecedesSubscriptionAck := true,
    eventClockAlignmentVerified := false,
    losslessAuditSourceVerified := false,
    healthcheckOriginDistinguishable := false,
    execEventsObserved := false,
    networkEventsObserved := false,
    volumeAccessObserved := false,
    renameEventsFailClosed := true,
    preCoverageHistoryRetained := true)

  datatype Packet = Packet(
    header: Header, boundary: TrustBoundary, allowlist: seq<string>, daemonId: string, start: int, cutoff: int, end: int,
    segments: seq<SegmentRow>, preEvents: seq<Event>, events: seq<Event>, fatalErrors: seq<string>)

  /** The regular expressions of identifiers and names. */
  datatype Formats = Formats(
    isContainerId: string -> bool, isName: string -> bool, isExecId: string -> bool, isDaemonId: string -> bool)

  datatype Expectation = Expectation(allowlist: seq<string>, start: Option<int>, cutoff: Option<int>, daemonId: Option<string>)

  datatype Failure =
    | BadAllowlist | BadEvidence | BadTrustBoundary | BadDaemonId | DaemonMismatch | BadWindow | StartMismatch | CutoffMismatch | BadSegments
    | BadSegment | SegmentGap | IncompleteCoverage | BadEvents | BadEvent | EventOutsideAllowlist | BadEventTime
    | DuplicateEvent

  /** `sanitize_docker_event` returns the event as it is. */
  predicate Sanitized(e: Event, f: Formats)
  {
    && f.isContainerId(e.containerId) && f.isName(e.name) && e.action != "" && |e.action| <= 4096 && e.time > 0
    && (if StartsWith(e.action, "exec_")
        then e.execId.Some? && f.isExecId(e.execId.value) && (e.exitCode.Some? <==> e.action == "exec_die")
        else e.execId.None? && e.exitCode.None?)
  }

  predicate AllowlistOk(names: seq<string>, f: Formats)
  {
    && names != [] && (forall i, j :: 0 <= i < j < |names| ==> names[i] != names[j])
    && (forall i :: 0 <= i < |names| ==> f.isName(names[i]))
  }

  // ---------------------------------------------------------------------- what is asked

  predicate HeaderOk(p: Packet, x: Expectation, f: Formats)
  {
    && p.header == HEADER && p.boundary == TRUST_BOUNDARY && p.allowlist == x.allowlist && p.fatalErrors == []
    && f.isDaemonId(p.daemonId) && (x.daemonId.Some? ==> p.daemonId == x.daemonId.value)
  }

  predicate WindowOk(p: Packet, x: Expectation)
  {
    && 0 < p.start <= p.cutoff <= p.end
    && (x.start.Some? ==> p.start == x.start.value) && (x.cutoff.Some? ==> p.cutoff == x.cutoff.value)
  }

  predicate SegmentOk(s: SegmentRow)
  {
    && s.cleanEof && s.id > 0 && s.eventCount >= 0
    && s.completedAt.Some? && 0 < s.requestedAt <= s.readyAt <= s.until <= s.completedAt.value
  }

  predicate Covers(s: SegmentRow, t: int)
  {
    s.readyAt <= t <= s.until
  }

  predicate SegmentsOk(segments: seq<SegmentRow>)
  {
    && (forall i :: 0 <= i < |segments| ==> SegmentOk(segments[i]))
    && (forall i :: 1 <= i < |segments| ==> segments[i].readyAt <= segments[i - 1].until)
  }

  predicate SomeCovers(segments: seq<SegmentRow>, t: int)
  {
    exists i :: 0 <= i < |segments| && Covers(segments[i], t)
  }

  predicate CoverageOk(p: Packet)
  {
    && p.segments != [] && SegmentsOk(p.segments)
    && SomeCovers(p.segments, p.start) && SomeCovers(p.segments, p.cutoff)
    && p.segments[|p.segments| - 1].until == p.end
  }

  predicate InWindow(events: seq<Event>, low: int, high: int)
  {
    && (forall i :: 0 <= i < |events| ==> low <= events[i].time <= high)
    && (forall i :: 1 <= i < |events| ==> events[i - 1].time <= events[i].time)
  }

  predicate Listed(events: seq<Event>, allowlist: seq<string>, f: Formats)
  {
    forall i :: 0 <= i < |events| ==> Sanitized(events[i], f) && events[i].name in allowlist
  }

  predicate Distinct(events: seq<Event>)
  {
    forall i, j :: 0 <= i < j < |events| ==> events[i] != events[j]
  }

  predicate EventsOk(p: Packet, f: Formats)
  {
    && |p.preEvents| + |p.events| <= MAX_TARGET_EVENTS
    && Listed(p.preEvents, p.allowlist, f) && Listed(p.events, p.allowlist, f)
    && InWindow(p.preEvents, 1, p.start - 1) && InWindow(p.events, p.start, p.end)
    && Distinct(p.preEvents + p.events)
  }

  predicate Valid(p: Packet, x: Expectation, f: Formats)
  {
    AllowlistOk(x.allowlist, f) && HeaderOk(p, x, f) && WindowOk(p, x) && CoverageOk(p) && EventsOk(p, f)
  }

  // ------------------------------------------------------------------------- the validator

  method CheckSegments(p: Packet) returns (failure: Option<Failure>)
    requires p.segments != []
    ensures failure.None? <==> CoverageOk(p)
    ensures failure == Some(BadSegment) ==> exists i :: 0 <= i < |p.segments| && !SegmentOk(p.segments[i])
    ensures failure == Some(SegmentGap) ==> exists i :: 1 <= i < |p.segments| && p.segments[i].readyAt > p.segments[i - 1].until
    ensures failure == Some(IncompleteCoverage) ==> SegmentsOk(p.segments)
    ensures failure.Some? ==> failure.value in {BadSegment, SegmentGap, IncompleteCoverage}
  {
    var previousUntil: Option<int> := None;
    var coversStart, coversCutoff := false, false;
    for i := 0 to |p.segments|
      invariant SegmentsOk(p.segments[..i])
      invariant previousUntil == if i == 0 then None else Some(p.segments[i - 1].until)
      invariant coversStart <==> SomeCovers(p.segments[..i], p.start)
      invariant coversCutoff <==> SomeCovers(p.segments[..i], p.cutoff)
    {
      var s := p.segments[i];
      if !SegmentOk(s) {
        return Some(BadSegment);
      }
      if previousUntil.Some? && s.readyAt > previousUntil.value {
        return Some(SegmentGap);
      }
      previousUntil := Some(s.until);
      SomeCoversGrows(p.segments, i, p.start);
      SomeCoversGrows(p.segments, i, p.cutoff);
      coversStart := coversStart || s.readyAt <= p.start <= s.until;
      coversCutoff := coversCutoff || s.readyAt <= p.cutoff <= s.until;
    }
    assert p.segments[..|p.segments|] == p.segments;
    if !coversStart || !coversCutoff || previousUntil != Some(p.end) {
      return Some(IncompleteCoverage);
    }
    return None;
  }

  lemma SomeCoversGrows(segments: seq<SegmentRow>, n: nat, t: int)
    requires n < |segments|
    ensures SomeCovers(segments[..n + 1], t) <==> SomeCovers(segments[..n], t) || Covers(segments[n], t)
  {
    assert segments[..n + 1] == segments[..n] + [segments[n]];
    if SomeCovers(segments[..n], t) {
      var i :| 0 <= i < n && Covers(segments[..n][i], t);
      assert Covers(segments[..n + 1][i], t);
    }
    assert segments[..n + 1][n] == segments[n];
  }

  /** One of the two event lists, given what was seen in the other. */
  method CheckEvents(events: seq<Event>, low: int, high: int, allowlist: seq<string>, f: Formats, already: seq<Event>)
    returns (failure: Option<Failure>)
    requires low > 0
    ensures failure.None? <==> Fit(events, low, high, allowlist, f, already)
    ensures failure.Some? ==> failure.value in {BadEvent, EventOutsideAllowlist, BadEventTime, DuplicateEvent}
  {
    var seen := set e | e in already;
    var lastTime := 0;
    for i := 0 to |events|
      invariant Fit(events[..i], low, high, allowlist, f, already)
      invariant forall e :: e in seen <==> e in already || e in events[..i]
      invariant lastTime == if i == 0 then 0 else events[i - 1].time
    {
      var e := events[i];
      assert events[..i + 1] == events[..i] + [e];
      FitExtends(events[..i], e, low, high, allowlist, f, already);
      FitPrefix(events, i + 1, low, high, allowlist, f, already);
      if !Sanitized(e, f) {
        return Some(BadEvent);
      }
      if e.name !in allowlist {
        return Some(EventOutsideAllowlist);
      }
      if !(low <= e.time <= high) || e.time < lastTime {
        return Some(BadEventTime);
      }
      if e in seen {
        return Some(DuplicateEvent);
      }
      seen := seen + {e};
      lastTime := e.time;
    }
    assert events[..|events|] == events;
    return None;
  }

  predicate Fit(events: seq<Event>, low: int, high: int, allowlist: seq<string>, f: Formats, already: seq<Event>)
  {
    Listed(events, allowlist, f) && InWindow(events, low, high) && DistinctFrom(events, already)
  }

  predicate Follows(before: seq<Event>, e: Event, low: int, high: int, allowlist: seq<string>, f: Formats,
                    already: seq<Event>)
  {
    && Sanitized(e, f) && e.name in allowlist && low <= e.time <= high
    && (before != [] ==> before[|before| - 1].time <= e.time) && e !in already && e !in before
  }

  lemma FitExtends(before: seq<Event>, e: Event, low: int, high: int, allowlist: seq<string>, f: Formats,
                   already: seq<Event>)
    requires Fit(before, low, high, allowlist, f, already)
    ensures Fit(before + [e], low, high, allowlist, f, already) <==> Follows(before, e, low, high, allowlist, f, already)
  {
    var events := before + [e];
    assert events[|before|] == e;
    assert forall i :: 0 <= i < |before| ==> events[i] == before[i];
  }

  lemma FitPrefix(events: seq<Event>, n: nat, low: int, high: int, allowlist: seq<string>, f: Formats, already: seq<Event>)
    requires n <= |events|
    ensures Fit(events, low, high, allowlist, f, already) ==> Fit(events[..n], low, high, allowlist, f, already)
  {
  }

  predicate DistinctFrom(events: seq<Event>, already: seq<Event>)
  {
    Distinct(events) && forall i :: 0 <= i < |events| ==> events[i] !in already
  }

  lemma DistinctJoin(a: seq<Event>, b: seq<Event>)
    ensures Distinct(a + b) <==> DistinctFrom(a, []) && DistinctFrom(b, a)
  {
    var all := a + b;
    assert forall i :: 0 <= i < |a| ==> all[i] == a[i];
    assert forall i :: 0 <= i < |b| ==> all[|a| + i] == b[i];
    if Distinct(all) {
      forall i, j | 0 <= i < |a| && 0 <= j < |b|
        ensures a[i] != b[j]
      {
        assert all[i] != all[|a| + j];
      }
    }
  }

  /** `validate_live_window_evidence` */
  method ValidateLiveWindow(p: Packet, x: Expectation, f: Formats) returns (failure: Option<Failure>)
    ensures failure.None? <==> Valid(p, x, f)
  {
    if !AllowlistOk(x.allowlist, f) {
      return Some(BadAllowlist);
    }
    if p.header != HEADER || p.allowlist != x.allowlist || p.fatalErrors != [] {
      return Some(BadEvidence);
    }
    if p.boundary != TRUST_BOUNDARY {
      return Some(BadTrustBoundary);
    }
    if !f.isDaemonId(p.daemonId) {
      return Some(BadDaemonId);
    }
    if x.daemonId.Some? && p.daemonId != x.daemonId.value {
      return Some(DaemonMismatch);
    }
    if !(0 < p.start <= p.cutoff <= p.end) {
      return Some(BadWindow);
    }
    if x.start.Some? && p.start != x.start.value {
      return Some(StartMismatch);
    }
    if x.cutoff.Some? && p.cutoff != x.cutoff.value {
      return Some(CutoffMismatch);
    }
    if p.segments == [] {
      return Some(BadSegments);
    }
    failure := CheckSegments(p);
    if failure.Some? {
      return;
    }
    if |p.events| + |p.preEvents| > MAX_TARGET_EVENTS {
      return Some(BadEvents);
    }
    DistinctJoin(p.preEvents, p.events);
    failure := CheckEvents(p.preEvents, 1, p.start - 1, p.allowlist, f, []);
    if failure.None? {
      failure := CheckEvents(p.events, p.start, p.end, p.allowlist, f, p.preEvents);
    }
  }

  // ---------------------------------------------------------------------- what it shows

  lemma {:induction false} CoveredFrom(segments: seq<SegmentRow>, i: nat, t: int)
    requires i < |segments| && SegmentsOk(segments)
    requires segments[i].readyAt <= t <= segments[|segments| - 1].until
    ensures SomeCovers(segments, t)
    decreases |segments| - i
  {
    if t <= segments[i].until {
      assert Covers(segments[i], t);
    } else {
      CoveredFrom(segments, i + 1, t);
    }
  }

  /** In an accepted packet every instant of the window lies in a segment listed as read to a clean end. No
      order of the segments is assumed: each only has to be ready before the deadline of the one before. */
  lemma AcceptedWindowIsCovered(p: Packet, x: Expectation, f: Formats, t: int)
    requires Valid(p, x, f) && p.start <= t <= p.end
    ensures exists i :: 0 <= i < |p.segments| && Covers(p.segments[i], t) && p.segments[i].cleanEof
  {
    var first :| 0 <= first < |p.segments| && Covers(p.segments[first], p.start);
    CoveredFrom(p.segments, first, t);
    var i :| 0 <= i < |p.segments| && Covers(p.segments[i], t);
    assert SegmentOk(p.segments[i]);
  }

  lemma {:induction false} TimesAscend(events: seq<Event>, i: nat, j: nat)
    requires i <= j < |events|
    requires forall k :: 1 <= k < |events| ==> events[k - 1].time <= events[k].time
    ensures events[i].time <= events[j].time
  {
    if i < j {
      TimesAscend(events, i, j - 1);
    }
  }

  /** In an accepted packet the history and the window, one after the other, are in order of time, name no
      event twice, and each event is of an allowed container and on its own side of the start. */
  lemma AcceptedEventsAreOrdered(p: Packet, x: Expectation, f: Formats)
    requires Valid(p, x, f)
    ensures var all := p.preEvents + p.events;
      && (forall i, j :: 0 <= i < j < |all| ==> all[i].time <= all[j].time && all[i] != all[j])
      && (forall i :: 0 <= i < |all| ==>
            && all[i].name in x.allowlist && 0 < all[i].time <= p.end
            && (all[i].time < p.start <==> i < |p.preEvents|))
  {
    var all := p.preEvents + p.events;
    forall i, j | 0 <= i < j < |all|
      ensures all[i].time <= all[j].time
    {
      if j < |p.preEvents| {
        TimesAscend(p.preEvents, i, j);
      } else if i >= |p.preEvents| {
        TimesAscend(p.events, i - |p.preEvents|, j - |p.preEvents|);
      }
    }
  }
}
