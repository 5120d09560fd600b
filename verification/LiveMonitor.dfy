/** The monitor object whose methods take the steps of `DockerMonitor` in place. Its lock makes each method one step. */
module LiveMonitor {
  import opened Json
  import opened Collections
  import opened DockerEvidence
  import opened DockerMonitor

  class LiveDockerEventMonitor {
    const config: Config
    var segments: seq<Segment>
    var events: seq<Event>
    var eventKeys: set<Event>
    var trackedIds: set<string>
    var fatalError: Option<Fatal>
    var sealCutoff: Option<int>
    var started: Option<int>
    var finished: bool

    /** The keys are those of the events kept. */
    predicate Valid()
      reads this
    {
      eventKeys == set e | e in events
    }

    function Now(): MonitorState
      reads this
    {
      MonitorState(segments, events, trackedIds, fatalError, sealCutoff, started, finished)
    }

    constructor (config: Config)
      ensures this.config == config && Valid() && Now() == INITIAL
    {
      this.config := config;
      segments, events, eventKeys, trackedIds := [], [], {}, {};
      fatalError, sealCutoff, started, finished := None, None, None, false;
    }

    method Fail(code: Fatal)
      modifies this`fatalError
      ensures Now() == SetError(old(Now()), code)
    {
      if fatalError.None? {
        fatalError := Some(code);
      }
    }

    /** `_record_event` */
    method RecordEvent(event: Event)
      requires Valid()
      modifies this
      ensures Valid() && Now() == Record(old(Now()), event, config)
    {
      if StartsWith(event.action, "exec_") {
        return;
      }
      if event.action == "rename" {
        Fail(RenameObserved);
        return;
      }
      if event.name in config.allowlist {
        trackedIds := trackedIds + {event.containerId};
      }
      if event.name !in config.allowlist && event.containerId !in trackedIds {
        return;
      }
      if event in eventKeys {
        return;
      }
      if |events| >= MAX_TARGET_EVENTS {
        Fail(EventLimitExceeded);
        return;
      }
      eventKeys := eventKeys + {event};
      events := events + [event];
    }

    /** `_launch_segment` */
    method Launch(now: int, mono: int)
      requires Valid()
      modifies this`segments
      ensures Valid() && Now() == LaunchSegment(old(Now()), now, mono, config)
    {
      segments := segments + [Segment(|segments| + 1, now, mono, now + config.segmentLength, None, None, None, None, 0, None, false)];
    }

    method SegmentReady(i: nat, now: int, mono: int)
      requires Valid() && i < |segments|
      modifies this
      ensures Valid() && Now() == OnReady(old(Now()), i, now, mono)
    {
      if segments[i].readyAt.Some? {
        Fail(DuplicateReady);
        return;
      }
      segments := segments[i := segments[i].(readyAt := Some(now), readyMono := Some(mono))];
    }

    method SegmentEvent(i: nat, event: Event)
      requires Valid() && i < |segments|
      modifies this
      ensures Valid() && Now() == OnEvent(old(Now()), i, event, config)
    {
      RecordEvent(event);
      segments := segments[i := segments[i].(eventCount := segments[i].eventCount + 1)];
    }

    /** The end of a segment's worker. */
    method SegmentEnded(i: nat, now: int, mono: int, readerFailed: bool)
      requires Valid() && i < |segments|
      modifies this
      ensures Valid() && Now() == OnComplete(old(Now()), i, now, mono, readerFailed, config)
    {
      var segment := segments[i];
      var error: Option<Fatal> := None;
      if readerFailed {
        error := Some(ReaderFailed);
      } else {
        segment := segment.(completedAt := Some(now), completedMono := Some(mono));
        error := CompletionError(segment, config);
      }
      if error.Some? {
        segment := segment.(error := error);
        Fail(error.value);
      }
      segments := segments[i := segment.(done := true)];
    }

    /** One turn of `_coordinator_loop`, after its first launch. */
    method Coordinate(mono: int, deadline: int, wall: int, now: int, launchMono: int)
      requires Valid() && segments != []
      modifies this
      ensures Valid() && Now() == OnCoordinate(old(Now()), mono, deadline, wall, now, launchMono, config)
    {
      if finished || fatalError.Some? {
        finished := true;
        return;
      }
      if mono >= deadline {
        Fail(RuntimeExceeded);
        finished := true;
        return;
      }
      var latest := segments[|segments| - 1];
      var covers := sealCutoff.Some? && latest.readyAt.Some? && latest.until >= sealCutoff.value;
      if covers {
        if forall i :: 0 <= i < |segments| ==> segments[i].done {
          finished := true;
        }
      } else if wall >= latest.until - config.overlap {
        Launch(now, launchMono);
      }
    }

    /** `_initialize_start` and the end of `start` */
    method BeginWindow(ids: set<string>)
      requires Valid()
      modifies this
      ensures Valid() && Now() == OnBegin(old(Now()).(tracked := old(trackedIds) + ids))
    {
      trackedIds := trackedIds + ids;
      if started.None? && fatalError.None? && segments != [] && segments[0].readyAt.Some? {
        started := segments[0].readyAt;
      }
    }

    method RequestCutoff(cutoff: int)
      requires Valid()
      modifies this`sealCutoff
      ensures Valid() && Now() == OnSeal(old(Now()), cutoff)
    {
      if started.Some? && cutoff >= started.value && sealCutoff.None? {
        sealCutoff := Some(cutoff);
      }
    }

    /** The rest of `seal`, once the coordinator is gone: the packet is returned only if it validates. */
    method Seal(daemonId: string, f: Formats) returns (packet: Option<Packet>)
      requires Valid()
      ensures packet == Sealed(Now(), daemonId, config, f)
    {
      if fatalError.Some? || !finished || sealCutoff.None? {
        return None;
      }
      var built := BuildPacket(Now(), sealCutoff.value, daemonId, config);
      if built.None? {
        return None;
      }
      var failure := ValidateLiveWindow(built.value, Expectation(config.allowlist, started, sealCutoff, Some(daemonId)), f);
      return if failure.None? then built else None;
    }
  }
}
