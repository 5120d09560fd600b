/** Sampling the deployed system at fixed slots until a monotonic deadline. Times are in nanoseconds. */
module Observer {
  import opened Json
  import opened Grid

  datatype Failure =
    InvalidTiming | InvalidClock | WokeEarly | ProbeFailed | AppChanged | NatsChanged | CadenceExceeded | WindowTooShort

  /** Everything the observation cannot control. The clock gives its successive readings, whatever sleeping did
      in between; a probe that fails, or answers with something that is not a fingerprint or a container id,
      gives none. */
  datatype World = World(
    clock: nat -> int, app: (nat, bool) -> Option<string>, nats: (nat, Option<string>, bool) -> Option<string>,
    gateway: nat -> bool)

  datatype Samples = Samples(count: nat, fingerprint: Option<string>, container: Option<string>)

  /** When a sample was begun and when it was over. */
  datatype Times = Times(started: int, completed: int)

  datatype Run = Run(taken: nat, samples: Samples, log: seq<Times>)

  datatype Observation = Observation(fingerprint: string, container: string, elapsed: int, samples: nat, log: seq<Times>)

  function Read(world: World, i: nat): Option<int>
  {
    if world.clock(i) >= 0 then Some(world.clock(i)) else None
  }

  datatype Waited = Waited(taken: nat, now: Result<int, Failure>)

  function WaitUntil(world: World, taken: nat, target: int): Waited
  {
    var first, second := Read(world, taken), Read(world, taken + 1);
    if first.None? then Waited(taken + 1, Err(InvalidClock))
    else if first.value >= target then Waited(taken + 1, Ok(first.value))
    else if second.None? then Waited(taken + 2, Err(InvalidClock))
    else if second.value < target then Waited(taken + 2, Err(WokeEarly))
    else Waited(taken + 2, Ok(second.value))
  }

  function Sampled(s: Samples, world: World, final: bool): Result<Samples, Failure>
  {
    var fingerprint, container := world.app(s.count, final), world.nats(s.count, s.container, final);
    if fingerprint.None? then Err(ProbeFailed)
    else if s.fingerprint.Some? && s.fingerprint != fingerprint then Err(AppChanged)
    else if container.None? then Err(ProbeFailed)
    else if s.container.Some? && s.container != container then Err(NatsChanged)
    else if !world.gateway(s.count) then Err(ProbeFailed)
    else Ok(Samples(s.count + 1, fingerprint, container))
  }

  /** One slot: wait for it, sample, and be done before the next. */
  function Slot(r: Run, world: World, next: int, interval: int): Result<Run, Failure>
  {
    var waited := WaitUntil(world, r.taken, next);
    if waited.now.Err? then Err(waited.now.error) else
      var sampled := Sampled(r.samples, world, false);
      if sampled.Err? then Err(sampled.error) else
        var completed := Read(world, waited.taken);
        if completed.None? then Err(InvalidClock)
        else if completed.value > next + interval then Err(CadenceExceeded)
        else Ok(Run(waited.taken + 1, sampled.value, r.log + [Times(waited.now.value, completed.value)]))
  }

  function SlotsFrom(r: Run, world: World, next: int, deadline: int, interval: int): Result<Run, Failure>
    requires interval > 0
    decreases deadline - next
  {
    if next >= deadline then Ok(r) else
      var slot := Slot(r, world, next, interval);
      if slot.Err? then slot else SlotsFrom(slot.value, world, next + interval, deadline, interval)
  }

  function Finish(r: Run, world: World, start: int, deadline: int, interval: int): Result<Observation, Failure>
  {
    var waited := WaitUntil(world, r.taken, deadline);
    if waited.now.Err? then Err(waited.now.error) else
      var sampled := Sampled(r.samples, world, true);
      if sampled.Err? then Err(sampled.error) else
        var ended := Read(world, waited.taken);
        if ended.None? then Err(InvalidClock)
        else if ended.value > deadline + interval then Err(CadenceExceeded)
        else if ended.value < deadline || sampled.value.fingerprint.None? then Err(WindowTooShort)
        else Ok(Observation(sampled.value.fingerprint.value, sampled.value.container.value, ended.value - start,
                            sampled.value.count, r.log + [Times(waited.now.value, ended.value)]))
  }

  function Observed(world: World, duration: int, interval: int): Result<Observation, Failure>
  {
    if duration <= 0 || interval <= 0 || interval > duration then Err(InvalidTiming)
    else if Read(world, 0).None? then Err(InvalidClock)
    else
      var start := Read(world, 0).value;
      var slots := SlotsFrom(Run(1, Samples(0, None, None), []), world, start, start + duration, interval);
      if slots.Err? then Err(slots.error) else Finish(slots.value, world, start, start + duration, interval)
  }

  // ------------------------------------------------------------------------------ the program

  /** The monotonic clock, with a count of the readings taken. */
  class Clock {
    const world: World
    var taken: nat

    constructor (world: World)
      ensures this.world == world && taken == 0
    {
      this.world := world;
      taken := 0;
    }

    method Now() returns (now: Option<int>)
      modifies this
      ensures now == Read(world, old(taken)) && taken == old(taken) + 1
    {
      now := if world.clock(taken) >= 0 then Some(world.clock(taken)) else None;
      taken := taken + 1;
    }

    /** `_wait_until` */
    method Wait(target: int) returns (now: Result<int, Failure>)
      modifies this
      ensures Waited(taken, now) == WaitUntil(world, old(taken), target)
    {
      var first := Now();
      if first.None? {
        return Err(InvalidClock);
      }
      if first.value >= target {
        return Ok(first.value);
      }
      var second := Now();
      if second.None? {
        return Err(InvalidClock);
      }
      return if second.value < target then Err(WokeEarly) else Ok(second.value);
    }
  }

  /** What the nested `sample` keeps between samples. */
  class Sampler {
    const world: World
    var samples: Samples

    constructor (world: World)
      ensures this.world == world && samples == Samples(0, None, None)
    {
      this.world := world;
      samples := Samples(0, None, None);
    }

    method Sample(final: bool) returns (failure: Option<Failure>)
      modifies this
      ensures match Sampled(old(samples), world, final)
              case Ok(s) => failure.None? && samples == s
              case Err(e) => failure == Some(e)
    {
      var fingerprint := world.app(samples.count, final);
      if fingerprint.None? {
        return Some(ProbeFailed);
      }
      if samples.fingerprint.Some? && fingerprint != samples.fingerprint {
        return Some(AppChanged);
      }
      var container := world.nats(samples.count, samples.container, final);
      samples := samples.(fingerprint := fingerprint);
      if container.None? {
        return Some(ProbeFailed);
      }
      if samples.container.Some? && container != samples.container {
        return Some(NatsChanged);
      }
      samples := samples.(container := container);
      if !world.gateway(samples.count) {
        return Some(ProbeFailed);
      }
      samples := samples.(count := samples.count + 1);
      return None;
    }
  }

  /** Waits for a slot, samples, and checks the cadence. */
  method TakeSlot(clock: Clock, sampler: Sampler, log: seq<Times>, next: int, interval: int) returns (times: Result<Times, Failure>)
    requires clock.world == sampler.world
    modifies clock, sampler
    ensures var slot := Slot(Run(old(clock.taken), old(sampler.samples), log), clock.world, next, interval);
      && (times.Ok? <==> slot.Ok?)
      && (slot.Ok? ==> slot.value == Run(clock.taken, sampler.samples, log + [times.value]))
      && (slot.Err? ==> times.error == slot.error)
  {
    var begun := clock.Wait(next);
    if begun.Err? {
      return Err(begun.error);
    }
    var failure := sampler.Sample(false);
    if failure.Some? {
      return Err(failure.value);
    }
    var completed := clock.Now();
    if completed.None? {
      return Err(InvalidClock);
    }
    if completed.value > next + interval {
      return Err(CadenceExceeded);
    }
    return Ok(Times(begun.value, completed.value));
  }

  /** Slot after slot until the deadline. */
  method TakeSlots(clock: Clock, sampler: Sampler, start: int, deadline: int, interval: int)
    returns (log: Result<seq<Times>, Failure>)
    requires clock.world == sampler.world && interval > 0
    modifies clock, sampler
    ensures var slots := SlotsFrom(Run(old(clock.taken), old(sampler.samples), []), clock.world, start, deadline, interval);
      && (log.Ok? <==> slots.Ok?)
      && (slots.Ok? ==> slots.value == Run(clock.taken, sampler.samples, log.value))
      && (slots.Err? ==> log.error == slots.error)
  {
    var taken: seq<Times> := [];
    var next := start;
    ghost var slots := SlotsFrom(Run(clock.taken, sampler.samples, []), clock.world, start, deadline, interval);
    while next < deadline
      invariant slots == SlotsFrom(Run(clock.taken, sampler.samples, taken), clock.world, next, deadline, interval)
      decreases deadline - next
    {
      var times := TakeSlot(clock, sampler, taken, next, interval);
      if times.Err? {
        return Err(times.error);
      }
      taken := taken + [times.value];
      next := next + interval;
    }
    return Ok(taken);
  }

  method FinishObservation(clock: Clock, sampler: Sampler, log: seq<Times>, start: int, deadline: int, interval: int)
    returns (result: Result<Observation, Failure>)
    requires clock.world == sampler.world
    modifies clock, sampler
    ensures result == Finish(Run(old(clock.taken), old(sampler.samples), log), clock.world, start, deadline, interval)
  {
    var begun := clock.Wait(deadline);
    if begun.Err? {
      return Err(begun.error);
    }
    var failure := sampler.Sample(true);
    if failure.Some? {
      return Err(failure.value);
    }
    var ended := clock.Now();
    if ended.None? {
      return Err(InvalidClock);
    }
    if ended.value > deadline + interval {
      return Err(CadenceExceeded);
    }
    var s := sampler.samples;
    if ended.value < deadline || s.fingerprint.None? {
      return Err(WindowTooShort);
    }
    return Ok(Observation(s.fingerprint.value, s.container.value, ended.value - start, s.count,
                          log + [Times(begun.value, ended.value)]));
  }

  /** `observe_deployment_stability` */
  method Observe(world: World, duration: int, interval: int) returns (result: Result<Observation, Failure>)
    ensures result == Observed(world, duration, interval)
  {
    if duration <= 0 || interval <= 0 || interval > duration {
      return Err(InvalidTiming);
    }
    var clock := new Clock(world);
    var sampler := new Sampler(world);
    var started := clock.Now();
    if started.None? {
      return Err(InvalidClock);
    }
    var deadline := started.value + duration;
    var log := TakeSlots(clock, sampler, started.value, deadline, interval);
    if log.Err? {
      return Err(log.error);
    }
    result := FinishObservation(clock, sampler, log.value, started.value, deadline, interval);
  }

  // ----------------------------------------------------------------------- what it guarantees

  /** The probes all answered alike. */
  predicate Consistent(s: Samples, world: World)
  {
    && (s.count > 0 ==> s.fingerprint.Some? && s.container.Some?)
    && (s.count == 0 ==> s.fingerprint.None? && s.container.None?)
    && (forall k :: 0 <= k < s.count ==>
          && world.app(k, false) == s.fingerprint && world.gateway(k)
          && world.nats(k, if k == 0 then None else s.container, false) == s.container)
  }

  predicate OnTime(t: Times, start: int, k: nat, interval: int)
  {
    Point(start, k, interval) <= t.started && t.completed <= Point(start, k + 1, interval)
  }

  predicate InOrder(log: seq<Times>)
  {
    && (forall k :: 0 <= k < |log| ==> log[k].started <= log[k].completed)
    && (forall k :: 1 <= k < |log| ==> log[k - 1].completed <= log[k].started)
  }

  /** The observation is at slot `k`. */
  ghost predicate AtSlot(r: Run, world: World, start: int, k: nat, interval: int)
  {
    && r.taken > 0 && r.samples.count == |r.log| == k && Consistent(r.samples, world)
    && (forall j :: 0 <= j < k ==> OnTime(r.log[j], start, j, interval))
    && (NonDecreasing(world.clock) ==>
          InOrder(r.log) && (k > 0 ==> r.log[k - 1].completed <= world.clock(r.taken - 1)))
  }

  ghost predicate NonDecreasing(clock: nat -> int)
  {
    forall i: nat, j: nat :: i <= j ==> clock(i) <= clock(j)
  }

  lemma WaitedIsLater(world: World, taken: nat, target: int)
    requires taken > 0 && WaitUntil(world, taken, target).now.Ok?
    ensures var waited := WaitUntil(world, taken, target);
      && waited.taken > taken && waited.now.value == world.clock(waited.taken - 1) >= target
      && (NonDecreasing(world.clock) ==> world.clock(taken - 1) <= waited.now.value)
  {
  }

  /** One more probe that answers like those before it. */
  lemma SampledIsConsistent(s: Samples, world: World)
    requires Consistent(s, world) && Sampled(s, world, false).Ok?
    ensures var sampled := Sampled(s, world, false).value; Consistent(sampled, world) && sampled.count == s.count + 1
  {
    var sampled := Sampled(s, world, false).value;
    forall k | 0 <= k < sampled.count
      ensures && world.app(k, false) == sampled.fingerprint && world.gateway(k)
              && world.nats(k, if k == 0 then None else sampled.container, false) == sampled.container
    {
      if k < s.count {
        assert world.app(k, false) == s.fingerprint && world.gateway(k);
      }
    }
  }

  lemma LaterKeepsOrder(log: seq<Times>, t: Times)
    requires InOrder(log) && t.started <= t.completed && (|log| > 0 ==> log[|log| - 1].completed <= t.started)
    ensures InOrder(log + [t])
  {
    var after := log + [t];
    forall k | 1 <= k < |after| ensures after[k - 1].completed <= after[k].started {
      assert after[k - 1] == log[k - 1];
      if k < |log| {
        assert log[k - 1].completed <= log[k].started;
      }
    }
  }

  lemma SlotAdvances(r: Run, world: World, start: int, k: nat, interval: int)
    requires AtSlot(r, world, start, k, interval) && Slot(r, world, Point(start, k, interval), interval).Ok?
    ensures AtSlot(Slot(r, world, Point(start, k, interval), interval).value, world, start, k + 1, interval)
  {
    var next := Point(start, k, interval);
    var waited, after := WaitUntil(world, r.taken, next), Slot(r, world, next, interval).value;
    var times := after.log[k];
    WaitedIsLater(world, r.taken, next);
    SampledIsConsistent(r.samples, world);
    assert after.log == r.log + [times] && after.taken == waited.taken + 1;
    assert times == Times(waited.now.value, world.clock(waited.taken));
    assert Point(start, k + 1, interval) == next + interval;
    assert OnTime(times, start, k, interval);
    if NonDecreasing(world.clock) {
      assert world.clock(waited.taken - 1) <= world.clock(waited.taken);
      LaterKeepsOrder(r.log, times);
    }
  }

  lemma {:induction false} SlotsAdvance(r: Run, world: World, start: int, k: nat, deadline: int, interval: int)
    requires interval > 0 && AtSlot(r, world, start, k, interval) && k <= GridSize(start, deadline, interval)
    requires SlotsFrom(r, world, Point(start, k, interval), deadline, interval).Ok?
    ensures AtSlot(SlotsFrom(r, world, Point(start, k, interval), deadline, interval).value, world, start,
                   GridSize(start, deadline, interval), interval)
    decreases GridSize(start, deadline, interval) - k
  {
    var next := Point(start, k, interval);
    GridSizeMeaning(start, deadline, interval, k);
    if next < deadline {
      SlotAdvances(r, world, start, k, interval);
      SlotsAdvance(Slot(r, world, next, interval).value, world, start, k + 1, deadline, interval);
    }
  }

  /** What a finished observation says of its `n` slots and its end. */
  ghost predicate Witnessed(o: Observation, world: World, start: int, n: nat, duration: int, interval: int)
  {
    && o.samples == |o.log| == n + 1
    && (forall k :: 0 <= k < n ==> OnTime(o.log[k], start, k, interval))
    && start + duration <= o.log[n].started
    && start + duration <= o.log[n].completed <= start + duration + interval
    && duration <= o.elapsed <= duration + interval
    && Consistent(Samples(n, Some(o.fingerprint), Some(o.container)), world)
    && world.app(n, true) == Some(o.fingerprint) && world.gateway(n)
    && world.nats(n, Some(o.container), true) == Some(o.container)
    && (NonDecreasing(world.clock) ==> InOrder(o.log))
  }

  lemma FinishWitnesses(r: Run, world: World, start: int, n: nat, duration: int, interval: int)
    requires n > 0 && AtSlot(r, world, start, n, interval)
    requires Finish(r, world, start, start + duration, interval).Ok?
    ensures Witnessed(Finish(r, world, start, start + duration, interval).value, world, start, n, duration, interval)
  {
    var waited := WaitUntil(world, r.taken, start + duration);
    var o := Finish(r, world, start, start + duration, interval).value;
    WaitedIsLater(world, r.taken, start + duration);
    assert o.log == r.log + [Times(waited.now.value, world.clock(waited.taken))];
    if NonDecreasing(world.clock) {
      assert world.clock(waited.taken - 1) <= world.clock(waited.taken);
      LaterKeepsOrder(r.log, o.log[n]);
    }
  }

  /** A successful observation took one sample in each slot of the window and one at its end, none of them
      early or late, and all of them saw the same application and the same broker container. */
  lemma ObservationMeaning(world: World, duration: int, interval: int)
    requires Observed(world, duration, interval).Ok?
    ensures var start := world.clock(0);
            Witnessed(Observed(world, duration, interval).value, world, start, GridSize(start, start + duration, interval),
                      duration, interval)
  {
    var start := world.clock(0);
    var deadline, initial := start + duration, Run(1, Samples(0, None, None), []);
    assert AtSlot(initial, world, start, 0, interval);
    assert SlotsFrom(initial, world, Point(start, 0, interval), deadline, interval).Ok?;
    SlotsAdvance(initial, world, start, 0, deadline, interval);
    GridSizeMeaning(start, deadline, interval, 0);
    FinishWitnesses(SlotsFrom(initial, world, start, deadline, interval).value, world, start,
                    GridSize(start, deadline, interval), duration, interval);
  }

  /** That is the duration divided by the interval, rounded up, plus one. */
  lemma SampleCountIsCeiling(world: World, duration: int, interval: int)
    requires Observed(world, duration, interval).Ok?
    ensures var n := Observed(world, duration, interval).value.samples - 1;
            (n - 1) * interval < duration <= n * interval
  {
    ObservationMeaning(world, duration, interval);
    GridSizeIsCeiling(world.clock(0), world.clock(0) + duration, interval);
    GridSizeMeaning(world.clock(0), world.clock(0) + duration, interval, 0);
  }
}
