/** Planning and applying a stream migration on a broker that refuses overlapping subjects. */
module StreamMigration {
  import opened Json

  datatype StreamConfig = StreamConfig(
    subjects: set<string>, retention: string, storage: string, discard: string, maxAge: real, maxBytes: int,
    maxMsgs: int, maxMsgSize: int, numReplicas: int, duplicateWindow: real, denyPurge: bool)

  datatype StreamSpec = StreamSpec(
    name: string, topics: set<string>, maxAge: real, maxBytes: int, maxMsgs: int, maxMsgSize: int, storage: string,
    retention: string, numReplicas: int, duplicateWindow: real, denyPurge: bool)

  datatype Action = Add | Update | Noop

  type Streams = map<string, StreamConfig>

  type Plan = map<string, Action>

  const EVENTS := "AATS_EVENTS"
  const MARKET := "AATS_EVENTS_MARKET"

  /** Whether a message could match both sets of subjects. */
  type Overlap = (set<string>, set<string>) -> bool

  predicate Disjoint(a: set<string>, b: set<string>, overlap: Overlap)
  {
    !overlap(a, b) && !overlap(b, a)
  }

  predicate NoOverlap(streams: Streams, overlap: Overlap)
  {
    forall a, b :: a in streams && b in streams && a != b ==> Disjoint(streams[a].subjects, streams[b].subjects, overlap)
  }

  predicate Admits(streams: Streams, name: string, subjects: set<string>, overlap: Overlap)
  {
    forall b :: b in streams && b != name ==> Disjoint(subjects, streams[b].subjects, overlap)
  }

  function SubjectsOf(spec: StreamSpec, prefix: string): set<string>
  {
    set t | t in spec.topics :: prefix + t
  }

  /** `StreamSpec.to_nats_stream_config` */
  function TargetConfig(spec: StreamSpec, prefix: string): StreamConfig
  {
    StreamConfig(SubjectsOf(spec, prefix), spec.retention, spec.storage, "old", spec.maxAge, spec.maxBytes, spec.maxMsgs,
                 spec.maxMsgSize, spec.numReplicas, spec.duplicateWindow, spec.denyPurge)
  }

  /** The broker's streams; a change that would make two streams share a subject is refused. */
  class Broker {
    const overlap: Overlap
    var streams: Streams

    constructor (overlap: Overlap, streams: Streams)
      ensures this.overlap == overlap && this.streams == streams
    {
      this.overlap := overlap;
      this.streams := streams;
    }

    method UpdateStream(name: string, config: StreamConfig) returns (ok: bool)
      modifies this
      ensures ok <==> name in old(streams) && Admits(old(streams), name, config.subjects, overlap)
      ensures streams == if ok then old(streams)[name := config] else old(streams)
    {
      ok := name in streams && Admits(streams, name, config.subjects, overlap);
      if ok {
        streams := streams[name := config];
      }
    }

    method AddStream(name: string, config: StreamConfig) returns (ok: bool)
      modifies this
      ensures ok <==> name !in old(streams) && Admits(old(streams), name, config.subjects, overlap)
      ensures streams == if ok then old(streams)[name := config] else old(streams)
    {
      ok := name !in streams && Admits(streams, name, config.subjects, overlap);
      if ok {
        streams := streams[name := config];
      }
    }
  }

  // ----------------------------------------------------------------------------- planning

  datatype StreamSnapshot = Absent | Present(subjects: set<string>, maxAge: real, maxBytes: int, maxMsgs: int, maxMsgSize: int)

  type Snapshots = map<string, StreamSnapshot>

  function Snapshot(c: StreamConfig): StreamSnapshot
  {
    Present(c.subjects, c.maxAge, c.maxBytes, c.maxMsgs, c.maxMsgSize)
  }

  function SnapshotOf(streams: Streams, name: string): StreamSnapshot
  {
    if name in streams then Snapshot(streams[name]) else Absent
  }

  function Names(specs: seq<StreamSpec>): set<string>
  {
    set s | s in specs :: s.name
  }

  function SnapshotAll(streams: Streams, specs: seq<StreamSpec>): Snapshots
  {
    map n | n in Names(specs) :: SnapshotOf(streams, n)
  }

  datatype DriftField = Subjects | MaxAge | MaxBytes | MaxMsgs | MaxMsgSize | NumReplicas | DuplicateWindow | DenyPurge

  function DriftIf(drifted: bool, field: DriftField): set<DriftField>
  {
    if drifted then {field} else {}
  }

  /** Very large durations are taken for nanoseconds. */
  function Seconds(duration: real): real
  {
    if duration > 10_000_000_000.0 then duration / 1_000_000_000.0 else duration
  }

  /** `_compute_stream_config_drift` on a snapshot: the snapshot carries neither replicas, duplicate window nor
      purge protection, so fixed values stand in for them, and retention is not compared at all. */
  function Drift(s: StreamSnapshot, spec: StreamSpec, prefix: string): set<DriftField>
    requires s.Present?
  {
    DriftIf(s.subjects != SubjectsOf(spec, prefix), DriftField.Subjects)
    + DriftIf(Seconds(s.maxAge) != spec.maxAge, MaxAge)
    + DriftIf(s.maxBytes != spec.maxBytes, MaxBytes)
    + DriftIf(s.maxMsgs != spec.maxMsgs, MaxMsgs)
    + DriftIf(s.maxMsgSize != spec.maxMsgSize, MaxMsgSize)
    + DriftIf(1 != spec.numReplicas, NumReplicas)
    + DriftIf(Seconds(120.0) != spec.duplicateWindow, DuplicateWindow)
    + DriftIf(false != spec.denyPurge, DenyPurge)
  }

  function ActionFor(s: StreamSnapshot, spec: StreamSpec, prefix: string): Action
  {
    if s.Absent? then Add else if Drift(s, spec, prefix) == {} then Noop else Update
  }

  /** A stream name given twice keeps the last action. */
  function PlanOf(snapshots: Snapshots, specs: seq<StreamSpec>, prefix: string): Plan
  {
    if specs == [] then map[] else
      var spec := specs[|specs| - 1];
      PlanOf(snapshots, specs[..|specs| - 1], prefix)
      [spec.name := ActionFor(if spec.name in snapshots then snapshots[spec.name] else Absent, spec, prefix)]
  }

  predicate Exists(snapshots: Snapshots, name: string)
  {
    name in snapshots && snapshots[name].Present?
  }

  /** `compute_migration_plan` without `recreate`; none when the market stream stands without the event stream. */
  method ComputePlan(snapshots: Snapshots, specs: seq<StreamSpec>, prefix: string) returns (plan: Option<Plan>)
    ensures plan.None? <==> Exists(snapshots, MARKET) && !Exists(snapshots, EVENTS)
    ensures plan.Some? ==> plan.value == PlanOf(snapshots, specs, prefix)
  {
    if Exists(snapshots, MARKET) && !Exists(snapshots, EVENTS) {
      return None;
    }
    var actions: Plan := map[];
    for i := 0 to |specs|
      invariant actions == PlanOf(snapshots, specs[..i], prefix)
    {
      assert specs[..i + 1][..i] == specs[..i];
      var spec := specs[i];
      if !Exists(snapshots, spec.name) {
        actions := actions[spec.name := Add];
        continue;
      }
      var drift := Drift(snapshots[spec.name], spec, prefix);
      actions := actions[spec.name := if drift == {} then Noop else Update];
    }
    assert specs[..|specs|] == specs;
    return Some(actions);
  }

  // ----------------------------------------------------------------------------- applying

  datatype Outcome = Outcome(ok: bool, streams: Streams)

  function Planned(plan: Plan, name: string): Action
  {
    if name in plan then plan[name] else Noop
  }

  function PassOne(before: Outcome, spec: StreamSpec, plan: Plan, kind: Action, prefix: string, overlap: Overlap): Outcome
  {
    if !before.ok || Planned(plan, spec.name) != kind then before
    else if (kind == Add) != (spec.name !in before.streams)
            || !Admits(before.streams, spec.name, SubjectsOf(spec, prefix), overlap) then before.(ok := false)
    else Outcome(true, before.streams[spec.name := TargetConfig(spec, prefix)])
  }

  /** The broker after one pass that performs only the actions of one kind and stops at a refusal. */
  function RunPass(streams: Streams, specs: seq<StreamSpec>, plan: Plan, kind: Action, prefix: string, overlap: Overlap)
    : Outcome
  {
    if specs == [] then Outcome(true, streams) else
      var before := RunPass(streams, specs[..|specs| - 1], plan, kind, prefix, overlap);
      PassOne(before, specs[|specs| - 1], plan, kind, prefix, overlap)
  }

  function RunPlan(streams: Streams, specs: seq<StreamSpec>, plan: Plan, prefix: string, overlap: Overlap): Outcome
  {
    var updated := RunPass(streams, specs, plan, Update, prefix, overlap);
    if !updated.ok then updated else RunPass(updated.streams, specs, plan, Add, prefix, overlap)
  }

  lemma {:induction false} PassFailsFrom(streams: Streams, specs: seq<StreamSpec>, n: nat, plan: Plan, kind: Action,
                                         prefix: string, overlap: Overlap)
    requires n <= |specs| && !RunPass(streams, specs[..n], plan, kind, prefix, overlap).ok
    ensures RunPass(streams, specs, plan, kind, prefix, overlap) == RunPass(streams, specs[..n], plan, kind, prefix, overlap)
    decreases |specs|
  {
    if n == |specs| {
      assert specs[..n] == specs;
    } else {
      assert specs[..|specs| - 1][..n] == specs[..n];
      PassFailsFrom(streams, specs[..|specs| - 1], n, plan, kind, prefix, overlap);
    }
  }

  /** `apply_migration_plan`: all updates first, so that subjects are released before they are claimed. */
  method ApplyPlan(broker: Broker, plan: Plan, specs: seq<StreamSpec>, prefix: string) returns (ok: bool)
    modifies broker
    ensures Outcome(ok, broker.streams) == RunPlan(old(broker.streams), specs, plan, prefix, broker.overlap)
  {
    ok := ApplyUpdates(broker, plan, specs, prefix);
    if ok {
      ok := ApplyAdditions(broker, plan, specs, prefix);
    }
  }

  method ApplyUpdates(broker: Broker, plan: Plan, specs: seq<StreamSpec>, prefix: string) returns (ok: bool)
    modifies broker
    ensures Outcome(ok, broker.streams) == RunPass(old(broker.streams), specs, plan, Update, prefix, broker.overlap)
  {
    for i := 0 to |specs|
      invariant RunPass(old(broker.streams), specs[..i], plan, Update, prefix, broker.overlap) == Outcome(true, broker.streams)
    {
      assert specs[..i + 1][..i] == specs[..i];
      if Planned(plan, specs[i].name) == Update {
        ok := broker.UpdateStream(specs[i].name, TargetConfig(specs[i], prefix));
        if !ok {
          PassFailsFrom(old(broker.streams), specs, i + 1, plan, Update, prefix, broker.overlap);
          return;
        }
      }
    }
    assert specs[..|specs|] == specs;
    return true;
  }

  method ApplyAdditions(broker: Broker, plan: Plan, specs: seq<StreamSpec>, prefix: string) returns (ok: bool)
    modifies broker
    ensures Outcome(ok, broker.streams) == RunPass(old(broker.streams), specs, plan, Add, prefix, broker.overlap)
  {
    for i := 0 to |specs|
      invariant RunPass(old(broker.streams), specs[..i], plan, Add, prefix, broker.overlap) == Outcome(true, broker.streams)
    {
      assert specs[..i + 1][..i] == specs[..i];
      if Planned(plan, specs[i].name) == Add {
        ok := broker.AddStream(specs[i].name, TargetConfig(specs[i], prefix));
        if !ok {
          PassFailsFrom(old(broker.streams), specs, i + 1, plan, Add, prefix, broker.overlap);
          return;
        }
      }
    }
    assert specs[..|specs|] == specs;
    return true;
  }

  lemma AdmittedKeepsNoOverlap(streams: Streams, name: string, config: StreamConfig, overlap: Overlap)
    requires NoOverlap(streams, overlap) && Admits(streams, name, config.subjects, overlap)
    ensures NoOverlap(streams[name := config], overlap)
  {
  }

  /** Whatever plan is applied and wherever it stops, no two streams ever share a subject. */
  lemma {:induction false} PassKeepsNoOverlap(streams: Streams, specs: seq<StreamSpec>, plan: Plan, kind: Action,
                                              prefix: string, overlap: Overlap)
    requires NoOverlap(streams, overlap)
    ensures NoOverlap(RunPass(streams, specs, plan, kind, prefix, overlap).streams, overlap)
  {
    if specs != [] {
      var init, spec := specs[..|specs| - 1], specs[|specs| - 1];
      PassKeepsNoOverlap(streams, init, plan, kind, prefix, overlap);
      var before := RunPass(streams, init, plan, kind, prefix, overlap).streams;
      if Admits(before, spec.name, SubjectsOf(spec, prefix), overlap) {
        AdmittedKeepsNoOverlap(before, spec.name, TargetConfig(spec, prefix), overlap);
      }
    }
  }

  // ------------------------------------------------------------------------- what it achieves

  predicate DistinctNames(specs: seq<StreamSpec>)
  {
    forall i, j :: 0 <= i < j < |specs| ==> specs[i].name != specs[j].name
  }

  type TargetIndex = map<string, StreamSpec>

  function ByName(specs: seq<StreamSpec>): TargetIndex
  {
    if specs == [] then map[] else ByName(specs[..|specs| - 1])[specs[|specs| - 1].name := specs[|specs| - 1]]
  }

  lemma NamesOfExtended(init: seq<StreamSpec>, last: StreamSpec)
    ensures Names(init + [last]) == Names(init) + {last.name}
  {
  }

  lemma {:induction false} ByNameKeys(specs: seq<StreamSpec>)
    ensures ByName(specs).Keys == Names(specs)
  {
    if specs != [] {
      var init, last := specs[..|specs| - 1], specs[|specs| - 1];
      ByNameKeys(init);
      assert specs == init + [last];
      NamesOfExtended(init, last);
    }
  }

  lemma {:induction false} ByNameFinds(specs: seq<StreamSpec>)
    requires DistinctNames(specs)
    ensures forall i :: 0 <= i < |specs| ==> specs[i].name in ByName(specs) && ByName(specs)[specs[i].name] == specs[i]
  {
    if specs != [] {
      var init := specs[..|specs| - 1];
      ByNameFinds(init);
      assert forall i :: 0 <= i < |init| ==> init[i] == specs[i];
    }
  }

  predicate DisjointTargets(targets: TargetIndex, prefix: string, overlap: Overlap)
  {
    forall a, b :: a in targets && b in targets && a != b ==>
      Disjoint(SubjectsOf(targets[a], prefix), SubjectsOf(targets[b], prefix), overlap)
  }

  /** The targets, as the platform declares them, are distinct streams with disjoint subjects. */
  predicate Targets(specs: seq<StreamSpec>, prefix: string, overlap: Overlap)
  {
    DistinctNames(specs) && DisjointTargets(ByName(specs), prefix, overlap)
  }

  function PlanFor(streams: Streams, specs: seq<StreamSpec>, prefix: string): Plan
  {
    PlanOf(SnapshotAll(streams, specs), specs, prefix)
  }

  lemma {:induction false} PlanOfName(snapshots: Snapshots, specs: seq<StreamSpec>, prefix: string, i: nat)
    requires i < |specs| && Names(specs) <= snapshots.Keys && DistinctNames(specs)
    ensures Planned(PlanOf(snapshots, specs, prefix), specs[i].name)
            == ActionFor(snapshots[specs[i].name], specs[i], prefix)
  {
    var last := |specs| - 1;
    if i < last {
      assert specs[..last][i] == specs[i];
      assert Names(specs[..last]) <= Names(specs);
      PlanOfName(snapshots, specs[..last], prefix, i);
    }
  }

  lemma PlanForName(streams: Streams, specs: seq<StreamSpec>, prefix: string, i: nat, overlap: Overlap)
    requires i < |specs| && Targets(specs, prefix, overlap)
    ensures Planned(PlanFor(streams, specs, prefix), specs[i].name)
            == ActionFor(SnapshotOf(streams, specs[i].name), specs[i], prefix)
  {
    assert specs[i].name in Names(specs);
    PlanOfName(SnapshotAll(streams, specs), specs, prefix, i);
  }

  function NewConfig(current: StreamConfig, spec: StreamSpec, prefix: string): StreamConfig
  {
    if ActionFor(Snapshot(current), spec, prefix) == Noop then current else TargetConfig(spec, prefix)
  }

  lemma NewConfigHasTargetSubjects(current: StreamConfig, spec: StreamSpec, prefix: string)
    ensures NewConfig(current, spec, prefix).subjects == SubjectsOf(spec, prefix)
  {
    assert Snapshot(current).subjects != SubjectsOf(spec, prefix) ==>
        DriftField.Subjects in Drift(Snapshot(current), spec, prefix);
  }

  /** The targets in `done` that existed have their new configuration; nothing else changed. */
  predicate UpdatedBy(before: Streams, after: Streams, targets: TargetIndex, done: set<string>, prefix: string)
  {
    && after.Keys == before.Keys
    && (forall n :: n in before ==>
          after[n] == if n in done && n in targets then NewConfig(before[n], targets[n], prefix) else before[n])
  }

  /** No stream still holding its old subjects holds any subject of this target. */
  predicate Unclaimed(streams: Streams, spec: StreamSpec, done: set<string>, prefix: string, overlap: Overlap)
  {
    forall b :: b in streams && b != spec.name && b !in done ==>
      Disjoint(SubjectsOf(spec, prefix), streams[b].subjects, overlap)
  }

  predicate MayUpdate(streams: Streams, specs: seq<StreamSpec>, i: nat, prefix: string, overlap: Overlap)
    requires i < |specs|
  {
    ActionFor(SnapshotOf(streams, specs[i].name), specs[i], prefix) == Update ==>
      Unclaimed(streams, specs[i], Names(specs[..i]), prefix, overlap)
  }

  predicate MayUpdateFirst(streams: Streams, specs: seq<StreamSpec>, k: nat, prefix: string, overlap: Overlap)
    requires k <= |specs|
  {
    k == 0 || (MayUpdateFirst(streams, specs, k - 1, prefix, overlap) && MayUpdate(streams, specs, k - 1, prefix, overlap))
  }

  lemma {:induction false} MayUpdateFirstAll(streams: Streams, specs: seq<StreamSpec>, k: nat, prefix: string,
                                             overlap: Overlap)
    requires k <= |specs|
    ensures MayUpdateFirst(streams, specs, k, prefix, overlap)
       <==> forall i :: 0 <= i < k ==> MayUpdate(streams, specs, i, prefix, overlap)
  {
    if k > 0 {
      MayUpdateFirstAll(streams, specs, k - 1, prefix, overlap);
    }
  }

  predicate MayAddFirst(streams: Streams, specs: seq<StreamSpec>, k: nat, prefix: string, overlap: Overlap)
    requires k <= |specs|
  {
    k == 0 || (MayAddFirst(streams, specs, k - 1, prefix, overlap) && MayAdd(streams, specs, k - 1, prefix, overlap))
  }

  lemma {:induction false} MayAddFirstAll(streams: Streams, specs: seq<StreamSpec>, k: nat, prefix: string, overlap: Overlap)
    requires k <= |specs|
    ensures MayAddFirst(streams, specs, k, prefix, overlap)
       <==> forall i :: 0 <= i < k ==> MayAdd(streams, specs, i, prefix, overlap)
  {
    if k > 0 {
      MayAddFirstAll(streams, specs, k - 1, prefix, overlap);
    }
  }

  predicate MayAdd(streams: Streams, specs: seq<StreamSpec>, i: nat, prefix: string, overlap: Overlap)
    requires i < |specs|
  {
    specs[i].name !in streams ==> Unclaimed(streams, specs[i], Names(specs), prefix, overlap)
  }

  lemma UpdateStep(streams: Streams, current: Streams, targets: TargetIndex, done: set<string>, spec: StreamSpec,
                   prefix: string, overlap: Overlap)
    requires spec.name in targets && targets[spec.name] == spec && spec.name !in done && done <= targets.Keys
    requires DisjointTargets(targets, prefix, overlap) && UpdatedBy(streams, current, targets, done, prefix)
    ensures Admits(current, spec.name, SubjectsOf(spec, prefix), overlap) <==> Unclaimed(streams, spec, done, prefix, overlap)
  {
    forall b | b in streams && b in done
      ensures current[b].subjects == SubjectsOf(targets[b], prefix)
    {
      NewConfigHasTargetSubjects(streams[b], targets[b], prefix);
    }
  }

  lemma UpdateGrows(streams: Streams, current: Streams, targets: TargetIndex, done: set<string>, spec: StreamSpec,
                    prefix: string)
    requires spec.name in targets && targets[spec.name] == spec && spec.name !in done
    requires UpdatedBy(streams, current, targets, done, prefix)
    ensures var action, grown := ActionFor(SnapshotOf(streams, spec.name), spec, prefix), done + {spec.name};
      && (action != Update ==> UpdatedBy(streams, current, targets, grown, prefix))
      && (action == Update ==> spec.name in current)
      && (action == Update ==> UpdatedBy(streams, current[spec.name := TargetConfig(spec, prefix)], targets, grown, prefix))
  {
  }

  lemma NameIsNew(specs: seq<StreamSpec>, k: nat)
    requires k < |specs| && DistinctNames(specs)
    ensures specs[k].name !in Names(specs[..k])
  {
    assert forall s :: s in specs[..k] ==> exists i :: 0 <= i < k && specs[i] == s;
  }

  lemma PrefixNames(specs: seq<StreamSpec>, k: nat)
    requires k < |specs|
    ensures Names(specs[..k + 1]) == Names(specs[..k]) + {specs[k].name} && Names(specs[..k]) <= Names(specs)
  {
    assert specs[..k + 1] == specs[..k] + [specs[k]];
    NamesOfExtended(specs[..k], specs[k]);
  }

  lemma NextTarget(specs: seq<StreamSpec>, k: nat)
    requires k < |specs| && DistinctNames(specs)
    ensures Names(specs[..k + 1]) == Names(specs[..k]) + {specs[k].name}
    ensures specs[k].name !in Names(specs[..k]) && Names(specs[..k]) <= ByName(specs).Keys == Names(specs)
    ensures specs[k].name in ByName(specs) && ByName(specs)[specs[k].name] == specs[k]
  {
    NameIsNew(specs, k);
    PrefixNames(specs, k);
    ByNameFinds(specs);
    ByNameKeys(specs);
  }

  lemma UpdateOne(streams: Streams, before: Outcome, specs: seq<StreamSpec>, plan: Plan, k: nat, prefix: string,
                  overlap: Overlap)
    requires k < |specs| && Targets(specs, prefix, overlap) && plan == PlanFor(streams, specs, prefix)
    requires before.ok ==> UpdatedBy(streams, before.streams, ByName(specs), Names(specs[..k]), prefix)
    ensures var after := PassOne(before, specs[k], plan, Update, prefix, overlap);
      && (after.ok <==> before.ok && MayUpdate(streams, specs, k, prefix, overlap))
      && (after.ok ==> UpdatedBy(streams, after.streams, ByName(specs), Names(specs[..k + 1]), prefix))
  {
    NextTarget(specs, k);
    PlanForName(streams, specs, prefix, k, overlap);
    if before.ok {
      UpdateStep(streams, before.streams, ByName(specs), Names(specs[..k]), specs[k], prefix, overlap);
      UpdateGrows(streams, before.streams, ByName(specs), Names(specs[..k]), specs[k], prefix);
    }
  }

  lemma {:induction false} UpdatePass(streams: Streams, specs: seq<StreamSpec>, plan: Plan, k: nat, prefix: string,
                                      overlap: Overlap)
    requires k <= |specs| && Targets(specs, prefix, overlap) && plan == PlanFor(streams, specs, prefix)
    ensures var r := RunPass(streams, specs[..k], plan, Update, prefix, overlap);
      && (r.ok <==> MayUpdateFirst(streams, specs, k, prefix, overlap))
      && (r.ok ==> UpdatedBy(streams, r.streams, ByName(specs), Names(specs[..k]), prefix))
  {
    if k == 0 {
      assert Names(specs[..0]) == {};
    } else {
      assert specs[..k][..k - 1] == specs[..k - 1];
      UpdatePass(streams, specs, plan, k - 1, prefix, overlap);
      UpdateOne(streams, RunPass(streams, specs[..k - 1], plan, Update, prefix, overlap), specs, plan, k - 1, prefix, overlap);
    }
  }

  /** The targets in `done` that were missing exist as declared; nothing else changed. */
  predicate AddedBy(before: Streams, after: Streams, targets: TargetIndex, done: set<string>, prefix: string)
    requires done <= targets.Keys
  {
    && after.Keys == before.Keys + done
    && (forall n :: n in after ==> after[n] == if n in before then before[n] else TargetConfig(targets[n], prefix))
  }

  /** After the updates every existing target has its target subjects, so only other streams can clash. */
  lemma AddStep(streams: Streams, updated: Streams, current: Streams, targets: TargetIndex, done: set<string>,
                spec: StreamSpec, prefix: string, overlap: Overlap)
    requires spec.name in targets && targets[spec.name] == spec && spec.name !in done && done <= targets.Keys
    requires DisjointTargets(targets, prefix, overlap) && UpdatedBy(streams, updated, targets, targets.Keys, prefix)
    requires AddedBy(updated, current, targets, done, prefix)
    ensures Admits(current, spec.name, SubjectsOf(spec, prefix), overlap)
       <==> Unclaimed(streams, spec, targets.Keys, prefix, overlap)
  {
    forall b | b in current && b in targets
      ensures current[b].subjects == SubjectsOf(targets[b], prefix)
    {
      if b in streams {
        NewConfigHasTargetSubjects(streams[b], targets[b], prefix);
      }
    }
  }

  lemma AddGrows(streams: Streams, updated: Streams, current: Streams, targets: TargetIndex, done: set<string>,
                 spec: StreamSpec, prefix: string)
    requires spec.name in targets && targets[spec.name] == spec && spec.name !in done && done <= targets.Keys
    requires updated.Keys == streams.Keys && AddedBy(updated, current, targets, done, prefix)
    ensures var missing, grown := spec.name !in streams, done + {spec.name};
      && (!missing ==> AddedBy(updated, current, targets, grown, prefix))
      && (missing ==> spec.name !in current)
      && (missing ==> AddedBy(updated, current[spec.name := TargetConfig(spec, prefix)], targets, grown, prefix))
  {
  }

  lemma AddOne(streams: Streams, updated: Streams, before: Outcome, specs: seq<StreamSpec>, plan: Plan, k: nat,
               prefix: string, overlap: Overlap)
    requires k < |specs| && Targets(specs, prefix, overlap) && plan == PlanFor(streams, specs, prefix)
    requires ByName(specs).Keys == Names(specs) && Names(specs[..k]) <= Names(specs) && Names(specs[..k + 1]) <= Names(specs)
    requires UpdatedBy(streams, updated, ByName(specs), Names(specs), prefix)
    requires before.ok ==> AddedBy(updated, before.streams, ByName(specs), Names(specs[..k]), prefix)
    ensures var after := PassOne(before, specs[k], plan, Add, prefix, overlap);
      && (after.ok <==> before.ok && MayAdd(streams, specs, k, prefix, overlap))
      && (after.ok ==> AddedBy(updated, after.streams, ByName(specs), Names(specs[..k + 1]), prefix))
  {
    NextTarget(specs, k);
    PlanForName(streams, specs, prefix, k, overlap);
    if before.ok {
      AddStep(streams, updated, before.streams, ByName(specs), Names(specs[..k]), specs[k], prefix, overlap);
      AddGrows(streams, updated, before.streams, ByName(specs), Names(specs[..k]), specs[k], prefix);
    }
  }

  lemma {:induction false} AddPass(streams: Streams, updated: Streams, specs: seq<StreamSpec>, plan: Plan, k: nat,
                                   prefix: string, overlap: Overlap)
    requires k <= |specs| && Targets(specs, prefix, overlap) && plan == PlanFor(streams, specs, prefix)
    requires ByName(specs).Keys == Names(specs) && forall i :: 0 <= i <= |specs| ==> Names(specs[..i]) <= Names(specs)
    requires UpdatedBy(streams, updated, ByName(specs), Names(specs), prefix)
    ensures var r := RunPass(updated, specs[..k], plan, Add, prefix, overlap);
      && (r.ok <==> MayAddFirst(streams, specs, k, prefix, overlap))
      && (r.ok ==> AddedBy(updated, r.streams, ByName(specs), Names(specs[..k]), prefix))
  {
    if k > 0 {
      assert specs[..k][..k - 1] == specs[..k - 1];
      AddPass(streams, updated, specs, plan, k - 1, prefix, overlap);
      var before := RunPass(updated, specs[..k - 1], plan, Add, prefix, overlap);
      AddOne(streams, updated, before, specs, plan, k - 1, prefix, overlap);
    }
  }

  predicate MayMigrate(streams: Streams, specs: seq<StreamSpec>, prefix: string, overlap: Overlap)
  {
    forall i :: 0 <= i < |specs| ==>
      MayUpdate(streams, specs, i, prefix, overlap) && MayAdd(streams, specs, i, prefix, overlap)
  }

  /** What every target is after a migration that was carried out. */
  predicate Migrated(before: Streams, after: Streams, specs: seq<StreamSpec>, prefix: string)
  {
    && after.Keys == before.Keys + Names(specs)
    && (forall n :: n in before && n !in Names(specs) ==> after[n] == before[n])
    && (forall i :: 0 <= i < |specs| ==>
          after[specs[i].name] == if specs[i].name in before then NewConfig(before[specs[i].name], specs[i], prefix)
                                  else TargetConfig(specs[i], prefix))
  }

  /** Migration of disjoint targets succeeds exactly when no target claims a subject that another existing
      stream still holds at that moment: for an update, streams not yet brought to their target; for an
      addition, only streams that are not targets at all. */
  lemma MigrationSucceedsIff(streams: Streams, specs: seq<StreamSpec>, prefix: string, overlap: Overlap)
    requires Targets(specs, prefix, overlap)
    ensures var r := RunPlan(streams, specs, PlanFor(streams, specs, prefix), prefix, overlap);
            (r.ok <==> MayMigrate(streams, specs, prefix, overlap)) && (r.ok ==> Migrated(streams, r.streams, specs, prefix))
  {
    var plan := PlanFor(streams, specs, prefix);
    assert specs[..|specs|] == specs;
    ByNameFinds(specs);
    ByNameKeys(specs);
    UpdatePass(streams, specs, plan, |specs|, prefix, overlap);
    MayUpdateFirstAll(streams, specs, |specs|, prefix, overlap);
    var updated := RunPass(streams, specs, plan, Update, prefix, overlap);
    if updated.ok {
      AddPass(streams, updated.streams, specs, plan, |specs|, prefix, overlap);
      MayAddFirstAll(streams, specs, |specs|, prefix, overlap);
      var added := RunPass(updated.streams, specs, plan, Add, prefix, overlap);
      if added.ok {
        PassesMigrate(streams, updated.streams, added.streams, specs, prefix);
      }
    }
  }

  lemma PassesMigrate(streams: Streams, updated: Streams, added: Streams, specs: seq<StreamSpec>, prefix: string)
    requires DistinctNames(specs) && ByName(specs).Keys == Names(specs)
    requires UpdatedBy(streams, updated, ByName(specs), Names(specs), prefix)
    requires AddedBy(updated, added, ByName(specs), Names(specs), prefix)
    ensures Migrated(streams, added, specs, prefix)
  {
    ByNameFinds(specs);
    ByNameKeys(specs);
    forall i | 0 <= i < |specs|
      ensures added[specs[i].name] == if specs[i].name in streams then NewConfig(streams[specs[i].name], specs[i], prefix)
                                      else TargetConfig(specs[i], prefix)
    {
      assert specs[i].name in added;
    }
  }

  /** A target is met up to what the planner compares; the rest it takes on trust for a stream it leaves alone. */
  predicate MeetsTarget(c: StreamConfig, spec: StreamSpec, prefix: string)
  {
    && c.subjects == SubjectsOf(spec, prefix) && spec.maxAge in {c.maxAge, Seconds(c.maxAge)}
    && c.maxBytes == spec.maxBytes && c.maxMsgs == spec.maxMsgs && c.maxMsgSize == spec.maxMsgSize
  }

  /** The planner sees this target as met once the broker has it. */
  predicate Settles(spec: StreamSpec)
  {
    spec.numReplicas == 1 && spec.duplicateWindow == 120.0 && !spec.denyPurge && spec.maxAge <= 10_000_000_000.0
  }

  lemma SettlesIff(spec: StreamSpec, prefix: string)
    ensures ActionFor(Snapshot(TargetConfig(spec, prefix)), spec, prefix) == Noop <==> Settles(spec)
  {
    var s := Snapshot(TargetConfig(spec, prefix));
    NoopIff(s, spec, prefix);
  }

  lemma NoopIff(s: StreamSnapshot, spec: StreamSpec, prefix: string)
    requires s.Present?
    ensures ActionFor(s, spec, prefix) == Noop
       <==> && s.subjects == SubjectsOf(spec, prefix) && Seconds(s.maxAge) == spec.maxAge
            && s.maxBytes == spec.maxBytes && s.maxMsgs == spec.maxMsgs && s.maxMsgSize == spec.maxMsgSize
            && spec.numReplicas == 1 && spec.duplicateWindow == 120.0 && !spec.denyPurge
  {
    var d := Drift(s, spec, prefix);
    assert d == {} <==>
        !(DriftField.Subjects in d) && !(MaxAge in d) && !(MaxBytes in d) && !(MaxMsgs in d) && !(MaxMsgSize in d)
        && !(NumReplicas in d) && !(DuplicateWindow in d) && !(DenyPurge in d);
  }

  /** After a successful migration every target is met on everything the planner compares. */
  lemma MigratedMeetsTargets(before: Streams, after: Streams, specs: seq<StreamSpec>, prefix: string, i: nat)
    requires Migrated(before, after, specs, prefix) && i < |specs|
    ensures MeetsTarget(after[specs[i].name], specs[i], prefix)
    ensures after[specs[i].name] != TargetConfig(specs[i], prefix) ==>
              specs[i].name in before && after[specs[i].name] == before[specs[i].name]
  {
    var name := specs[i].name;
    if name in before {
      NoopIff(Snapshot(before[name]), specs[i], prefix);
    }
  }

  /** Planning again finds nothing to do exactly when every target was already met or settles: the planner
      does not read replicas, duplicate window and purge protection from the broker, and takes a maximum age
      beyond its threshold for nanoseconds. */
  lemma ReplanIsNoopIff(before: Streams, after: Streams, specs: seq<StreamSpec>, prefix: string, overlap: Overlap)
    requires Targets(specs, prefix, overlap) && Migrated(before, after, specs, prefix)
    ensures (forall i :: 0 <= i < |specs| ==> Planned(PlanFor(after, specs, prefix), specs[i].name) == Noop)
       <==> forall i :: 0 <= i < |specs| ==>
              Planned(PlanFor(before, specs, prefix), specs[i].name) == Noop || Settles(specs[i])
  {
    forall i | 0 <= i < |specs|
      ensures Planned(PlanFor(after, specs, prefix), specs[i].name) == Noop
         <==> Planned(PlanFor(before, specs, prefix), specs[i].name) == Noop || Settles(specs[i])
    {
      PlanForName(before, specs, prefix, i, overlap);
      PlanForName(after, specs, prefix, i, overlap);
      SettlesIff(specs[i], prefix);
      assert specs[i].name in Names(specs);
    }
  }

  /** Adding first would not do: as long as an existing stream still holds a subject of a missing one, the
      addition is refused. */
  lemma AdditionsMustWait(streams: Streams, specs: seq<StreamSpec>, prefix: string, overlap: Overlap, i: nat, b: string)
    requires Targets(specs, prefix, overlap) && i < |specs| && specs[i].name !in streams
    requires b in streams && !Disjoint(SubjectsOf(specs[i], prefix), streams[b].subjects, overlap)
    ensures !RunPass(streams, specs, PlanFor(streams, specs, prefix), Add, prefix, overlap).ok
  {
    var plan := PlanFor(streams, specs, prefix);
    PlanForName(streams, specs, prefix, i, overlap);
    assert specs[..i + 1][..i] == specs[..i];
    AdditionsKeep(streams, specs[..i], plan, prefix, overlap);
    AdditionRefused(RunPass(streams, specs[..i], plan, Add, prefix, overlap), specs[i], plan, prefix, overlap, b);
    PassFailsFrom(streams, specs, i + 1, plan, Add, prefix, overlap);
  }

  lemma AdditionRefused(before: Outcome, spec: StreamSpec, plan: Plan, prefix: string, overlap: Overlap, b: string)
    requires Planned(plan, spec.name) == Add && b in before.streams && b != spec.name
    requires !Disjoint(SubjectsOf(spec, prefix), before.streams[b].subjects, overlap)
    ensures !PassOne(before, spec, plan, Add, prefix, overlap).ok
  {
  }

  lemma {:induction false} AdditionsKeep(streams: Streams, specs: seq<StreamSpec>, plan: Plan, prefix: string,
                                         overlap: Overlap)
    ensures var r := RunPass(streams, specs, plan, Add, prefix, overlap);
            forall n :: n in streams ==> n in r.streams && r.streams[n] == streams[n]
  {
    if specs != [] {
      AdditionsKeep(streams, specs[..|specs| - 1], plan, prefix, overlap);
    }
  }

  /** The streams after one pass on a broker that applies every change without asking. */
  function Forced(streams: Streams, specs: seq<StreamSpec>, plan: Plan, kind: Action, prefix: string): Streams
  {
    if specs == [] then streams else
      var spec := specs[|specs| - 1];
      var before := Forced(streams, specs[..|specs| - 1], plan, kind, prefix);
      if Planned(plan, spec.name) == kind then before[spec.name := TargetConfig(spec, prefix)] else before
  }

  lemma {:induction false} AcceptedIsForced(streams: Streams, specs: seq<StreamSpec>, plan: Plan, kind: Action, prefix: string,
                                            overlap: Overlap)
    requires RunPass(streams, specs, plan, kind, prefix, overlap).ok
    ensures RunPass(streams, specs, plan, kind, prefix, overlap).streams == Forced(streams, specs, plan, kind, prefix)
  {
    if specs != [] {
      AcceptedIsForced(streams, specs[..|specs| - 1], plan, kind, prefix, overlap);
    }
  }

  /** After any number of changes of an accepted pass, even a broker that asks nothing has no overlap. */
  lemma ForcedPassKeepsNoOverlap(streams: Streams, specs: seq<StreamSpec>, n: nat, plan: Plan, kind: Action, prefix: string,
                                 overlap: Overlap)
    requires n <= |specs| && NoOverlap(streams, overlap) && RunPass(streams, specs, plan, kind, prefix, overlap).ok
    ensures NoOverlap(Forced(streams, specs[..n], plan, kind, prefix), overlap)
  {
    if RunPass(streams, specs[..n], plan, kind, prefix, overlap).ok {
      AcceptedIsForced(streams, specs[..n], plan, kind, prefix, overlap);
      PassKeepsNoOverlap(streams, specs[..n], plan, kind, prefix, overlap);
    } else {
      PassFailsFrom(streams, specs, n, plan, kind, prefix, overlap);
    }
  }

  /** The order of the actions, and not the broker's refusals, keeps subjects apart: when no target claims a
      subject still held elsewhere, then on a broker that applies everything without asking no two streams share
      a subject after any number of updates, nor after all updates and any number of additions. */
  lemma OrderKeepsNoOverlap(streams: Streams, specs: seq<StreamSpec>, n: nat, prefix: string, overlap: Overlap)
    requires Targets(specs, prefix, overlap) && NoOverlap(streams, overlap) && MayMigrate(streams, specs, prefix, overlap)
    requires n <= |specs|
    ensures var plan := PlanFor(streams, specs, prefix);
            var updated := Forced(streams, specs, plan, Update, prefix);
      && NoOverlap(Forced(streams, specs[..n], plan, Update, prefix), overlap)
      && NoOverlap(Forced(updated, specs[..n], plan, Add, prefix), overlap)
  {
    var plan := PlanFor(streams, specs, prefix);
    MigrationSucceedsIff(streams, specs, prefix, overlap);
    ForcedPassKeepsNoOverlap(streams, specs, n, plan, Update, prefix, overlap);
    AcceptedIsForced(streams, specs, plan, Update, prefix, overlap);
    PassKeepsNoOverlap(streams, specs, plan, Update, prefix, overlap);
    ForcedPassKeepsNoOverlap(Forced(streams, specs, plan, Update, prefix), specs, n, plan, Add, prefix, overlap);
  }

  /** The other order does not: a missing target whose subject an existing stream still holds makes two streams
      share it as soon as it is added. */
  lemma AddingFirstOverlaps(streams: Streams, specs: seq<StreamSpec>, prefix: string, overlap: Overlap, i: nat, b: string)
    requires Targets(specs, prefix, overlap) && i < |specs| && specs[i].name !in streams
    requires b in streams && !Disjoint(SubjectsOf(specs[i], prefix), streams[b].subjects, overlap)
    ensures !NoOverlap(Forced(streams, specs[..i + 1], PlanFor(streams, specs, prefix), Add, prefix), overlap)
  {
    var plan := PlanFor(streams, specs, prefix);
    PlanForName(streams, specs, prefix, i, overlap);
    assert specs[..i + 1][..i] == specs[..i];
    var after := Forced(streams, specs[..i + 1], plan, Add, prefix);
    ForcedAdditionsKeep(streams, specs, i, prefix, overlap, b);
    assert after[specs[i].name] == TargetConfig(specs[i], prefix) && after[b] == streams[b] && b != specs[i].name;
    assert !Disjoint(after[specs[i].name].subjects, after[b].subjects, overlap);
  }

  lemma {:induction false} ForcedAdditionsKeep(streams: Streams, specs: seq<StreamSpec>, n: nat, prefix: string,
                                               overlap: Overlap, b: string)
    requires Targets(specs, prefix, overlap) && n <= |specs| && b in streams
    ensures var after := Forced(streams, specs[..n], PlanFor(streams, specs, prefix), Add, prefix);
            b in after && after[b] == streams[b]
  {
    if n > 0 {
      assert specs[..n][..n - 1] == specs[..n - 1];
      ForcedAdditionsKeep(streams, specs, n - 1, prefix, overlap, b);
      PlanForName(streams, specs, prefix, n - 1, overlap);
    }
  }

  /** One target with three replicas on an empty broker: it is added as declared, and updated by every plan
      after that. */
  lemma ReplanCanUpdate(overlap: Overlap)
    ensures var spec := StreamSpec("S", {"t"}, 60.0, 1, 1, 1, "file", "limits", 3, 120.0, false);
            var r := RunPlan(map[], [spec], PlanFor(map[], [spec], ""), "", overlap);
            r.ok && Planned(PlanFor(r.streams, [spec], ""), "S") == Update
  {
    var spec := StreamSpec("S", {"t"}, 60.0, 1, 1, 1, "file", "limits", 3, 120.0, false);
    var specs, plan := [spec], PlanFor(map[], [spec], "");
    PlanForName(map[], specs, "", 0, overlap);
    MigrationSucceedsIff(map[], specs, "", overlap);
    var r := RunPlan(map[], specs, plan, "", overlap);
    PlanForName(r.streams, specs, "", 0, overlap);
    assert specs[0].name == "S" && "S" in Names(specs);
    NoopIff(SnapshotOf(r.streams, "S"), spec, "");
  }

  // ------------------------------------------------------------------------- the whole script

  predicate MarketWithoutEvents(streams: Streams, specs: seq<StreamSpec>)
  {
    && MARKET in Names(specs) && MARKET in streams
    && !(EVENTS in Names(specs) && EVENTS in streams)
  }

  method TakeSnapshots(broker: Broker, specs: seq<StreamSpec>) returns (snapshots: Snapshots)
    ensures snapshots == SnapshotAll(broker.streams, specs)
  {
    snapshots := map[];
    for i := 0 to |specs|
      invariant snapshots == SnapshotAll(broker.streams, specs[..i])
    {
      assert Names(specs[..i + 1]) == Names(specs[..i]) + {specs[i].name} by {
        assert specs[..i + 1] == specs[..i] + [specs[i]];
      }
      snapshots := snapshots[specs[i].name := SnapshotOf(broker.streams, specs[i].name)];
    }
    assert specs[..|specs|] == specs;
  }

  /** `run_migration` with `--sync-config`: nothing is touched in the one state the planner refuses; otherwise the
      migration of disjoint targets succeeds exactly when it may. Where it stops, no two streams share a subject. */
  method SyncConfig(broker: Broker, specs: seq<StreamSpec>, prefix: string) returns (result: Option<bool>)
    modifies broker
    ensures result.None? <==> MarketWithoutEvents(old(broker.streams), specs)
    ensures result.None? ==> broker.streams == old(broker.streams)
    ensures NoOverlap(old(broker.streams), broker.overlap) ==> NoOverlap(broker.streams, broker.overlap)
    ensures result.Some? && Targets(specs, prefix, broker.overlap) ==>
              && (result.value <==> MayMigrate(old(broker.streams), specs, prefix, broker.overlap))
              && (result.value ==> Migrated(old(broker.streams), broker.streams, specs, prefix))
  {
    ghost var streams := broker.streams;
    var snapshots := TakeSnapshots(broker, specs);
    var plan := ComputePlan(snapshots, specs, prefix);
    if plan.None? {
      return None;
    }
    var ok := ApplyPlan(broker, plan.value, specs, prefix);
    if NoOverlap(streams, broker.overlap) {
      PlanKeepsNoOverlap(streams, specs, plan.value, prefix, broker.overlap);
    }
    if Targets(specs, prefix, broker.overlap) {
      MigrationSucceedsIff(streams, specs, prefix, broker.overlap);
    }
    return Some(ok);
  }

  lemma PlanKeepsNoOverlap(streams: Streams, specs: seq<StreamSpec>, plan: Plan, prefix: string, overlap: Overlap)
    requires NoOverlap(streams, overlap)
    ensures NoOverlap(RunPlan(streams, specs, plan, prefix, overlap).streams, overlap)
  {
    PassKeepsNoOverlap(streams, specs, plan, Update, prefix, overlap);
    PassKeepsNoOverlap(RunPass(streams, specs, plan, Update, prefix, overlap).streams, specs, plan, Add, prefix, overlap);
  }
}
