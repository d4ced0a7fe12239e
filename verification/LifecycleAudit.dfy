/** The audit log as a complete record: component states, holdoffs and crash counts can be recomputed from it. */
module LifecycleAudit {
  import opened Machine
  import opened Lifecycle

  // ----- reading the log of one component -----

  function Of(log: seq<LifecycleEvent>, id: string): seq<LifecycleEvent> {
    if log == [] then []
    else
      var before, last := Of(log[..|log| - 1], id), log[|log| - 1];
      if last.componentId == id then before + [last] else before
  }

  function StateAfter(hops: seq<LifecycleEvent>): LifecycleState {
    if hops == [] || hops[|hops| - 1].toState.None? then Inactive else hops[|hops| - 1].toState.value
  }

  predicate Linked(hops: seq<LifecycleEvent>) {
    forall i :: 0 <= i < |hops| ==> hops[i].fromState == Some(StateAfter(hops[..i]))
  }

  predicate IsReset(x: LifecycleEvent) {
    x.fromState == Some(RollingBack) && x.toState == Some(Active)
  }

  function LastRollback(evs: seq<LifecycleEvent>): Option<nat> {
    if evs == [] then None
    else
      var last := evs[|evs| - 1];
      if IsReset(last) then Some(last.timestamp) else LastRollback(evs[..|evs| - 1])
  }

  function CrashesSinceReset(evs: seq<LifecycleEvent>): seq<nat> {
    if evs == [] then []
    else
      var last := evs[|evs| - 1];
      var before := CrashesSinceReset(evs[..|evs| - 1]);
      if last.event == CrashReported then before + [last.timestamp] else if IsReset(last) then [] else before
  }

  function Retained(crashes: seq<nat>, window: nat): seq<nat> {
    if crashes == [] then []
    else
      var t := crashes[|crashes| - 1];
      Prune(Retained(crashes[..|crashes| - 1], window) + [t], SatSub(t, window))
  }

  function PhaseBefore(p: RolloutPhase): RolloutPhase {
    match p
    case Shadow => Shadow
    case Canary => Shadow
    case Ramp => Canary
    case Default => Ramp
  }

  function PhaseIndex(p: RolloutPhase): nat {
    match p
    case Shadow => 0
    case Canary => 1
    case Ramp => 2
    case Default => 3
  }

  /** The log ends with the start of an update from version old to version new and then every phase up to p, nothing else. */
  predicate Trail(hops: seq<LifecycleEvent>, p: RolloutPhase, old': string, new': string)
    decreases PhaseIndex(p)
  {
    && hops != []
    && var last := hops[|hops| - 1];
       if p == Shadow then
         last.event == UpdateStarted && last.fromVersion == Some(old') && last.toVersion == Some(new')
         && last.fromState == Some(Active) && last.toState == Some(Updating(Shadow))
       else
         && last.fromState == Some(Updating(PhaseBefore(p))) && last.toState == Some(Updating(p))
         && Trail(hops[..|hops| - 1], PhaseBefore(p), old', new')
  }

  // ----- the invariant -----

  /** What holds of a component on its own between calls. */
  predicate Sound(id: string, e: ComponentEntry) {
    && e.descriptor.componentId == id
    && e.state != RollingBack
    && (e.state == Active || e.state.Updating? ==> e.knownGood.Some?)
    && (e.knownGood.Some? ==> e.checkpointSeq.Some? && e.knownGood.value.componentId == id)
    && (e.knownGood.Some? && !e.state.Updating? ==>
          e.knownGood.value.version == e.descriptor.version && e.knownGood.value.versionHash == e.descriptor.versionHash)
    && (e.state == Inactive ==> e.injectedKeys == [])
  }

  /** What its log says about it. */
  predicate Logged(cfg: LifecycleConfig, e: ComponentEntry, evs: seq<LifecycleEvent>) {
    && Linked(Hops(evs))
    && e.state == StateAfter(Hops(evs))
    && e.lastRollbackTick == LastRollback(evs)
    && e.detector == CrashLoopDetector(Retained(CrashesSinceReset(evs), cfg.crashWindowTicks), cfg.crashThreshold, cfg.crashWindowTicks)
    && (e.state.Updating? && e.knownGood.Some? ==>
          Trail(Hops(evs), e.state.phase, e.knownGood.value.version, e.descriptor.version))
  }

  lemma PushHop(evs: seq<LifecycleEvent>, x: LifecycleEvent)
    requires IsHop(x) && x.event != CrashReported
    ensures Hops(evs + [x]) == Hops(evs) + [x]
    ensures LastRollback(evs + [x]) == if IsReset(x) then Some(x.timestamp) else LastRollback(evs)
    ensures CrashesSinceReset(evs + [x]) == if IsReset(x) then [] else CrashesSinceReset(evs)
  {
    assert (evs + [x])[..|evs|] == evs;
  }

  lemma PushNote(evs: seq<LifecycleEvent>, x: LifecycleEvent)
    requires !IsHop(x)
    ensures Hops(evs + [x]) == Hops(evs)
    ensures LastRollback(evs + [x]) == LastRollback(evs)
    ensures CrashesSinceReset(evs + [x]) == CrashesSinceReset(evs) + if x.event == CrashReported then [x.timestamp] else []
  {
    assert (evs + [x])[..|evs|] == evs;
  }

  lemma LinkOne(hops: seq<LifecycleEvent>, x: LifecycleEvent)
    requires Linked(hops) && x.fromState == Some(StateAfter(hops)) && IsHop(x)
    ensures Linked(hops + [x]) && StateAfter(hops + [x]) == x.toState.value
  {
    var longer := hops + [x];
    forall i | 0 <= i < |longer| ensures longer[i].fromState == Some(StateAfter(longer[..i])) {
      if i < |hops| {
        assert longer[..i] == hops[..i];
      } else {
        assert longer[..i] == hops;
      }
    }
  }

  lemma PushTrail(hops: seq<LifecycleEvent>, x: LifecycleEvent)
    ensures (hops + [x])[..|hops|] == hops && (hops + [x])[|hops|] == x
  {
  }

  // ----- every reaction keeps it -----

  /** An update that nothing forbids, under the id of another component. */
  predicate Renamed(cfg: LifecycleConfig, tick: nat, id: string, e: ComponentEntry, cmd: Command) {
    cmd.BeginUpdate? && cmd.descriptor.componentId != id && UpdateRefusal(cfg, tick, id, e, cmd.seqNo).None?
  }

  lemma ReactionIsSound(cfg: LifecycleConfig, tick: nat, trace: string, id: string, e: ComponentEntry, cmd: Command)
    requires Sound(id, e)
    ensures Sound(id, React(cfg, tick, trace, id, e, cmd).entry) <==> !Renamed(cfg, tick, id, e, cmd)
  {
  }

  // One hop that is neither a rollback nor the start of a trail.
  lemma LogHop(cfg: LifecycleConfig, e: ComponentEntry, evs: seq<LifecycleEvent>, e': ComponentEntry, x: LifecycleEvent)
    requires Logged(cfg, e, evs) && IsHop(x) && x.event != CrashReported && x.fromState == Some(e.state) && !IsReset(x)
    requires e'.state == x.toState.value && e'.lastRollbackTick == e.lastRollbackTick && e'.detector == e.detector
    requires e'.state.Updating? && e'.knownGood.Some? ==>
               Trail(Hops(evs) + [x], e'.state.phase, e'.knownGood.value.version, e'.descriptor.version)
    ensures Logged(cfg, e', evs + [x])
  {
    PushHop(evs, x);
    LinkOne(Hops(evs), x);
  }

  lemma AdvanceIsLogged(cfg: LifecycleConfig, tick: nat, trace: string, id: string, e: ComponentEntry, evs: seq<LifecycleEvent>)
    requires Sound(id, e) && Logged(cfg, e, evs)
    ensures var r := OnAdvanceRollout(tick, trace, id, e); Logged(cfg, r.entry, evs + r.log)
  {
    var r := OnAdvanceRollout(tick, trace, id, e);
    if r.log == [] {
      assert evs + r.log == evs;
    } else {
      PushTrail(Hops(evs), r.log[0]);
      LogHop(cfg, e, evs, r.entry, r.log[0]);
    }
  }

  lemma RollBackIsLogged(cfg: LifecycleConfig, tick: nat, trace: string, id: string, e: ComponentEntry,
                         evs: seq<LifecycleEvent>, trigger: TransitionTrigger)
    requires Logged(cfg, e, evs)
    ensures var r := RollBack(tick, trace, id, e, trigger); Logged(cfg, r.entry, evs + r.log)
  {
    var r := RollBack(tick, trace, id, e, trigger);
    if r.log == [] {
      assert evs + r.log == evs;
    } else {
      var x, y := r.log[0], r.log[1];
      assert evs + r.log == (evs + [x]) + [y];
      LogHop(cfg, e, evs, e.(state := RollingBack), x);
      PushHop(evs + [x], y);
      LinkOne(Hops(evs + [x]), y);
    }
  }

  lemma CrashIsLogged(cfg: LifecycleConfig, e: ComponentEntry, evs: seq<LifecycleEvent>, x: LifecycleEvent)
    requires Logged(cfg, e, evs) && x.event == CrashReported && !IsHop(x)
    ensures Logged(cfg, e.(detector := Recorded(e.detector, x.timestamp)), evs + [x])
  {
    PushNote(evs, x);
    var cs := CrashesSinceReset(evs);
    assert (cs + [x.timestamp])[..|cs|] == cs;
  }

  lemma Regroup(evs: seq<LifecycleEvent>, x: LifecycleEvent, rest: seq<LifecycleEvent>)
    ensures evs + ([x] + rest) == (evs + [x]) + rest
  {
  }

  lemma CrashReportIsLogged(cfg: LifecycleConfig, tick: nat, trace: string, id: string, e: ComponentEntry, evs: seq<LifecycleEvent>)
    requires Logged(cfg, e, evs) && e.state != Inactive
    ensures var r := OnReportCrash(tick, trace, id, e); Logged(cfg, r.entry, evs + r.log)
  {
    var note := Note(trace, CrashReported, id, tick);
    var crashed := e.(detector := Recorded(e.detector, tick));
    CrashIsLogged(cfg, e, evs, note);
    if Looping(crashed.detector) {
      RollBackIsLogged(cfg, tick, trace, id, crashed, evs + [note], CrashLoop);
      Regroup(evs, note, RollBack(tick, trace, id, crashed, CrashLoop).log);
    }
  }

  lemma UpdateIsLogged(cfg: LifecycleConfig, tick: nat, trace: string, id: string, e: ComponentEntry,
                       evs: seq<LifecycleEvent>, d: ComponentDescriptor, seqNo: nat)
    requires Sound(id, e) && Logged(cfg, e, evs) && OnBeginUpdate(cfg, tick, trace, id, e, d, seqNo).reply == Done
    ensures var r := OnBeginUpdate(cfg, tick, trace, id, e, d, seqNo); Logged(cfg, r.entry, evs + r.log)
  {
    var r := OnBeginUpdate(cfg, tick, trace, id, e, d, seqNo);
    PushTrail(Hops(evs), r.log[0]);
    LogHop(cfg, e, evs, r.entry, r.log[0]);
  }

  lemma ReactionIsLogged(cfg: LifecycleConfig, tick: nat, trace: string, id: string, e: ComponentEntry,
                         evs: seq<LifecycleEvent>, cmd: Command)
    requires Sound(id, e) && Logged(cfg, e, evs)
    ensures var r := React(cfg, tick, trace, id, e, cmd); Logged(cfg, r.entry, evs + r.log)
  {
    var r := React(cfg, tick, trace, id, e, cmd);
    if r.log == [] {
      assert evs + r.log == evs;
    } else {
      match cmd {
        case InjectSecrets(_) => PushNote(evs, r.log[0]);
        case BeginUpdate(d, seqNo) => UpdateIsLogged(cfg, tick, trace, id, e, evs, d, seqNo);
        case AdvanceRollout => AdvanceIsLogged(cfg, tick, trace, id, e, evs);
        case Rollback => RollBackIsLogged(cfg, tick, trace, id, e, evs, Manual);
        case ReportCrash => CrashReportIsLogged(cfg, tick, trace, id, e, evs);
        case BeginActivation(_) => LogHop(cfg, e, evs, r.entry, r.log[0]);
        case CompleteActivation(_) => LogHop(cfg, e, evs, r.entry, r.log[0]);
        case Deactivate => LogHop(cfg, e, evs, r.entry, r.log[0]);
      }
    }
  }
}
