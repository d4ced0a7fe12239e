/** The activation / update / rollback state machine of managed components, as a function of one call. */
module Lifecycle {
  import opened Machine

  datatype RolloutPhase = Shadow | Canary | Ramp | Default
  {
    function Next(): Option<RolloutPhase> {
      match this
      case Shadow => Some(Canary)
      case Canary => Some(Ramp)
      case Ramp => Some(Default)
      case Default => None
    }
  }

  datatype LifecycleState = Inactive | PendingActivation | Active | Updating(phase: RolloutPhase) | RollingBack

  datatype TransitionTrigger = Manual | Auto | CrashLoop

  datatype ComponentDescriptor = ComponentDescriptor(
    componentId: string,
    version: string,
    versionHash: string,
    capabilitiesRequired: set<string>)

  datatype KnownGoodPin = KnownGoodPin(
    componentId: string,
    version: string,
    versionHash: string,
    activatedAt: nat,
    healthCheckPassedAt: nat)

  datatype LifecycleConfig = LifecycleConfig(
    crashThreshold: nat,
    crashWindowTicks: nat,
    rollbackHoldoffTicks: nat)

  datatype EventName = ComponentRegistered | SecretsInjected | CrashReported | LifecycleTransition | UpdateStarted

  datatype LifecycleEvent = LifecycleEvent(
    traceId: string,
    event: EventName,
    componentId: string,
    fromVersion: Option<string>,
    toVersion: Option<string>,
    fromState: Option<LifecycleState>,
    toState: Option<LifecycleState>,
    trigger: Option<TransitionTrigger>,
    timestamp: nat)

  datatype LifecycleError =
    | InvalidTransition(from: LifecycleState, to: LifecycleState)
    | ActivationValidationFailed
    | ComponentNotFound(componentId: string)
    | NoKnownGoodVersion(componentId: string)
    | RollbackHoldoffActive(componentId: string, remainingTicks: nat)
    | CheckpointRegression(componentId: string)

  // ----- the crash-loop detector -----

  datatype CrashLoopDetector = CrashLoopDetector(timestamps: seq<nat>, threshold: nat, windowTicks: nat)

  function Prune(ts: seq<nat>, cutoff: nat): seq<nat> {
    if ts == [] then []
    else
      var before, last := Prune(ts[..|ts| - 1], cutoff), ts[|ts| - 1];
      if last >= cutoff then before + [last] else before
  }

  function Recorded(d: CrashLoopDetector, tick: nat): CrashLoopDetector {
    d.(timestamps := Prune(d.timestamps + [tick], SatSub(tick, d.windowTicks)))
  }

  predicate Looping(d: CrashLoopDetector) {
    |d.timestamps| >= d.threshold
  }

  // ----- one component -----

  datatype ComponentEntry = ComponentEntry(
    descriptor: ComponentDescriptor,
    state: LifecycleState,
    knownGood: Option<KnownGoodPin>,
    detector: CrashLoopDetector,
    lastRollbackTick: Option<nat>,
    checkpointSeq: Option<nat>,
    injectedKeys: seq<string>)

  datatype Command =
    | BeginActivation(allPassed: bool)
    | InjectSecrets(keys: seq<string>)
    | CompleteActivation(seqNo: nat)
    | BeginUpdate(descriptor: ComponentDescriptor, seqNo: nat)
    | AdvanceRollout
    | Rollback
    | ReportCrash
    | Deactivate

  datatype Reply =
    | Done
    | Injected(keys: seq<string>, at: nat)
    | ReachedPhase(phase: RolloutPhase)
    | RolledBack(pin: KnownGoodPin)
    | CrashRecorded
    | Failed(error: LifecycleError)

  datatype Reaction = Reaction(entry: ComponentEntry, log: seq<LifecycleEvent>, reply: Reply)

  function Note(trace: string, name: EventName, id: string, tick: nat): LifecycleEvent {
    LifecycleEvent(trace, name, id, None, None, None, None, None, tick)
  }

  function Hop(trace: string, id: string, from: LifecycleState, to: LifecycleState,
               trigger: TransitionTrigger, tick: nat): LifecycleEvent
  {
    LifecycleEvent(trace, LifecycleTransition, id, None, None, Some(from), Some(to), Some(trigger), tick)
  }

  function UpdateHop(trace: string, id: string, fromVersion: string, toVersion: string, tick: nat): LifecycleEvent {
    LifecycleEvent(trace, UpdateStarted, id, Some(fromVersion), Some(toVersion),
                   Some(Active), Some(Updating(Shadow)), Some(Manual), tick)
  }

  function Refuse(e: ComponentEntry, error: LifecycleError): Reaction {
    Reaction(e, [], Failed(error))
  }

  function PinFor(id: string, d: ComponentDescriptor, tick: nat): KnownGoodPin {
    KnownGoodPin(id, d.version, d.versionHash, tick, tick)
  }

  function OnBeginActivation(tick: nat, trace: string, id: string, e: ComponentEntry, allPassed: bool): Reaction {
    if e.state != Inactive then Refuse(e, InvalidTransition(e.state, PendingActivation))
    else if !allPassed then Refuse(e, ActivationValidationFailed)
    else Reaction(e.(state := PendingActivation), [Hop(trace, id, Inactive, PendingActivation, Manual, tick)], Done)
  }

  function OnInjectSecrets(tick: nat, trace: string, id: string, e: ComponentEntry, keys: seq<string>): Reaction {
    if e.state != PendingActivation then Refuse(e, InvalidTransition(e.state, PendingActivation))
    else Reaction(e.(injectedKeys := keys), [Note(trace, SecretsInjected, id, tick)], Injected(keys, tick))
  }

  function OnCompleteActivation(tick: nat, trace: string, id: string, e: ComponentEntry, seqNo: nat): Reaction {
    if e.state != PendingActivation then Refuse(e, InvalidTransition(e.state, Active))
    else
      Reaction(e.(state := Active, checkpointSeq := Some(seqNo), knownGood := Some(PinFor(id, e.descriptor, tick))),
               [Hop(trace, id, PendingActivation, Active, Auto, tick)], Done)
  }

  // Why an update cannot start now, if it cannot.
  function UpdateRefusal(cfg: LifecycleConfig, tick: nat, id: string, e: ComponentEntry, seqNo: nat): Option<LifecycleError> {
    if e.state != Active then Some(InvalidTransition(e.state, Updating(Shadow)))
    else if e.lastRollbackTick.Some? && SatSub(tick, e.lastRollbackTick.value) < cfg.rollbackHoldoffTicks then
      Some(RollbackHoldoffActive(id, cfg.rollbackHoldoffTicks - SatSub(tick, e.lastRollbackTick.value)))
    else if e.checkpointSeq.Some? && seqNo < e.checkpointSeq.value then Some(CheckpointRegression(id))
    else None
  }

  function OnBeginUpdate(cfg: LifecycleConfig, tick: nat, trace: string, id: string, e: ComponentEntry,
                         d: ComponentDescriptor, seqNo: nat): Reaction
  {
    match UpdateRefusal(cfg, tick, id, e, seqNo)
    case Some(error) => Refuse(e, error)
    case None =>
      Reaction(e.(descriptor := d, state := Updating(Shadow), checkpointSeq := Some(seqNo)),
               [UpdateHop(trace, id, e.descriptor.version, d.version, tick)], Done)
  }

  function OnAdvanceRollout(tick: nat, trace: string, id: string, e: ComponentEntry): Reaction {
    if !e.state.Updating? then Refuse(e, InvalidTransition(e.state, Updating(Shadow)))
    else
      var phase := e.state.phase;
      match phase.Next()
      case Some(next) =>
        Reaction(e.(state := Updating(next)), [Hop(trace, id, Updating(phase), Updating(next), Auto, tick)], ReachedPhase(next))
      case None =>
        Reaction(e.(state := Active, knownGood := Some(PinFor(id, e.descriptor, tick))),
                 [Hop(trace, id, Updating(phase), Active, Auto, tick)], ReachedPhase(phase))
  }

  function RollBack(tick: nat, trace: string, id: string, e: ComponentEntry, trigger: TransitionTrigger): Reaction {
    if e.state == Inactive || e.state == RollingBack then Refuse(e, InvalidTransition(e.state, RollingBack))
    else if e.knownGood.None? then Refuse(e, NoKnownGoodVersion(id))
    else
      var pin := e.knownGood.value;
      Reaction(e.(descriptor := e.descriptor.(version := pin.version, versionHash := pin.versionHash),
                  state := Active,
                  injectedKeys := if e.state == PendingActivation then [] else e.injectedKeys,
                  lastRollbackTick := Some(tick),
                  detector := e.detector.(timestamps := [])),
               [Hop(trace, id, e.state, RollingBack, trigger, tick), Hop(trace, id, RollingBack, Active, trigger, tick)],
               RolledBack(pin))
  }

  function OnReportCrash(tick: nat, trace: string, id: string, e: ComponentEntry): Reaction {
    if e.state == Inactive then Refuse(e, InvalidTransition(Inactive, RollingBack))
    else
      var crashed := e.(detector := Recorded(e.detector, tick));
      var note := Note(trace, CrashReported, id, tick);
      if Looping(crashed.detector) then
        var r := RollBack(tick, trace, id, crashed, CrashLoop);
        r.(log := [note] + r.log)
      else Reaction(crashed, [note], CrashRecorded)
  }

  function OnDeactivate(tick: nat, trace: string, id: string, e: ComponentEntry): Reaction {
    if e.state != Active then Refuse(e, InvalidTransition(e.state, Inactive))
    else Reaction(e.(state := Inactive, injectedKeys := []), [Hop(trace, id, Active, Inactive, Manual, tick)], Done)
  }

  function React(cfg: LifecycleConfig, tick: nat, trace: string, id: string, e: ComponentEntry, cmd: Command): Reaction {
    match cmd
    case BeginActivation(allPassed) => OnBeginActivation(tick, trace, id, e, allPassed)
    case InjectSecrets(keys) => OnInjectSecrets(tick, trace, id, e, keys)
    case CompleteActivation(seqNo) => OnCompleteActivation(tick, trace, id, e, seqNo)
    case BeginUpdate(d, seqNo) => OnBeginUpdate(cfg, tick, trace, id, e, d, seqNo)
    case AdvanceRollout => OnAdvanceRollout(tick, trace, id, e)
    case Rollback => RollBack(tick, trace, id, e, Manual)
    case ReportCrash => OnReportCrash(tick, trace, id, e)
    case Deactivate => OnDeactivate(tick, trace, id, e)
  }

  // ----- all components -----

  datatype Controller = Controller(
    config: LifecycleConfig,
    components: seq<ComponentEntry>,
    events: seq<LifecycleEvent>,
    tick: nat,
    transitionCount: nat)

  datatype Call =
    | Register(descriptor: ComponentDescriptor, trace: string)
    | Invoke(id: string, cmd: Command, trace: string)
    | SetTick(tick: nat)
    | DrainEvents

  function IndexOf(components: seq<ComponentEntry>, id: string): (k: Option<nat>)
    ensures k.Some? ==> k.value < |components| && components[k.value].descriptor.componentId == id
    ensures k.Some? ==> forall j :: 0 <= j < k.value ==> components[j].descriptor.componentId != id
    ensures k.None? ==> forall j :: 0 <= j < |components| ==> components[j].descriptor.componentId != id
  {
    if components == [] then None
    else
      var n := |components| - 1;
      var k := IndexOf(components[..n], id);
      if k.Some? then k else if components[n].descriptor.componentId == id then Some(n) else None
  }

  function Fresh(cfg: LifecycleConfig, d: ComponentDescriptor): ComponentEntry {
    ComponentEntry(d, Inactive, None, CrashLoopDetector([], cfg.crashThreshold, cfg.crashWindowTicks), None, None, [])
  }

  predicate IsHop(x: LifecycleEvent) {
    x.toState.Some?
  }

  function Hops(log: seq<LifecycleEvent>): seq<LifecycleEvent> {
    if log == [] then []
    else
      var before, last := Hops(log[..|log| - 1]), log[|log| - 1];
      if IsHop(last) then before + [last] else before
  }

  function Absorb(c: Controller, k: nat, r: Reaction): Controller
    requires k < |c.components|
  {
    c.(components := c.components[k := r.entry],
       events := c.events + r.log,
       transitionCount := Min(c.transitionCount + |Hops(r.log)|, U64_MAX))
  }

  function Step(c: Controller, call: Call): (Controller, Reply) {
    match call
    case Register(d, trace) =>
      if IndexOf(c.components, d.componentId).Some? then (c, Failed(ActivationValidationFailed))
      else
        (c.(components := c.components + [Fresh(c.config, d)],
            events := c.events + [Note(trace, ComponentRegistered, d.componentId, c.tick)]), Done)
    case Invoke(id, cmd, trace) =>
      (match IndexOf(c.components, id)
       case None => (c, Failed(ComponentNotFound(id)))
       case Some(k) =>
         var r := React(c.config, c.tick, trace, id, c.components[k], cmd);
         (Absorb(c, k, r), r.reply))
    case SetTick(t) => (c.(tick := t), Done)
    case DrainEvents => (c.(events := []), Done)
  }
}
