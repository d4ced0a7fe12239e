/** When each call on a component succeeds, and everything it then changes. */
module LifecycleCalls {
  import opened Machine
  import opened Lifecycle
  import opened LifecycleAudit
  import opened LifecycleRuns
  import opened LifecycleSafety

  // The call leaves entry e' in place of component k, answers reply, and appends log to the events; nothing else changes.
  predicate Yields(w: World, k: nat, cmd: Command, trace: string, e': ComponentEntry, reply: Reply, log: seq<LifecycleEvent>)
    requires k < |w.ctl.components|
  {
    var call := Invoke(IdAt(w, k), cmd, trace);
    var c := Step(w.ctl, call).0;
    && Step(w.ctl, call).1 == reply
    && c.components == w.ctl.components[k := e'] && c.events == w.ctl.events + log
    && c.tick == w.ctl.tick && c.config == w.ctl.config
  }

  lemma CallYields(w: World, k: nat, cmd: Command, trace: string, r: Reaction)
    requires Inv(w) && k < |w.ctl.components|
    requires r == React(w.ctl.config, w.ctl.tick, trace, IdAt(w, k), w.ctl.components[k], cmd)
    ensures Yields(w, k, cmd, trace, r.entry, r.reply, r.log)
  {
    var j := IndexOf(w.ctl.components, IdAt(w, k));
    assert j.Some? && IdAt(w, j.value) == IdAt(w, k);
  }

  function Transition(w: World, k: nat, trace: string, from: LifecycleState, to: LifecycleState, trigger: TransitionTrigger): LifecycleEvent
    requires k < |w.ctl.components|
  {
    LifecycleEvent(trace, LifecycleTransition, IdAt(w, k), None, None, Some(from), Some(to), Some(trigger), w.ctl.tick)
  }

  function Remark(w: World, k: nat, trace: string, name: EventName): LifecycleEvent
    requires k < |w.ctl.components|
  {
    LifecycleEvent(trace, name, IdAt(w, k), None, None, None, None, None, w.ctl.tick)
  }

  // The component as it would be pinned now.
  function PinNow(w: World, k: nat): KnownGoodPin
    requires k < |w.ctl.components|
  {
    var d := w.ctl.components[k].descriptor;
    KnownGoodPin(d.componentId, d.version, d.versionHash, w.ctl.tick, w.ctl.tick)
  }

  /** A component is registered exactly when its id is new; it starts inactive, without pin, crashes, checkpoint or keys. */
  lemma RegistrationSucceedsIff(w: World, d: ComponentDescriptor, trace: string)
    requires Inv(w)
    ensures var (c, reply) := Step(w.ctl, Register(d, trace));
            && (reply == Done <==> forall k :: 0 <= k < |w.ctl.components| ==> IdAt(w, k) != d.componentId)
            && (reply == Done ==>
                  && |c.components| == |w.ctl.components| + 1 && c.components[..|w.ctl.components|] == w.ctl.components
                  && var e := c.components[|w.ctl.components|];
                     && e.descriptor == d && e.state == Inactive && e.knownGood == None && e.checkpointSeq == None
                     && e.lastRollbackTick == None && e.injectedKeys == [] && e.detector.timestamps == []
                     && e.detector.threshold == w.ctl.config.crashThreshold
                     && e.detector.windowTicks == w.ctl.config.crashWindowTicks)
            && (reply != Done ==> reply == Failed(ActivationValidationFailed) && c == w.ctl)
  {
    var k := IndexOf(w.ctl.components, d.componentId);
    if k.Some? {
      assert IdAt(w, k.value) == d.componentId;
    }
  }

  lemma FoundHasId(w: World, id: string)
    ensures var k := IndexOf(w.ctl.components, id); k.Some? ==> k.value < |w.ctl.components| && IdAt(w, k.value) == id
  {
  }

  /** A call that names no registered component fails and changes nothing. */
  lemma UnknownComponentFails(w: World, id: string, cmd: Command, trace: string)
    requires forall k :: 0 <= k < |w.ctl.components| ==> IdAt(w, k) != id
    ensures Step(w.ctl, Invoke(id, cmd, trace)) == (w.ctl, Failed(ComponentNotFound(id)))
  {
    FoundHasId(w, id);
  }

  /** An activation begins exactly for an inactive component whose validation passed in full. */
  lemma ActivationBeginsIff(w: World, k: nat, passed: bool, trace: string)
    requires Inv(w) && k < |w.ctl.components|
    ensures var e, cmd := w.ctl.components[k], BeginActivation(passed);
            if e.state == Inactive && passed then
              Yields(w, k, cmd, trace, e.(state := PendingActivation), Done,
                     [Transition(w, k, trace, Inactive, PendingActivation, Manual)])
            else if e.state == Inactive then Yields(w, k, cmd, trace, e, Failed(ActivationValidationFailed), [])
            else Yields(w, k, cmd, trace, e, Failed(InvalidTransition(e.state, PendingActivation)), [])
  {
    CallYields(w, k, BeginActivation(passed), trace,
               React(w.ctl.config, w.ctl.tick, trace, IdAt(w, k), w.ctl.components[k], BeginActivation(passed)));
  }

  /** Secrets are injected exactly while an activation is pending, and replace earlier ones. */
  lemma SecretsInjectedIff(w: World, k: nat, keys: seq<string>, trace: string)
    requires Inv(w) && k < |w.ctl.components|
    ensures var e, cmd := w.ctl.components[k], InjectSecrets(keys);
            if e.state == PendingActivation then
              Yields(w, k, cmd, trace, e.(injectedKeys := keys), Injected(keys, w.ctl.tick), [Remark(w, k, trace, SecretsInjected)])
            else Yields(w, k, cmd, trace, e, Failed(InvalidTransition(e.state, PendingActivation)), [])
  {
    CallYields(w, k, InjectSecrets(keys), trace,
               React(w.ctl.config, w.ctl.tick, trace, IdAt(w, k), w.ctl.components[k], InjectSecrets(keys)));
  }

  /** An activation completes exactly while it is pending; it records the checkpoint and pins the running version. */
  lemma ActivationCompletesIff(w: World, k: nat, seqNo: nat, trace: string)
    requires Inv(w) && k < |w.ctl.components|
    ensures var e, cmd := w.ctl.components[k], CompleteActivation(seqNo);
            if e.state == PendingActivation then
              Yields(w, k, cmd, trace, e.(state := Active, checkpointSeq := Some(seqNo), knownGood := Some(PinNow(w, k))), Done,
                     [Transition(w, k, trace, PendingActivation, Active, Auto)])
            else Yields(w, k, cmd, trace, e, Failed(InvalidTransition(e.state, Active)), [])
  {
    CallYields(w, k, CompleteActivation(seqNo), trace,
               React(w.ctl.config, w.ctl.tick, trace, IdAt(w, k), w.ctl.components[k], CompleteActivation(seqNo)));
  }

  // The last rollback is at least a holdoff ago, counting none as long ago and a clock that went back as just now.
  predicate HoldoffOver(w: World, k: nat)
    requires k < |w.ctl.components|
  {
    var last, holdoff := w.ctl.components[k].lastRollbackTick, w.ctl.config.rollbackHoldoffTicks;
    last.Some? && holdoff > 0 ==> w.ctl.tick >= last.value + holdoff
  }

  /** An update begins exactly on an active component whose holdoff is over, with a checkpoint not older than the recorded one;
      the pin stays on the old version. */
  lemma UpdateBeginsIff(w: World, k: nat, d: ComponentDescriptor, seqNo: nat, trace: string)
    requires Inv(w) && k < |w.ctl.components|
    ensures var e, cmd := w.ctl.components[k], BeginUpdate(d, seqNo);
            if e.state != Active then Yields(w, k, cmd, trace, e, Failed(InvalidTransition(e.state, Updating(Shadow))), [])
            else if !HoldoffOver(w, k) then
              exists n: nat :: 0 < n <= w.ctl.config.rollbackHoldoffTicks
                && Yields(w, k, cmd, trace, e, Failed(RollbackHoldoffActive(IdAt(w, k), n)), [])
            else if e.checkpointSeq.Some? && seqNo < e.checkpointSeq.value then
              Yields(w, k, cmd, trace, e, Failed(CheckpointRegression(IdAt(w, k))), [])
            else
              Yields(w, k, cmd, trace, e.(descriptor := d, state := Updating(Shadow), checkpointSeq := Some(seqNo)), Done,
                     [LifecycleEvent(trace, UpdateStarted, IdAt(w, k), Some(e.descriptor.version), Some(d.version),
                                     Some(Active), Some(Updating(Shadow)), Some(Manual), w.ctl.tick)])
  {
    CallYields(w, k, BeginUpdate(d, seqNo), trace,
               React(w.ctl.config, w.ctl.tick, trace, IdAt(w, k), w.ctl.components[k], BeginUpdate(d, seqNo)));
  }

  /** A rollout advances exactly while updating: Shadow to Canary to Ramp to Default, and from Default to active with the new
      version pinned. */
  lemma RolloutAdvancesIff(w: World, k: nat, trace: string)
    requires Inv(w) && k < |w.ctl.components|
    ensures var e := w.ctl.components[k];
            match e.state
            case Updating(Default) =>
              Yields(w, k, AdvanceRollout, trace, e.(state := Active, knownGood := Some(PinNow(w, k))), ReachedPhase(Default),
                     [Transition(w, k, trace, Updating(Default), Active, Auto)])
            case Updating(p) =>
              var next := if p == Shadow then Canary else if p == Canary then Ramp else Default;
              Yields(w, k, AdvanceRollout, trace, e.(state := Updating(next)), ReachedPhase(next),
                     [Transition(w, k, trace, Updating(p), Updating(next), Auto)])
            case _ => Yields(w, k, AdvanceRollout, trace, e, Failed(InvalidTransition(e.state, Updating(Shadow))), [])
  {
    CallYields(w, k, AdvanceRollout, trace,
               React(w.ctl.config, w.ctl.tick, trace, IdAt(w, k), w.ctl.components[k], AdvanceRollout));
  }

  // The component rolled back to its pin.
  function Restored(w: World, k: nat): ComponentEntry
    requires k < |w.ctl.components| && w.ctl.components[k].knownGood.Some?
  {
    var e := w.ctl.components[k];
    var pin := e.knownGood.value;
    e.(descriptor := e.descriptor.(version := pin.version, versionHash := pin.versionHash), state := Active,
       injectedKeys := if e.state == PendingActivation then [] else e.injectedKeys, lastRollbackTick := Some(w.ctl.tick),
       detector := e.detector.(timestamps := []))
  }

  /** A rollback leads an active, updating or pending component with a pin back to the pinned version in two logged hops,
      forgets its crashes, starts the holdoff, and drops keys only of a pending activation. */
  lemma RollbackYields(w: World, k: nat, trace: string)
    requires Inv(w) && k < |w.ctl.components|
    ensures var e := w.ctl.components[k];
            if e.state == Inactive then Yields(w, k, Rollback, trace, e, Failed(InvalidTransition(Inactive, RollingBack)), [])
            else if e.knownGood.None? then Yields(w, k, Rollback, trace, e, Failed(NoKnownGoodVersion(IdAt(w, k))), [])
            else
              Yields(w, k, Rollback, trace, Restored(w, k), RolledBack(e.knownGood.value),
                     [Transition(w, k, trace, e.state, RollingBack, Manual), Transition(w, k, trace, RollingBack, Active, Manual)])
  {
    assert Tracked(w, k);
    CallYields(w, k, Rollback, trace,
               React(w.ctl.config, w.ctl.tick, trace, IdAt(w, k), w.ctl.components[k], Rollback));
  }

  // The crashes retained once one more is reported now.
  function CrashesNow(w: World, k: nat): seq<nat>
    requires k < |w.ctl.components|
  {
    Prune(w.ctl.components[k].detector.timestamps + [w.ctl.tick], SatSub(w.ctl.tick, w.ctl.config.crashWindowTicks))
  }

  /** A crash report on a component that is not inactive is logged and counted; at the threshold it rolls the component back,
      and without a pin it fails and keeps the count. */
  lemma CrashReportYields(w: World, k: nat, trace: string)
    requires Inv(w) && k < |w.ctl.components|
    ensures var e := w.ctl.components[k];
            var counted := e.(detector := e.detector.(timestamps := CrashesNow(w, k)));
            var remark := Remark(w, k, trace, CrashReported);
            if e.state == Inactive then Yields(w, k, ReportCrash, trace, e, Failed(InvalidTransition(Inactive, RollingBack)), [])
            else if |CrashesNow(w, k)| < w.ctl.config.crashThreshold then
              Yields(w, k, ReportCrash, trace, counted, CrashRecorded, [remark])
            else if e.knownGood.None? then
              Yields(w, k, ReportCrash, trace, counted, Failed(NoKnownGoodVersion(IdAt(w, k))), [remark])
            else
              Yields(w, k, ReportCrash, trace, Restored(w, k), RolledBack(e.knownGood.value),
                     [remark, Transition(w, k, trace, e.state, RollingBack, CrashLoop),
                      Transition(w, k, trace, RollingBack, Active, CrashLoop)])
  {
    assert Tracked(w, k);
    var r := React(w.ctl.config, w.ctl.tick, trace, IdAt(w, k), w.ctl.components[k], ReportCrash);
    CallYields(w, k, ReportCrash, trace, r);
    CrashReaction(w, k, trace);
  }

  lemma CrashReaction(w: World, k: nat, trace: string)
    requires k < |w.ctl.components| && Tracked(w, k)
    ensures var e := w.ctl.components[k];
            var counted := e.(detector := e.detector.(timestamps := CrashesNow(w, k)));
            var remark := Remark(w, k, trace, CrashReported);
            OnReportCrash(w.ctl.tick, trace, IdAt(w, k), e) ==
            if e.state == Inactive then Reaction(e, [], Failed(InvalidTransition(Inactive, RollingBack)))
            else if |CrashesNow(w, k)| < w.ctl.config.crashThreshold then Reaction(counted, [remark], CrashRecorded)
            else if e.knownGood.None? then Reaction(counted, [remark], Failed(NoKnownGoodVersion(IdAt(w, k))))
            else
              Reaction(Restored(w, k), [remark, Transition(w, k, trace, e.state, RollingBack, CrashLoop),
                                        Transition(w, k, trace, RollingBack, Active, CrashLoop)], RolledBack(e.knownGood.value))
  {
  }

  /** A component is deactivated exactly while active, and loses its keys. */
  lemma DeactivatesIff(w: World, k: nat, trace: string)
    requires Inv(w) && k < |w.ctl.components|
    ensures var e := w.ctl.components[k];
            if e.state == Active then
              Yields(w, k, Deactivate, trace, e.(state := Inactive, injectedKeys := []), Done,
                     [Transition(w, k, trace, Active, Inactive, Manual)])
            else Yields(w, k, Deactivate, trace, e, Failed(InvalidTransition(e.state, Inactive)), [])
  {
    CallYields(w, k, Deactivate, trace,
               React(w.ctl.config, w.ctl.tick, trace, IdAt(w, k), w.ctl.components[k], Deactivate));
  }
}
