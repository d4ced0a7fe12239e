/** The controller object: its methods update their fields in place and are proved to perform the steps of the model. */
module LifecycleController {
  import opened Machine
  import opened Lifecycle
  import opened LifecycleRuns

  // How the results of the methods read as replies of the model.
  function UnitReply(r: Result<(), LifecycleError>): Reply {
    if r.Success? then Done else Failed(r.error)
  }

  function KeysReply(r: Result<(seq<string>, nat), LifecycleError>): Reply {
    if r.Success? then Injected(r.value.0, r.value.1) else Failed(r.error)
  }

  function PhaseReply(r: Result<RolloutPhase, LifecycleError>): Reply {
    if r.Success? then ReachedPhase(r.value) else Failed(r.error)
  }

  function PinReply(r: Result<KnownGoodPin, LifecycleError>): Reply {
    if r.Success? then RolledBack(r.value) else Failed(r.error)
  }

  function CrashReply(r: Result<Option<KnownGoodPin>, LifecycleError>): Reply {
    if r.Failure? then Failed(r.error) else if r.value.Some? then RolledBack(r.value.value) else CrashRecorded
  }

  method RecordCrash(d: CrashLoopDetector, tick: nat) returns (d': CrashLoopDetector, isLoop: bool)
    ensures d' == Recorded(d, tick) && isLoop == Looping(d')
  {
    var pushed := d.timestamps + [tick];
    var cutoff := SatSub(tick, d.windowTicks);
    var kept: seq<nat> := [];
    var i := 0;
    while i < |pushed|
      invariant 0 <= i <= |pushed| && kept == Prune(pushed[..i], cutoff)
    {
      assert pushed[..i + 1][..i] == pushed[..i];
      if pushed[i] >= cutoff {
        kept := kept + [pushed[i]];
      }
      i := i + 1;
    }
    assert pushed[..i] == pushed;
    d' := d.(timestamps := kept);
    isLoop := |kept| >= d.threshold;
  }

  class ActivationLifecycleController {
    const config: LifecycleConfig
    var components: seq<ComponentEntry>
    var events: seq<LifecycleEvent>
    var currentTick: nat
    var transitionCount: u64
    // every event handed out by DrainEvents so far
    ghost var drained: seq<LifecycleEvent>

    ghost function State(): Controller
      reads this
    {
      Controller(config, components, events, currentTick, transitionCount)
    }

    ghost function Everything(): World
      reads this
    {
      World(State(), drained)
    }

    /** The run so far satisfies the invariant: what is proved of such worlds holds of this object. */
    ghost predicate Valid()
      reads this
    {
      Inv(Everything())
    }

    constructor (config: LifecycleConfig)
      ensures this.config == config && Everything() == Start(config) && Valid()
      ensures components == [] && events == [] && currentTick == 0 && transitionCount == 0 && drained == []
    {
      this.config := config;
      components, events, currentTick, transitionCount, drained := [], [], 0, 0, [];
      new;
      StartIsInv(config);
    }

    method SetTick(tick: nat)
      modifies this
      ensures Everything() == Advance(old(Everything()), Call.SetTick(tick))
      ensures old(Valid()) ==> Valid()
    {
      Keep(Call.SetTick(tick));
      currentTick := tick;
    }

    method DrainEvents() returns (r: seq<LifecycleEvent>)
      modifies this
      ensures r == old(events) && Everything() == Advance(old(Everything()), Call.DrainEvents)
      ensures Log(Everything()) == old(Log(Everything()))
      ensures old(Valid()) ==> Valid()
    {
      Keep(Call.DrainEvents);
      r := events;
      drained := drained + events;
      events := [];
    }

    method FindComponent(id: string) returns (k: Option<nat>)
      ensures k == IndexOf(components, id)
    {
      var i := 0;
      while i < |components|
        invariant 0 <= i <= |components|
        invariant forall j :: 0 <= j < i ==> components[j].descriptor.componentId != id
      {
        if components[i].descriptor.componentId == id {
          return Some(i);
        }
        i := i + 1;
      }
      return None;
    }

    method PushTransition(trace: string, id: string, from: LifecycleState, to: LifecycleState, trigger: TransitionTrigger)
      modifies this`events, this`transitionCount
      ensures events == old(events) + [Hop(trace, id, from, to, trigger, currentTick)]
      ensures transitionCount == Min(old(transitionCount) + 1, U64_MAX)
    {
      transitionCount := SatAdd(transitionCount, 1);
      events := events + [Hop(trace, id, from, to, trigger, currentTick)];
    }

    method Register(descriptor: ComponentDescriptor, trace: string) returns (r: Result<(), LifecycleError>)
      modifies this
      ensures Everything() == Advance(old(Everything()), Call.Register(descriptor, trace))
      ensures UnitReply(r) == Step(old(State()), Call.Register(descriptor, trace)).1
      ensures old(Valid()) ==> Valid()
    {
      Keep(Call.Register(descriptor, trace));
      var k := FindComponent(descriptor.componentId);
      if k.Some? {
        return Failure(ActivationValidationFailed);
      }
      components := components + [ComponentEntry(descriptor, Inactive, None,
                      CrashLoopDetector([], config.crashThreshold, config.crashWindowTicks), None, None, [])];
      events := events + [Note(trace, ComponentRegistered, descriptor.componentId, currentTick)];
      return Success(());
    }

    // Each call on the component found at position k absorbs the model's reaction.
    method DoBeginActivation(k: nat, id: string, allPassed: bool, trace: string)
      returns (r: Result<(), LifecycleError>)
      requires k < |components|
      modifies this
      ensures State() == Absorb(old(State()), k, OnBeginActivation(currentTick, trace, id, old(components)[k], allPassed))
      ensures drained == old(drained) && UnitReply(r) == OnBeginActivation(currentTick, trace, id, old(components)[k], allPassed).reply
    {
      Idle(k);
      var entry := components[k];
      if entry.state != Inactive {
        return Failure(InvalidTransition(entry.state, PendingActivation));
      }
      if !allPassed {
        return Failure(ActivationValidationFailed);
      }
      components := components[k := entry.(state := PendingActivation)];
      PushTransition(trace, id, Inactive, PendingActivation, Manual);
      OneHop(events[|events| - 1]);
      return Success(());
    }

    method BeginActivation(id: string, allPassed: bool, trace: string) returns (r: Result<(), LifecycleError>)
      modifies this
      ensures Everything() == Advance(old(Everything()), Invoke(id, Command.BeginActivation(allPassed), trace))
      ensures UnitReply(r) == Step(old(State()), Invoke(id, Command.BeginActivation(allPassed), trace)).1
      ensures old(Valid()) ==> Valid()
    {
      Keep(Invoke(id, Command.BeginActivation(allPassed), trace));
      var k := FindComponent(id);
      if k.None? {
        return Failure(ComponentNotFound(id));
      }
      r := DoBeginActivation(k.value, id, allPassed, trace);
    }

    method DoInjectSecrets(k: nat, id: string, keyNames: seq<string>, trace: string)
      returns (r: Result<(seq<string>, nat), LifecycleError>)
      requires k < |components|
      modifies this
      ensures State() == Absorb(old(State()), k, OnInjectSecrets(currentTick, trace, id, old(components)[k], keyNames))
      ensures drained == old(drained) && KeysReply(r) == OnInjectSecrets(currentTick, trace, id, old(components)[k], keyNames).reply
    {
      Idle(k);
      var entry := components[k];
      if entry.state != PendingActivation {
        return Failure(InvalidTransition(entry.state, PendingActivation));
      }
      components := components[k := entry.(injectedKeys := keyNames)];
      events := events + [Note(trace, SecretsInjected, id, currentTick)];
      OneHop(events[|events| - 1]);
      return Success((keyNames, currentTick));
    }

    method InjectSecrets(id: string, keyNames: seq<string>, trace: string)
      returns (r: Result<(seq<string>, nat), LifecycleError>)
      modifies this
      ensures Everything() == Advance(old(Everything()), Invoke(id, Command.InjectSecrets(keyNames), trace))
      ensures KeysReply(r) == Step(old(State()), Invoke(id, Command.InjectSecrets(keyNames), trace)).1
      ensures old(Valid()) ==> Valid()
    {
      Keep(Invoke(id, Command.InjectSecrets(keyNames), trace));
      var k := FindComponent(id);
      if k.None? {
        return Failure(ComponentNotFound(id));
      }
      r := DoInjectSecrets(k.value, id, keyNames, trace);
    }

    method DoCompleteActivation(k: nat, id: string, checkpointSeq: nat, trace: string)
      returns (r: Result<(), LifecycleError>)
      requires k < |components|
      modifies this
      ensures State() == Absorb(old(State()), k, OnCompleteActivation(currentTick, trace, id, old(components)[k], checkpointSeq))
      ensures drained == old(drained) && UnitReply(r) == OnCompleteActivation(currentTick, trace, id, old(components)[k], checkpointSeq).reply
    {
      Idle(k);
      var entry := components[k];
      if entry.state != PendingActivation {
        return Failure(InvalidTransition(entry.state, Active));
      }
      var pin := KnownGoodPin(id, entry.descriptor.version, entry.descriptor.versionHash, currentTick, currentTick);
      components := components[k := entry.(state := Active, checkpointSeq := Some(checkpointSeq), knownGood := Some(pin))];
      PushTransition(trace, id, PendingActivation, Active, Auto);
      OneHop(events[|events| - 1]);
      return Success(());
    }

    method CompleteActivation(id: string, checkpointSeq: nat, trace: string) returns (r: Result<(), LifecycleError>)
      modifies this
      ensures Everything() == Advance(old(Everything()), Invoke(id, Command.CompleteActivation(checkpointSeq), trace))
      ensures UnitReply(r) == Step(old(State()), Invoke(id, Command.CompleteActivation(checkpointSeq), trace)).1
      ensures old(Valid()) ==> Valid()
    {
      Keep(Invoke(id, Command.CompleteActivation(checkpointSeq), trace));
      var k := FindComponent(id);
      if k.None? {
        return Failure(ComponentNotFound(id));
      }
      r := DoCompleteActivation(k.value, id, checkpointSeq, trace);
    }

    method CheckUpdate(id: string, entry: ComponentEntry, checkpointSeq: nat) returns (refusal: Option<LifecycleError>)
      ensures refusal == UpdateRefusal(config, currentTick, id, entry, checkpointSeq)
      ensures refusal.None? <==>
                && entry.state == Active
                && (entry.lastRollbackTick.Some? && config.rollbackHoldoffTicks > 0 ==>
                      currentTick >= entry.lastRollbackTick.value + config.rollbackHoldoffTicks)
                && (entry.checkpointSeq.Some? ==> checkpointSeq >= entry.checkpointSeq.value)
      ensures refusal.Some? && refusal.value.RollbackHoldoffActive? && currentTick >= entry.lastRollbackTick.value ==>
                currentTick + refusal.value.remainingTicks == entry.lastRollbackTick.value + config.rollbackHoldoffTicks
    {
      if entry.state != Active {
        return Some(InvalidTransition(entry.state, Updating(Shadow)));
      }
      if entry.lastRollbackTick.Some? {
        var elapsed := SatSub(currentTick, entry.lastRollbackTick.value);
        if elapsed < config.rollbackHoldoffTicks {
          return Some(RollbackHoldoffActive(id, config.rollbackHoldoffTicks - elapsed));
        }
      }
      if entry.checkpointSeq.Some? && checkpointSeq < entry.checkpointSeq.value {
        return Some(CheckpointRegression(id));
      }
      return None;
    }

    method DoBeginUpdate(k: nat, id: string, newDescriptor: ComponentDescriptor, checkpointSeq: nat, trace: string)
      returns (r: Result<(), LifecycleError>)
      requires k < |components|
      modifies this
      ensures State() == Absorb(old(State()), k, OnBeginUpdate(config, currentTick, trace, id, old(components)[k], newDescriptor, checkpointSeq))
      ensures drained == old(drained) && UnitReply(r) == OnBeginUpdate(config, currentTick, trace, id, old(components)[k], newDescriptor, checkpointSeq).reply
    {
      Idle(k);
      var entry := components[k];
      var refusal := CheckUpdate(id, entry, checkpointSeq);
      if refusal.Some? {
        return Failure(refusal.value);
      }
      components := components[k :=
        entry.(descriptor := newDescriptor, state := Updating(Shadow), checkpointSeq := Some(checkpointSeq))];
      transitionCount := SatAdd(transitionCount, 1);
      events := events + [UpdateHop(trace, id, entry.descriptor.version, newDescriptor.version, currentTick)];
      OneHop(events[|events| - 1]);
      return Success(());
    }

    method BeginUpdate(id: string, newDescriptor: ComponentDescriptor, checkpointSeq: nat, trace: string)
      returns (r: Result<(), LifecycleError>)
      modifies this
      ensures Everything() == Advance(old(Everything()), Invoke(id, Command.BeginUpdate(newDescriptor, checkpointSeq), trace))
      ensures UnitReply(r) == Step(old(State()), Invoke(id, Command.BeginUpdate(newDescriptor, checkpointSeq), trace)).1
      ensures old(Valid()) ==>
                (Valid() <==> !Renames(old(Everything()), Invoke(id, Command.BeginUpdate(newDescriptor, checkpointSeq), trace)))
    {
      KeepUnlessRenamed(Invoke(id, Command.BeginUpdate(newDescriptor, checkpointSeq), trace));
      var k := FindComponent(id);
      if k.None? {
        return Failure(ComponentNotFound(id));
      }
      r := DoBeginUpdate(k.value, id, newDescriptor, checkpointSeq, trace);
    }

    method DoAdvanceRollout(k: nat, id: string, trace: string)
      returns (r: Result<RolloutPhase, LifecycleError>)
      requires k < |components|
      modifies this
      ensures State() == Absorb(old(State()), k, OnAdvanceRollout(currentTick, trace, id, old(components)[k]))
      ensures drained == old(drained) && PhaseReply(r) == OnAdvanceRollout(currentTick, trace, id, old(components)[k]).reply
    {
      Idle(k);
      var entry := components[k];
      if !entry.state.Updating? {
        return Failure(InvalidTransition(entry.state, Updating(Shadow)));
      }
      var phase := entry.state.phase;
      match phase.Next() {
        case Some(next) =>
          components := components[k := entry.(state := Updating(next))];
          PushTransition(trace, id, Updating(phase), Updating(next), Auto);
          OneHop(events[|events| - 1]);
          return Success(next);
        case None =>
          var pin := KnownGoodPin(id, entry.descriptor.version, entry.descriptor.versionHash, currentTick, currentTick);
          components := components[k := entry.(state := Active, knownGood := Some(pin))];
          PushTransition(trace, id, Updating(phase), Active, Auto);
          OneHop(events[|events| - 1]);
          return Success(phase);
      }
    }

    method AdvanceRollout(id: string, trace: string) returns (r: Result<RolloutPhase, LifecycleError>)
      modifies this
      ensures Everything() == Advance(old(Everything()), Invoke(id, Command.AdvanceRollout, trace))
      ensures PhaseReply(r) == Step(old(State()), Invoke(id, Command.AdvanceRollout, trace)).1
      ensures old(Valid()) ==> Valid()
    {
      Keep(Invoke(id, Command.AdvanceRollout, trace));
      var k := FindComponent(id);
      if k.None? {
        return Failure(ComponentNotFound(id));
      }
      r := DoAdvanceRollout(k.value, id, trace);
    }

    // The two-step rollback shared by Rollback and ReportCrash, on the component found at position k.
    method DoRollback(k: nat, id: string, trigger: TransitionTrigger, trace: string)
      returns (r: Result<KnownGoodPin, LifecycleError>)
      requires k < |components|
      modifies this
      ensures State() == Absorb(old(State()), k, RollBack(currentTick, trace, id, old(components)[k], trigger))
      ensures drained == old(drained)
      ensures PinReply(r) == RollBack(currentTick, trace, id, old(components)[k], trigger).reply
    {
      Idle(k);
      var oldState := components[k].state;
      if oldState == Inactive || oldState == RollingBack {
        return Failure(InvalidTransition(oldState, RollingBack));
      }
      if components[k].knownGood.None? {
        return Failure(NoKnownGoodVersion(id));
      }
      var pin := components[k].knownGood.value;
      components := components[k := components[k].(state := RollingBack)];
      PushTransition(trace, id, oldState, RollingBack, trigger);
      var entry := components[k];
      components := components[k := entry.(
        descriptor := entry.descriptor.(version := pin.version, versionHash := pin.versionHash),
        state := Active,
        injectedKeys := if oldState == PendingActivation then [] else entry.injectedKeys,
        lastRollbackTick := Some(currentTick),
        detector := entry.detector.(timestamps := []))];
      PushTransition(trace, id, RollingBack, Active, trigger);
      TwoHops(Hop(trace, id, oldState, RollingBack, trigger, currentTick), Hop(trace, id, RollingBack, Active, trigger, currentTick));
      return Success(pin);
    }

    method Rollback(id: string, trace: string) returns (r: Result<KnownGoodPin, LifecycleError>)
      modifies this
      ensures Everything() == Advance(old(Everything()), Invoke(id, Command.Rollback, trace))
      ensures PinReply(r) == Step(old(State()), Invoke(id, Command.Rollback, trace)).1
      ensures old(Valid()) ==> Valid()
    {
      Keep(Invoke(id, Command.Rollback, trace));
      var k := FindComponent(id);
      if k.None? {
        return Failure(ComponentNotFound(id));
      }
      r := DoRollback(k.value, id, Manual, trace);
    }

    // The crash report on the component found at position k, and the rollback it may trigger.
    method DoReportCrash(k: nat, id: string, trace: string) returns (r: Result<Option<KnownGoodPin>, LifecycleError>)
      requires k < |components|
      modifies this
      ensures State() == Absorb(old(State()), k, OnReportCrash(currentTick, trace, id, old(components)[k]))
      ensures drained == old(drained)
      ensures CrashReply(r) == OnReportCrash(currentTick, trace, id, old(components)[k]).reply
    {
      Idle(k);
      var entry := components[k];
      if entry.state == Inactive {
        return Failure(InvalidTransition(Inactive, RollingBack));
      }
      var detector, isLoop := RecordCrash(entry.detector, currentTick);
      components := components[k := entry.(detector := detector)];
      var note := Note(trace, CrashReported, id, currentTick);
      events := events + [note];
      OneHop(note);
      if isLoop {
        var pin := DoRollback(k, id, CrashLoop, trace);
        NoteFirst(note, RollBack(currentTick, trace, id, entry.(detector := detector), CrashLoop).log);
        if pin.Failure? {
          return Failure(pin.error);
        }
        return Success(Some(pin.value));
      }
      return Success(None);
    }

    method ReportCrash(id: string, trace: string) returns (r: Result<Option<KnownGoodPin>, LifecycleError>)
      modifies this
      ensures Everything() == Advance(old(Everything()), Invoke(id, Command.ReportCrash, trace))
      ensures CrashReply(r) == Step(old(State()), Invoke(id, Command.ReportCrash, trace)).1
      ensures old(Valid()) ==> Valid()
    {
      Keep(Invoke(id, Command.ReportCrash, trace));
      var k := FindComponent(id);
      if k.None? {
        return Failure(ComponentNotFound(id));
      }
      r := DoReportCrash(k.value, id, trace);
    }

    method DoDeactivate(k: nat, id: string, trace: string)
      returns (r: Result<(), LifecycleError>)
      requires k < |components|
      modifies this
      ensures State() == Absorb(old(State()), k, OnDeactivate(currentTick, trace, id, old(components)[k]))
      ensures drained == old(drained) && UnitReply(r) == OnDeactivate(currentTick, trace, id, old(components)[k]).reply
    {
      Idle(k);
      var entry := components[k];
      if entry.state != Active {
        return Failure(InvalidTransition(entry.state, Inactive));
      }
      components := components[k := entry.(state := Inactive, injectedKeys := [])];
      PushTransition(trace, id, Active, Inactive, Manual);
      OneHop(events[|events| - 1]);
      return Success(());
    }

    method Deactivate(id: string, trace: string) returns (r: Result<(), LifecycleError>)
      modifies this
      ensures Everything() == Advance(old(Everything()), Invoke(id, Command.Deactivate, trace))
      ensures UnitReply(r) == Step(old(State()), Invoke(id, Command.Deactivate, trace)).1
      ensures old(Valid()) ==> Valid()
    {
      Keep(Invoke(id, Command.Deactivate, trace));
      var k := FindComponent(id);
      if k.None? {
        return Failure(ComponentNotFound(id));
      }
      r := DoDeactivate(k.value, id, trace);
    }

    // A valid controller stays valid under every call that renames nothing.
    lemma Keep(call: Call)
      requires call.Invoke? ==> !call.cmd.BeginUpdate?
      ensures Valid() ==> Inv(Advance(Everything(), call))
    {
      if Valid() {
        StepKeepsInvIff(Everything(), call);
      }
    }

    lemma KeepUnlessRenamed(call: Call)
      ensures Valid() ==> (Inv(Advance(Everything(), call)) <==> !Renames(Everything(), call))
    {
      if Valid() {
        StepKeepsInvIff(Everything(), call);
      }
    }

    // A refused call absorbs nothing.
    lemma Idle(k: nat)
      requires k < |components|
      ensures forall error :: Absorb(State(), k, Refuse(components[k], error)) == State()
    {
      assert components[k := components[k]] == components;
      assert events + [] == events;
    }
  }

  lemma OneHop(x: LifecycleEvent)
    ensures Hops([x]) == if IsHop(x) then [x] else []
  {
    assert [x][..0] == [];
  }

  lemma TwoHops(x: LifecycleEvent, y: LifecycleEvent)
    requires IsHop(x) && IsHop(y)
    ensures Hops([x, y]) == [x, y]
  {
    assert [x, y][..1] == [x];
    OneHop(x);
  }

  lemma NoteFirst(x: LifecycleEvent, log: seq<LifecycleEvent>)
    requires !IsHop(x)
    ensures Hops([x] + log) == Hops(log)
  {
    HopsAppend([x], log);
    OneHop(x);
  }
}
