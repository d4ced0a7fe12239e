/** Safety of the lifecycle over whole runs: rollback, pins, holdoff, checkpoints and crash loops. */
module LifecycleSafety {
  import opened Machine
  import opened Lifecycle
  import opened LifecycleAudit
  import opened LifecycleRuns

  // ----- the effect of one call on one component -----

  predicate Targets(w: World, call: Call, k: nat)
    requires k < |w.ctl.components|
  {
    call.Invoke? && call.id == IdAt(w, k)
  }

  function Outcome(w: World, call: Call, k: nat): Reaction
    requires k < |w.ctl.components| && Targets(w, call, k)
  {
    React(w.ctl.config, w.ctl.tick, call.trace, call.id, w.ctl.components[k], call.cmd)
  }

  /** A call changes the component it names and no other. */
  lemma OnlyTheTargetChanges(w: World, call: Call, k: nat)
    requires Inv(w) && k < |w.ctl.components|
    ensures var w' := Advance(w, call);
            && k < |w'.ctl.components| && w'.ctl.config == w.ctl.config
            && w'.ctl.components[k] == (if Targets(w, call, k) then Outcome(w, call, k).entry else w.ctl.components[k])
            && (Targets(w, call, k) ==> Step(w.ctl, call).1 == Outcome(w, call, k).reply)
  {
    if call.Invoke? {
      var j := IndexOf(w.ctl.components, call.id);
      if j.Some? {
        assert IdAt(w, j.value) == call.id;
        assert IdAt(w, k) == call.id ==> j.value == k;
      }
    }
  }

  /** A failed call leaves the controller as it was, except that a crash report whose automatic rollback finds no pin
      keeps the crash it recorded. */
  lemma FailedCallsChangeNothing(c: Controller, call: Call)
    requires Step(c, call).1.Failed? && c.transitionCount <= U64_MAX
    ensures var k := if call.Invoke? then IndexOf(c.components, call.id) else None;
            Step(c, call).0 ==
            if k.Some? && call.cmd.ReportCrash? && c.components[k.value].state != Inactive then
              var e := c.components[k.value];
              c.(components := c.components[k.value := e.(detector := Lifecycle.Recorded(e.detector, c.tick))],
                 events := c.events + [Note(call.trace, CrashReported, call.id, c.tick)])
            else c
  {
    if call.Invoke? {
      var k := IndexOf(c.components, call.id);
      if k.Some? {
        var e := c.components[k.value];
        assert c.components[k.value := e] == c.components;
        assert c.events + [] == c.events;
        var r := React(c.config, c.tick, call.trace, call.id, e, call.cmd);
        assert Hops(r.log) == [];
      }
    }
  }

  // ----- rollback -----

  /** Rollback succeeds exactly for components that have run before and are not inactive; those include every active and
      every updating one. It restores the pinned version and keeps the pin. */
  lemma RollbackSucceedsIff(w: World, k: nat, trace: string)
    requires Inv(w) && k < |w.ctl.components|
    ensures var e := w.ctl.components[k];
            var call := Invoke(IdAt(w, k), Rollback, trace);
            var e' := Advance(w, call).ctl.components[k];
            && (Step(w.ctl, call).1.RolledBack? <==> e.state != Inactive && e.knownGood.Some?)
            && (e.state == Active || e.state.Updating? ==> Step(w.ctl, call).1.RolledBack?)
            && (Step(w.ctl, call).1.RolledBack? ==>
                  && e'.state == Active && e'.knownGood == e.knownGood && Step(w.ctl, call).1.pin == e.knownGood.value
                  && e'.descriptor.version == e.knownGood.value.version
                  && e'.descriptor.versionHash == e.knownGood.value.versionHash
                  && e'.descriptor.capabilitiesRequired == e.descriptor.capabilitiesRequired)
  {
    OnlyTheTargetChanges(w, Invoke(IdAt(w, k), Rollback, trace), k);
    assert Tracked(w, k);
  }

  // ----- known-good pins -----

  function Endpoints(x: LifecycleEvent): (Option<LifecycleState>, Option<LifecycleState>) {
    (x.fromState, x.toState)
  }

  /** A completed trail is exactly the four state changes of a full rollout, started under the recorded versions. */
  lemma TrailIsFullRollout(hops: seq<LifecycleEvent>, old': string, new': string)
    requires Trail(hops, Default, old', new')
    ensures |hops| >= 4
    ensures var n := |hops|;
            && hops[n - 4].event == UpdateStarted
            && hops[n - 4].fromVersion == Some(old') && hops[n - 4].toVersion == Some(new')
            && Endpoints(hops[n - 4]) == (Some(Active), Some(Updating(Shadow)))
            && Endpoints(hops[n - 3]) == (Some(Updating(Shadow)), Some(Updating(Canary)))
            && Endpoints(hops[n - 2]) == (Some(Updating(Canary)), Some(Updating(Ramp)))
            && Endpoints(hops[n - 1]) == (Some(Updating(Ramp)), Some(Updating(Default)))
  {
    var a := hops[..|hops| - 1];
    var b := a[..|a| - 1];
    var c := b[..|b| - 1];
    assert Trail(a, Ramp, old', new') && Trail(b, Canary, old', new') && Trail(c, Shadow, old', new');
  }

  lemma ReactionPins(cfg: LifecycleConfig, tick: nat, trace: string, id: string, e: ComponentEntry, cmd: Command)
    requires Sound(id, e)
    ensures var pin := React(cfg, tick, trace, id, e, cmd).entry.knownGood;
            pin != e.knownGood ==>
              && pin == Some(PinFor(id, e.descriptor, tick))
              && ((cmd.CompleteActivation? && e.state == PendingActivation) ||
                  (cmd.AdvanceRollout? && e.state == Updating(Default) && e.knownGood.Some?))
  {
  }

  /** A pin changes only when a pending activation completes or a rollout finalizes; a finalization follows a full rollout
      in the component's log and pins the version that update began. */
  lemma PinsChangeOnlyByPromotion(w: World, call: Call, k: nat)
    requires Inv(w) && k < |w.ctl.components|
    requires Advance(w, call).ctl.components[k].knownGood != w.ctl.components[k].knownGood
    ensures Targets(w, call, k)
    ensures var e := w.ctl.components[k];
            var pin := Advance(w, call).ctl.components[k].knownGood;
            && pin == Some(PinFor(IdAt(w, k), e.descriptor, w.ctl.tick))
            && ((call.cmd.CompleteActivation? && e.state == PendingActivation) ||
                (call.cmd.AdvanceRollout? && e.state == Updating(Default) && e.knownGood.Some? &&
                 Trail(Hops(Of(Log(w), IdAt(w, k))), Default, e.knownGood.value.version, pin.value.version)))
  {
    OnlyTheTargetChanges(w, call, k);
    assert Tracked(w, k);
    if Targets(w, call, k) {
      ReactionPins(w.ctl.config, w.ctl.tick, call.trace, call.id, w.ctl.components[k], call.cmd);
    }
  }

  // ----- holdoff -----

  /** With a positive holdoff an update starts no earlier than that long after the last rollback in the log, whatever the
      clock did in between. */
  lemma UpdatesRespectHoldoff(w: World, k: nat, d: ComponentDescriptor, seqNo: nat, trace: string)
    requires Inv(w) && k < |w.ctl.components| && w.ctl.config.rollbackHoldoffTicks > 0
    requires Step(w.ctl, Invoke(IdAt(w, k), BeginUpdate(d, seqNo), trace)).1 == Done
    ensures var last := LastRollback(Of(Log(w), IdAt(w, k)));
            last.Some? ==> w.ctl.tick >= last.value + w.ctl.config.rollbackHoldoffTicks
  {
    OnlyTheTargetChanges(w, Invoke(IdAt(w, k), BeginUpdate(d, seqNo), trace), k);
    assert Tracked(w, k);
  }

  // ----- checkpoints -----

  predicate Lowers(before: Option<nat>, after: Option<nat>) {
    before.Some? && (after.None? || after.value < before.value)
  }

  lemma ReactionCheckpoint(cfg: LifecycleConfig, tick: nat, trace: string, id: string, e: ComponentEntry, cmd: Command)
    ensures Lowers(e.checkpointSeq, React(cfg, tick, trace, id, e, cmd).entry.checkpointSeq) <==>
            cmd.CompleteActivation? && e.state == PendingActivation && e.checkpointSeq.Some? && cmd.seqNo < e.checkpointSeq.value
  {
  }

  // The call completes an activation of component k with an older sequence number than the recorded one.
  predicate CompletesOlder(w: World, call: Call, k: nat) {
    && k < |w.ctl.components| && Targets(w, call, k) && call.cmd.CompleteActivation?
    && var e := w.ctl.components[k];
       e.state == PendingActivation && e.checkpointSeq.Some? && call.cmd.seqNo < e.checkpointSeq.value
  }

  /** The one way a recorded checkpoint can go back: completing an activation with an older sequence number. */
  lemma CheckpointLoweredIff(w: World, call: Call, k: nat)
    requires Inv(w) && k < |w.ctl.components|
    ensures Lowers(w.ctl.components[k].checkpointSeq, Advance(w, call).ctl.components[k].checkpointSeq) <==>
            CompletesOlder(w, call, k)
  {
    OnlyTheTargetChanges(w, call, k);
    if Targets(w, call, k) {
      ReactionCheckpoint(w.ctl.config, w.ctl.tick, call.trace, call.id, w.ctl.components[k], call.cmd);
    }
  }

  /** It can: an activation with number 5, a deactivation, and an activation with number 3. */
  lemma CheckpointCanGoBack(cfg: LifecycleConfig)
    ensures var calls := Installation("a", 5) + ([Invoke("a", Deactivate, "")] + Activation("a", 3));
            var before, after := Run(Start(cfg), Installation("a", 5)), Run(Start(cfg), calls);
            && |before.ctl.components| == |after.ctl.components| == 1
            && before.ctl.components[0].checkpointSeq == Some(5) && after.ctl.components[0].checkpointSeq == Some(3)
  {
    var deactivate := Invoke("a", Deactivate, "");
    var w := Run(Start(cfg), Installation("a", 5));
    InstallationWorks(cfg, "a", 5);
    FoundFirst(w.ctl.components, "a");
    RunTwo(w, deactivate, deactivate);
    ActivationWorks(Run(w, [deactivate]), "a", 3);
    RunSplit(w, [deactivate], Activation("a", 3));
    RunSplit(Start(cfg), Installation("a", 5), [deactivate] + Activation("a", 3));
  }

  lemma SameIdAfter(w: World, call: Call, k: nat)
    requires Inv(w) && !Renames(w, call) && k < |w.ctl.components|
    ensures var w' := Advance(w, call); Inv(w') && k < |w'.ctl.components| && IdAt(w', k) == IdAt(w, k)
  {
    StepKeepsInv(w, call);
    OnlyTheTargetChanges(w, call, k);
    assert Tracked(w, k);
    if Targets(w, call, k) {
      ReactionIsSound(w.ctl.config, w.ctl.tick, call.trace, call.id, w.ctl.components[k], call.cmd);
    }
  }

  /** Over every run a component's checkpoint decreases only if some call completes an activation with an older number. */
  lemma {:induction false} CheckpointsNeverRegress(w: World, calls: seq<Call>, k: nat)
    requires Inv(w) && k < |w.ctl.components| && KeepsIds(w, calls)
    requires forall i :: 0 <= i < |calls| ==> !CompletesOlder(Run(w, calls[..i]), calls[i], k)
    ensures var w' := Run(w, calls);
            && Inv(w') && k < |w'.ctl.components| && IdAt(w', k) == IdAt(w, k)
            && !Lowers(w.ctl.components[k].checkpointSeq, w'.ctl.components[k].checkpointSeq)
  {
    if calls != [] {
      var n := |calls| - 1;
      var mid := Run(w, calls[..n]);
      KeepsIdsPrefix(w, calls, n);
      assert forall i :: 0 <= i < n ==> calls[..n][..i] == calls[..i];
      CheckpointsNeverRegress(w, calls[..n], k);
      SameIdAfter(mid, calls[n], k);
      CheckpointLoweredIff(mid, calls[n], k);
      assert Run(w, calls) == Advance(mid, calls[n]);
    }
  }

  // ----- crash loops -----

  /** A crash report on a component with a pin never leaves it at its threshold: either the window is not full, or the
      component has been rolled back and its window emptied. */
  lemma CrashReportsEndBelowThreshold(w: World, k: nat, trace: string)
    requires Inv(w) && k < |w.ctl.components| && w.ctl.config.crashThreshold >= 1
    requires w.ctl.components[k].state != Inactive && w.ctl.components[k].knownGood.Some?
    ensures var e' := Advance(w, Invoke(IdAt(w, k), ReportCrash, trace)).ctl.components[k];
            |e'.detector.timestamps| < w.ctl.config.crashThreshold
  {
    OnlyTheTargetChanges(w, Invoke(IdAt(w, k), ReportCrash, trace), k);
    assert Tracked(w, k);
  }

  // A recorded crash i survives until now: no later crash came more than a window after it.
  predicate Survives(crashes: seq<nat>, window: nat, i: nat)
    requires i < |crashes|
  {
    forall j :: i <= j < |crashes| ==> crashes[i] >= SatSub(crashes[j], window)
  }

  function Survivors(crashes: seq<nat>, window: nat, n: nat): seq<nat>
    requires n <= |crashes|
  {
    if n == 0 then []
    else
      var before := Survivors(crashes, window, n - 1);
      if Survives(crashes, window, n - 1) then before + [crashes[n - 1]] else before
  }

  lemma PruneAppend(a: seq<nat>, t: nat, cutoff: nat)
    ensures Prune(a + [t], cutoff) == if t >= cutoff then Prune(a, cutoff) + [t] else Prune(a, cutoff)
  {
    assert (a + [t])[..|a|] == a;
  }

  lemma SurvivesOneMore(crashes: seq<nat>, window: nat, i: nat)
    requires i < |crashes| - 1
    ensures var m := |crashes| - 1;
            Survives(crashes, window, i) <==>
            Survives(crashes[..m], window, i) && crashes[i] >= SatSub(crashes[m], window)
  {
    var m := |crashes| - 1;
    if Survives(crashes[..m], window, i) && crashes[i] >= SatSub(crashes[m], window) {
      forall j | i <= j < |crashes| ensures crashes[i] >= SatSub(crashes[j], window) {
        assert j < m ==> crashes[..m][j] == crashes[j];
      }
    }
  }

  lemma {:induction false} SurvivorsPrune(crashes: seq<nat>, window: nat, n: nat)
    requires n < |crashes|
    ensures var m := |crashes| - 1;
            Survivors(crashes, window, n) == Prune(Survivors(crashes[..m], window, n), SatSub(crashes[m], window))
  {
    if n > 0 {
      var m := |crashes| - 1;
      var front := crashes[..m];
      SurvivorsPrune(crashes, window, n - 1);
      SurvivesOneMore(crashes, window, n - 1);
      assert front[n - 1] == crashes[n - 1];
      if Survives(front, window, n - 1) {
        PruneAppend(Survivors(front, window, n - 1), crashes[n - 1], SatSub(crashes[m], window));
      }
    }
  }

  /** What the detector keeps, for any sequence of ticks: the crashes no later report has pushed out of the window. */
  lemma {:induction false} DetectorKeepsSurvivors(crashes: seq<nat>, window: nat)
    ensures Retained(crashes, window) == Survivors(crashes, window, |crashes|)
  {
    if crashes != [] {
      var m := |crashes| - 1;
      DetectorKeepsSurvivors(crashes[..m], window);
      SurvivorsPrune(crashes, window, m);
      PruneAppend(Retained(crashes[..m], window), crashes[m], SatSub(crashes[m], window));
      assert Survives(crashes, window, m);
    }
  }

  predicate NonDecreasing(ts: seq<nat>) {
    forall i, j :: 0 <= i < j < |ts| ==> ts[i] <= ts[j]
  }

  lemma SurvivesIffInWindow(crashes: seq<nat>, window: nat, i: nat)
    requires NonDecreasing(crashes) && i < |crashes|
    ensures Survives(crashes, window, i) <==> crashes[i] >= SatSub(crashes[|crashes| - 1], window)
  {
    if crashes[i] >= SatSub(crashes[|crashes| - 1], window) {
      forall j | i <= j < |crashes| ensures crashes[i] >= SatSub(crashes[j], window) {
        assert crashes[j] <= crashes[|crashes| - 1];
      }
    }
  }

  /** With a clock that never goes back, the survivors are the crashes within the window of the last one. */
  lemma {:induction false} SurvivorsAreInWindow(crashes: seq<nat>, window: nat, n: nat)
    requires NonDecreasing(crashes) && n <= |crashes| && crashes != []
    ensures Survivors(crashes, window, n) == Prune(crashes[..n], SatSub(crashes[|crashes| - 1], window))
  {
    if n > 0 {
      SurvivorsAreInWindow(crashes, window, n - 1);
      assert crashes[..n] == crashes[..n - 1] + [crashes[n - 1]];
      PruneAppend(crashes[..n - 1], crashes[n - 1], SatSub(crashes[|crashes| - 1], window));
      SurvivesIffInWindow(crashes, window, n - 1);
    }
  }

  /** A crash report triggers recovery exactly when at least threshold of the logged crashes since the last recovery
      survive, this one included; with a clock that never goes back those are the crashes within the window. */
  lemma CrashLoopFiresIff(w: World, k: nat, trace: string)
    requires Inv(w) && k < |w.ctl.components| && w.ctl.components[k].state != Inactive
    ensures var cfg := w.ctl.config;
            var crashes := CrashesSinceReset(Of(Log(w), IdAt(w, k))) + [w.ctl.tick];
            var kept := Survivors(crashes, cfg.crashWindowTicks, |crashes|);
            && (Step(w.ctl, Invoke(IdAt(w, k), ReportCrash, trace)).1 == CrashRecorded <==> |kept| < cfg.crashThreshold)
            && (NonDecreasing(crashes) ==> kept == Prune(crashes, SatSub(w.ctl.tick, cfg.crashWindowTicks)))
  {
    var evs := Of(Log(w), IdAt(w, k));
    var crashes := CrashesSinceReset(evs) + [w.ctl.tick];
    OnlyTheTargetChanges(w, Invoke(IdAt(w, k), ReportCrash, trace), k);
    assert Tracked(w, k);
    ReactionToCrash(w.ctl.config, w.ctl.tick, trace, IdAt(w, k), w.ctl.components[k], evs);
    KeptCrashes(crashes, w.ctl.config.crashWindowTicks);
  }

  lemma ReactionToCrash(cfg: LifecycleConfig, tick: nat, trace: string, id: string, e: ComponentEntry, evs: seq<LifecycleEvent>)
    requires Logged(cfg, e, evs) && e.state != Inactive
    ensures OnReportCrash(tick, trace, id, e).reply == CrashRecorded <==>
            |Retained(CrashesSinceReset(evs) + [tick], cfg.crashWindowTicks)| < cfg.crashThreshold
  {
    var before := CrashesSinceReset(evs);
    assert (before + [tick])[..|before|] == before;
  }

  lemma KeptCrashes(crashes: seq<nat>, window: nat)
    requires crashes != []
    ensures Retained(crashes, window) == Survivors(crashes, window, |crashes|)
    ensures NonDecreasing(crashes) ==>
              Survivors(crashes, window, |crashes|) == Prune(crashes, SatSub(crashes[|crashes| - 1], window))
  {
    DetectorKeepsSurvivors(crashes, window);
    if NonDecreasing(crashes) {
      SurvivorsAreInWindow(crashes, window, |crashes|);
      assert crashes[..|crashes|] == crashes;
    }
  }
}
