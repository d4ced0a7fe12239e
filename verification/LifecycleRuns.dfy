/** Whole runs of the lifecycle controller. */
module LifecycleRuns {
  import opened Machine
  import opened Lifecycle
  import opened LifecycleAudit

  // The controller together with every event drained from it so far.
  datatype World = World(ctl: Controller, drained: seq<LifecycleEvent>)

  function Log(w: World): seq<LifecycleEvent> {
    w.drained + w.ctl.events
  }

  function Start(cfg: LifecycleConfig): World {
    World(Controller(cfg, [], [], 0, 0), [])
  }

  function Advance(w: World, call: Call): World {
    World(Step(w.ctl, call).0, if call.DrainEvents? then Log(w) else w.drained)
  }

  function Run(w: World, calls: seq<Call>): World {
    if calls == [] then w else Advance(Run(w, calls[..|calls| - 1]), calls[|calls| - 1])
  }

  /** The call updates a component, which nothing forbids, to a descriptor with another id. */
  predicate Renames(w: World, call: Call) {
    && call.Invoke?
    && var k := IndexOf(w.ctl.components, call.id);
       k.Some? && Renamed(w.ctl.config, w.ctl.tick, call.id, w.ctl.components[k.value], call.cmd)
  }

  // No call of the run renames a component.
  predicate KeepsIds(w: World, calls: seq<Call>) {
    forall i :: 0 <= i < |calls| ==> !Renames(Run(w, calls[..i]), calls[i])
  }

  function IdAt(w: World, k: nat): string
    requires k < |w.ctl.components|
  {
    w.ctl.components[k].descriptor.componentId
  }

  predicate DistinctIds(w: World) {
    forall i, j :: 0 <= i < j < |w.ctl.components| ==> IdAt(w, i) != IdAt(w, j)
  }

  predicate Tracked(w: World, k: nat)
    requires k < |w.ctl.components|
  {
    var e := w.ctl.components[k];
    Sound(IdAt(w, k), e) && Logged(w.ctl.config, e, Of(Log(w), IdAt(w, k)))
  }

  predicate Registered(w: World, id: string) {
    IndexOf(w.ctl.components, id).Some?
  }

  ghost predicate Inv(w: World) {
    && DistinctIds(w)
    && (forall k :: 0 <= k < |w.ctl.components| ==> Tracked(w, k))
    && (forall id :: !Registered(w, id) ==> Of(Log(w), id) == [])
    && w.ctl.transitionCount == Min(|Hops(Log(w))|, U64_MAX)
  }

  // ----- appending to the log -----

  predicate About(evs: seq<LifecycleEvent>, id: string) {
    forall i :: 0 <= i < |evs| ==> evs[i].componentId == id
  }

  lemma {:induction false} OfAppend(log: seq<LifecycleEvent>, evs: seq<LifecycleEvent>, owner: string, id: string)
    requires About(evs, owner)
    ensures Of(log + evs, id) == if id == owner then Of(log, id) + evs else Of(log, id)
  {
    if evs == [] {
      assert log + evs == log;
    } else {
      var n := |evs| - 1;
      assert (log + evs)[..|log + evs| - 1] == log + evs[..n];
      assert evs == evs[..n] + [evs[n]];
      OfAppend(log, evs[..n], owner, id);
    }
  }

  lemma {:induction false} HopsAppend(log: seq<LifecycleEvent>, evs: seq<LifecycleEvent>)
    ensures Hops(log + evs) == Hops(log) + Hops(evs)
  {
    if evs == [] {
      assert log + evs == log;
    } else {
      var n := |evs| - 1;
      assert (log + evs)[..|log + evs| - 1] == log + evs[..n];
      HopsAppend(log, evs[..n]);
    }
  }

  lemma ReactionIsAbout(cfg: LifecycleConfig, tick: nat, trace: string, id: string, e: ComponentEntry, cmd: Command)
    ensures About(React(cfg, tick, trace, id, e, cmd).log, id)
  {
  }

  // ----- one call -----

  function Absorbed(w: World, k: nat, r: Reaction): World
    requires k < |w.ctl.components|
  {
    World(Absorb(w.ctl, k, r), w.drained)
  }

  lemma LogOfAbsorbed(w: World, k: nat, r: Reaction)
    requires k < |w.ctl.components| && w.ctl.transitionCount == Min(|Hops(Log(w))|, U64_MAX)
    ensures Log(Absorbed(w, k, r)) == Log(w) + r.log
    ensures Absorbed(w, k, r).ctl.transitionCount == Min(|Hops(Log(Absorbed(w, k, r)))|, U64_MAX)
  {
    HopsAppend(Log(w), r.log);
    assert Log(Absorbed(w, k, r)) == Log(w) + r.log;
  }

  lemma OneTracked(w: World, k: nat, r: Reaction, id: string, j: nat)
    requires Inv(w) && k < |w.ctl.components| && j < |w.ctl.components| && IdAt(w, k) == id && About(r.log, id)
    requires Sound(id, r.entry) && Logged(w.ctl.config, r.entry, Of(Log(w), id) + r.log)
    ensures IdAt(Absorbed(w, k, r), j) == IdAt(w, j) && Tracked(Absorbed(w, k, r), j)
  {
    LogOfAbsorbed(w, k, r);
    OfAppend(Log(w), r.log, id, IdAt(w, j));
    assert Tracked(w, j);
    assert j != k ==> IdAt(w, j) != id;
  }

  lemma AbsorbKeepsInv(w: World, k: nat, r: Reaction, id: string)
    requires Inv(w) && k < |w.ctl.components| && IdAt(w, k) == id && About(r.log, id)
    requires Sound(id, r.entry) && Logged(w.ctl.config, r.entry, Of(Log(w), id) + r.log)
    ensures Inv(Absorbed(w, k, r))
  {
    var w' := Absorbed(w, k, r);
    forall j | 0 <= j < |w.ctl.components| ensures IdAt(w', j) == IdAt(w, j) && Tracked(w', j) {
      OneTracked(w, k, r, id, j);
    }
    SameIds(w, w');
    LogOfAbsorbed(w, k, r);
    assert Registered(w, id);
    forall other | !Registered(w', other) ensures Of(Log(w'), other) == [] {
      OfAppend(Log(w), r.log, id, other);
    }
  }

  lemma InvokeKeepsInv(w: World, id: string, cmd: Command, trace: string)
    requires Inv(w) && !Renames(w, Invoke(id, cmd, trace))
    ensures Inv(Advance(w, Invoke(id, cmd, trace)))
  {
    match IndexOf(w.ctl.components, id) {
      case None =>
      case Some(k) =>
        var e := w.ctl.components[k];
        var r := React(w.ctl.config, w.ctl.tick, trace, id, e, cmd);
        assert Tracked(w, k);
        ReactionIsAbout(w.ctl.config, w.ctl.tick, trace, id, e, cmd);
        ReactionIsSound(w.ctl.config, w.ctl.tick, trace, id, e, cmd);
        ReactionIsLogged(w.ctl.config, w.ctl.tick, trace, id, e, Of(Log(w), id), cmd);
        AbsorbKeepsInv(w, k, r, id);
        assert Advance(w, Invoke(id, cmd, trace)) == Absorbed(w, k, r);
    }
  }

  lemma SameIds(w: World, w': World)
    requires |w'.ctl.components| == |w.ctl.components|
    requires forall j :: 0 <= j < |w.ctl.components| ==> IdAt(w', j) == IdAt(w, j)
    ensures DistinctIds(w) ==> DistinctIds(w')
    ensures forall id :: Registered(w', id) <==> Registered(w, id)
  {
    forall id ensures Registered(w', id) <==> Registered(w, id) {
      var a, b := IndexOf(w.ctl.components, id), IndexOf(w'.ctl.components, id);
      if a.Some? { assert IdAt(w', a.value) == id; }
      if b.Some? { assert IdAt(w, b.value) == id; }
    }
  }

  lemma FreshIsTracked(cfg: LifecycleConfig, d: ComponentDescriptor, note: LifecycleEvent)
    requires !IsHop(note) && note.event == ComponentRegistered
    ensures Sound(d.componentId, Fresh(cfg, d)) && Logged(cfg, Fresh(cfg, d), [note])
  {
    PushNote([], note);
    assert [] + [note] == [note];
  }

  function Extended(w: World, e: ComponentEntry, note: LifecycleEvent): World {
    World(w.ctl.(components := w.ctl.components + [e], events := w.ctl.events + [note]), w.drained)
  }

  lemma OneTrackedAfterRegister(w: World, d: ComponentDescriptor, note: LifecycleEvent, k: nat)
    requires Inv(w) && !Registered(w, d.componentId) && k <= |w.ctl.components|
    requires !IsHop(note) && note.event == ComponentRegistered && note.componentId == d.componentId
    ensures Tracked(Extended(w, Fresh(w.ctl.config, d), note), k)
  {
    var id := d.componentId;
    var w' := Extended(w, Fresh(w.ctl.config, d), note);
    assert Log(w') == Log(w) + [note];
    OfAppend(Log(w), [note], id, IdAt(w', k));
    if k < |w.ctl.components| {
      assert Tracked(w, k) && IdAt(w, k) != id;
    } else {
      FreshIsTracked(w.ctl.config, d, note);
      assert Of(Log(w), id) + [note] == [note];
    }
  }

  lemma RegisterKeepsInv(w: World, d: ComponentDescriptor, trace: string)
    requires Inv(w)
    ensures Inv(Advance(w, Register(d, trace)))
  {
    if !Registered(w, d.componentId) {
      var e := Fresh(w.ctl.config, d);
      var note := Note(trace, ComponentRegistered, d.componentId, w.ctl.tick);
      ExtendKeepsInv(w, d, note);
      assert Advance(w, Register(d, trace)) == Extended(w, e, note);
    }
  }

  lemma ExtendKeepsInv(w: World, d: ComponentDescriptor, note: LifecycleEvent)
    requires Inv(w) && !Registered(w, d.componentId)
    requires !IsHop(note) && note.event == ComponentRegistered && note.componentId == d.componentId
    ensures Inv(Extended(w, Fresh(w.ctl.config, d), note))
  {
    var e := Fresh(w.ctl.config, d);
    var w' := Extended(w, e, note);
    assert Log(w') == Log(w) + [note];
    HopsAppend(Log(w), [note]);
    assert Hops([note]) == [];
    assert Hops(Log(w')) == Hops(Log(w));
    forall i, j | 0 <= i < j < |w'.ctl.components| ensures IdAt(w', i) != IdAt(w', j) {
      assert IdAt(w', i) == IdAt(w, i);
      assert j < |w.ctl.components| ==> IdAt(w', j) == IdAt(w, j);
    }
    forall k | 0 <= k < |w'.ctl.components| ensures Tracked(w', k) {
      OneTrackedAfterRegister(w, d, note, k);
    }
    forall other | !Registered(w', other) ensures Of(Log(w'), other) == [] {
      OfAppend(Log(w), [note], d.componentId, other);
      StillUnregistered(w.ctl.components, e, other);
    }
  }

  lemma StillUnregistered(components: seq<ComponentEntry>, e: ComponentEntry, id: string)
    requires IndexOf(components + [e], id).None?
    ensures IndexOf(components, id).None? && e.descriptor.componentId != id
  {
    assert (components + [e])[..|components|] == components;
  }

  lemma StepKeepsInv(w: World, call: Call)
    requires Inv(w) && !Renames(w, call)
    ensures Inv(Advance(w, call))
  {
    match call {
      case Register(d, trace) => RegisterKeepsInv(w, d, trace);
      case Invoke(id, cmd, trace) => InvokeKeepsInv(w, id, cmd, trace);
      case _ =>
        var w' := Advance(w, call);
        assert Log(w') == Log(w);
        SameIds(w, w');
        forall k | 0 <= k < |w.ctl.components| ensures Tracked(w', k) {
          assert Tracked(w, k);
        }
    }
  }

  lemma KeepsIdsPrefix(w: World, calls: seq<Call>, n: nat)
    requires n <= |calls| && KeepsIds(w, calls)
    ensures KeepsIds(w, calls[..n])
  {
    forall i | 0 <= i < n ensures !Renames(Run(w, calls[..n][..i]), calls[..n][i]) {
      assert calls[..n][..i] == calls[..i];
    }
  }

  /** Every state of a run satisfies the invariant, as long as no update renames its component. */
  lemma {:induction false} RunKeepsInv(cfg: LifecycleConfig, calls: seq<Call>)
    requires KeepsIds(Start(cfg), calls)
    ensures Inv(Run(Start(cfg), calls))
  {
    if calls != [] {
      var n := |calls| - 1;
      KeepsIdsPrefix(Start(cfg), calls, n);
      RunKeepsInv(cfg, calls[..n]);
      StepKeepsInv(Run(Start(cfg), calls[..n]), calls[n]);
    }
  }

  ghost predicate InvAfter(w: World, calls: seq<Call>, n: nat)
    requires n <= |calls|
  {
    Inv(Run(w, calls[..n]))
  }

  /** The invariant holds throughout a run if and only if no update in it renames its component. */
  lemma RunKeepsInvIff(cfg: LifecycleConfig, calls: seq<Call>)
    ensures (forall n :: 0 <= n <= |calls| ==> InvAfter(Start(cfg), calls, n)) <==> KeepsIds(Start(cfg), calls)
  {
    var w := Start(cfg);
    if KeepsIds(w, calls) {
      forall n | 0 <= n <= |calls| ensures InvAfter(w, calls, n) {
        KeepsIdsPrefix(w, calls, n);
        RunKeepsInv(cfg, calls[..n]);
      }
    }
    if forall n :: 0 <= n <= |calls| ==> InvAfter(w, calls, n) {
      forall i | 0 <= i < |calls| ensures !Renames(Run(w, calls[..i]), calls[i]) {
        assert InvAfter(w, calls, i) && InvAfter(w, calls, i + 1);
        RunOneMore(w, calls, i);
        StepKeepsInvIff(Run(w, calls[..i]), calls[i]);
      }
    }
  }

  lemma RunOneMore(w: World, calls: seq<Call>, i: nat)
    requires i < |calls|
    ensures Run(w, calls[..i + 1]) == Advance(Run(w, calls[..i]), calls[i])
  {
    assert calls[..i + 1][..i] == calls[..i];
  }

  // ----- what the log tells -----

  /** The audit log, drained part included, determines the state of every component, each event continues the state the
      earlier ones left, and the transition counter counts the transitions until it saturates. */
  lemma AuditLogIsComplete(cfg: LifecycleConfig, calls: seq<Call>, k: nat)
    requires KeepsIds(Start(cfg), calls)
    requires k < |Run(Start(cfg), calls).ctl.components|
    ensures var w := Run(Start(cfg), calls);
            var hops := Hops(Of(Log(w), IdAt(w, k)));
            && w.ctl.components[k].state == StateAfter(hops)
            && Linked(hops)
            && w.ctl.transitionCount == Min(|Hops(Log(w))|, U64_MAX)
  {
    RunKeepsInv(cfg, calls);
    assert Tracked(Run(Start(cfg), calls), k);
  }

  /** One call keeps the invariant if and only if it does not rename a component. */
  lemma StepKeepsInvIff(w: World, call: Call)
    requires Inv(w)
    ensures Inv(Advance(w, call)) <==> !Renames(w, call)
  {
    if Renames(w, call) {
      RenamingLosesTrack(w, call.id, call.cmd.descriptor, call.cmd.seqNo, call.trace);
    } else {
      StepKeepsInv(w, call);
    }
  }

  // A component whose log says nothing of it must be inactive.
  lemma UnloggedIsInactive(w: World, k: nat)
    requires k < |w.ctl.components| && Of(Log(w), IdAt(w, k)) == [] && Tracked(w, k)
    ensures w.ctl.components[k].state == Inactive
  {
    assert Hops([]) == [];
  }

  lemma RenamedState(w: World, id: string, d: ComponentDescriptor, seqNo: nat, trace: string)
    requires Renames(w, Invoke(id, BeginUpdate(d, seqNo), trace))
    ensures var k := IndexOf(w.ctl.components, id).value;
            var r := OnBeginUpdate(w.ctl.config, w.ctl.tick, trace, id, w.ctl.components[k], d, seqNo);
            && Advance(w, Invoke(id, BeginUpdate(d, seqNo), trace)) == Absorbed(w, k, r)
            && r.entry.descriptor == d && r.entry.state == Updating(Shadow) && About(r.log, id)
  {
  }

  lemma RenamingLosesTrack(w: World, id: string, d: ComponentDescriptor, seqNo: nat, trace: string)
    requires Inv(w) && Renames(w, Invoke(id, BeginUpdate(d, seqNo), trace))
    ensures !Inv(Advance(w, Invoke(id, BeginUpdate(d, seqNo), trace)))
  {
    var k := IndexOf(w.ctl.components, id).value;
    var r := OnBeginUpdate(w.ctl.config, w.ctl.tick, trace, id, w.ctl.components[k], d, seqNo);
    var w' := Absorbed(w, k, r);
    RenamedState(w, id, d, seqNo, trace);
    var j := IndexOf(w.ctl.components, d.componentId);
    if j.Some? {
      assert IdAt(w', j.value) == d.componentId == IdAt(w', k) && j.value != k;
    } else {
      LogOfAbsorbed(w, k, r);
      OfAppend(Log(w), r.log, id, d.componentId);
      if Tracked(w', k) {
        UnloggedIsInactive(w', k);
      }
      assert !Tracked(w', k);
    }
  }

  // ----- a run that renames -----

  function Named(id: string): ComponentDescriptor {
    ComponentDescriptor(id, "1", "h", {})
  }

  function Activation(id: string, seqNo: nat): seq<Call> {
    [Invoke(id, BeginActivation(true), ""), Invoke(id, CompleteActivation(seqNo), "")]
  }

  lemma RunSplit(w: World, a: seq<Call>, b: seq<Call>)
    ensures Run(w, a + b) == Run(Run(w, a), b)
    decreases |b|
  {
    if b == [] {
      assert a + b == a;
    } else {
      assert (a + b)[..|a + b| - 1] == a + b[..|b| - 1];
      RunSplit(w, a, b[..|b| - 1]);
    }
  }

  lemma RunTwo(w: World, x: Call, y: Call)
    ensures Run(w, [x]) == Advance(w, x) && Run(w, [x, y]) == Advance(Advance(w, x), y)
  {
    assert [x][..0] == [] && [x, y][..1] == [x];
  }

  /** An inactive component in first place becomes active, pinned and checkpointed by two calls. */
  lemma ActivationWorks(w: World, id: string, seqNo: nat)
    requires w.ctl.components != [] && w.ctl.components[0].descriptor.componentId == id && w.ctl.components[0].state == Inactive
    ensures var c := Run(w, Activation(id, seqNo)).ctl;
            && c.config == w.ctl.config && |c.components| == |w.ctl.components|
            && c.components[0] == w.ctl.components[0].(state := Active, checkpointSeq := Some(seqNo),
                                                       knownGood := Some(PinFor(id, w.ctl.components[0].descriptor, w.ctl.tick)))
  {
    var x, y := Invoke(id, BeginActivation(true), ""), Invoke(id, CompleteActivation(seqNo), "");
    RunTwo(w, x, y);
    FoundFirst(w.ctl.components, id);
    FoundFirst(Advance(w, x).ctl.components, id);
  }

  lemma FoundFirst(components: seq<ComponentEntry>, id: string)
    requires components != [] && components[0].descriptor.componentId == id
    ensures IndexOf(components, id) == Some(0)
  {
    var k := IndexOf(components, id);
    assert k.Some? ==> k.value == 0;
  }

  lemma Registration(cfg: LifecycleConfig, id: string)
    ensures var w := Run(Start(cfg), [Register(Named(id), "")]);
            && w.ctl.config == cfg && w.ctl.components == [Fresh(cfg, Named(id))]
  {
    RunTwo(Start(cfg), Register(Named(id), ""), DrainEvents);
  }

  function Installation(id: string, seqNo: nat): seq<Call> {
    [Register(Named(id), "")] + Activation(id, seqNo)
  }

  lemma InstallationWorks(cfg: LifecycleConfig, id: string, seqNo: nat)
    ensures var w := Run(Start(cfg), Installation(id, seqNo));
            && Inv(w) && |w.ctl.components| == 1 && w.ctl.components[0].descriptor == Named(id)
            && w.ctl.components[0].state == Active && w.ctl.components[0].checkpointSeq == Some(seqNo)
            && w.ctl.components[0].lastRollbackTick == None
  {
    var register := Register(Named(id), "");
    var w1 := Run(Start(cfg), [register]);
    Registration(cfg, id);
    RunSplit(Start(cfg), [register], Activation(id, seqNo));
    ActivationWorks(w1, id, seqNo);
    RunTwo(Start(cfg), register, register);
    StartIsInv(cfg);
    StepKeepsInv(Start(cfg), register);
    ActivationKeepsInv(w1, id, seqNo);
  }

  /** Renaming is no hypothetical: an active component takes on another id, and loses its log. */
  lemma RenamingHappens(cfg: LifecycleConfig)
    ensures !Inv(Run(Start(cfg), Installation("a", 5) + [Invoke("a", BeginUpdate(Named("b"), 5), "")]))
  {
    var update := Invoke("a", BeginUpdate(Named("b"), 5), "");
    var w := Run(Start(cfg), Installation("a", 5));
    InstallationWorks(cfg, "a", 5);
    FoundFirst(w.ctl.components, "a");
    OtherNames();
    StepKeepsInvIff(w, update);
    RunSplit(Start(cfg), Installation("a", 5), [update]);
    RunTwo(w, update, update);
  }

  lemma OtherNames()
    ensures Named("b").componentId != "a"
  {
    assert "b"[0] != "a"[0];
  }

  lemma StartIsInv(cfg: LifecycleConfig)
    ensures Inv(Start(cfg))
  {
  }

  lemma ActivationKeepsInv(w: World, id: string, seqNo: nat)
    requires Inv(w)
    ensures Inv(Run(w, Activation(id, seqNo)))
  {
    var x, y := Invoke(id, BeginActivation(true), ""), Invoke(id, CompleteActivation(seqNo), "");
    RunTwo(w, x, y);
    StepKeepsInv(w, x);
    StepKeepsInv(Advance(w, x), y);
  }
}
