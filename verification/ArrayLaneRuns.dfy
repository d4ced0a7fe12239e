/** Whole runs of the fast-lane engine under a fixed policy. */
module ArrayLaneRuns {
  import opened Machine
  import opened Arithmetic
  import opened ArrayLane

  // The engine together with the kind each array was registered with.
  datatype World = World(engine: Engine, initial: map<string, ElementKind>)

  function Start(p: FastLanePolicy, epoch: nat): World {
    World(Engine(Rules(p, epoch, WideningPairs()), map[], [], []), map[])
  }

  function Advance(w: World, call: Call): World {
    World(Step(w.engine, call), if Registers(w.engine, call) then w.initial[call.id := call.kind] else w.initial)
  }

  function Run(w: World, calls: seq<Call>): World {
    if calls == [] then w else Advance(Run(w, calls[..|calls| - 1]), calls[|calls| - 1])
  }

  // ----- totals over all lanes -----

  ghost function TotalOf(f: Lane -> nat, lanes: map<string, Lane>, ids: set<string>): nat
    requires ids <= lanes.Keys
  {
    if ids == {} then 0
    else
      var x :| x in ids;
      f(lanes[x]) + TotalOf(f, lanes, ids - {x})
  }

  function TransitionsOf(l: Lane): nat { |l.transitions| }
  function AccessesOf(l: Lane): nat { l.accessCount }
  function StoresOf(l: Lane): nat { l.storeCount }
  function OobsOf(l: Lane): nat { l.oobCount }

  lemma {:induction false} TotalWithout(f: Lane -> nat, lanes: map<string, Lane>, ids: set<string>, y: string)
    requires ids <= lanes.Keys && y in ids
    ensures TotalOf(f, lanes, ids) == f(lanes[y]) + TotalOf(f, lanes, ids - {y})
    decreases ids
  {
    var x :| x in ids && TotalOf(f, lanes, ids) == f(lanes[x]) + TotalOf(f, lanes, ids - {x});
    if x != y {
      TotalWithout(f, lanes, ids - {x}, y);
      TotalWithout(f, lanes, ids - {y}, x);
      assert ids - {x} - {y} == ids - {y} - {x};
    }
  }

  lemma {:induction false} TotalElsewhere(f: Lane -> nat, a: map<string, Lane>, b: map<string, Lane>, ids: set<string>)
    requires ids <= a.Keys && ids <= b.Keys && forall x :: x in ids ==> a[x] == b[x]
    ensures TotalOf(f, a, ids) == TotalOf(f, b, ids)
    decreases ids
  {
    if ids != {} {
      var x :| x in ids;
      TotalWithout(f, a, ids, x);
      TotalWithout(f, b, ids, x);
      TotalElsewhere(f, a, b, ids - {x});
    }
  }

  lemma {:induction false} TotalAtMost(f: Lane -> nat, g: Lane -> nat, lanes: map<string, Lane>, ids: set<string>)
    requires ids <= lanes.Keys && forall x :: x in ids ==> f(lanes[x]) <= g(lanes[x])
    ensures TotalOf(f, lanes, ids) <= TotalOf(g, lanes, ids)
    decreases ids
  {
    if ids != {} {
      var x :| x in ids;
      TotalWithout(f, lanes, ids, x);
      TotalWithout(g, lanes, ids, x);
      TotalAtMost(f, g, lanes, ids - {x});
    }
  }

  // Replacing one lane changes the total by the difference.
  lemma TotalUpdate(f: Lane -> nat, lanes: map<string, Lane>, id: string, l: Lane)
    requires id in lanes
    ensures TotalOf(f, lanes[id := l], lanes.Keys) + f(lanes[id]) == TotalOf(f, lanes, lanes.Keys) + f(l)
  {
    TotalWithout(f, lanes, lanes.Keys, id);
    TotalWithout(f, lanes[id := l], lanes.Keys, id);
    TotalElsewhere(f, lanes, lanes[id := l], lanes.Keys - {id});
  }

  function InactiveIds(lanes: map<string, Lane>): set<string> {
    set id | id in lanes && !lanes[id].active
  }

  // ----- the invariant -----

  predicate LaneOk(u: Rules, id: string, initial: ElementKind, l: Lane) {
    && l.arrayId == id
    && Replay(initial, l.transitions) == Some(l.elementKind)
    && (forall i :: 0 <= i < |l.transitions| ==> Widens(l.transitions[i]))
    && |l.transitions| <= u.policy.maxTransitions
    && |l.deoptRecords| == (if l.active then 0 else 1)
    && l.oobCount <= l.accessCount
  }

  predicate Inv(w: World) {
    var e := w.engine;
    && e.rules.lattice == WideningPairs()
    && w.initial.Keys == e.lanes.Keys
    && (forall id :: id in e.lanes ==> LaneOk(e.rules, id, w.initial[id], e.lanes[id]))
    && |e.deoptLog| == |InactiveIds(e.lanes)|
  }

  ghost predicate ReceiptsInv(w: World) {
    var e := w.engine;
    && (forall id :: id in e.lanes ==> ReceiptsOf(e.receipts, id) == e.lanes[id].transitions)
    && (forall id :: id !in e.lanes ==> ReceiptsOf(e.receipts, id) == [])
    && TotalOf(TransitionsOf, e.lanes, e.lanes.Keys) == |e.receipts|
  }

  lemma TransitionIsOk(u: Rules, id: string, initial: ElementKind, l: Lane, kind: ElementKind, reason: TransitionReason, offset: nat)
    requires LaneOk(u, id, initial, l) && u.lattice == WideningPairs()
    ensures LaneOk(u, id, initial, OnTransition(u, id, l, kind, reason, offset).lane)
  {
    var l' := OnTransition(u, id, l, kind, reason, offset).lane;
    if l'.transitions != l.transitions {
      assert l'.transitions[..|l'.transitions| - 1] == l.transitions;
      assert Widens(l'.transitions[|l'.transitions| - 1]);
    }
  }

  lemma EffectIsOk(u: Rules, id: string, initial: ElementKind, l: Lane, call: LaneCall)
    requires LaneOk(u, id, initial, l) && u.lattice == WideningPairs()
    ensures LaneOk(u, id, initial, Effect(u, id, l, call).lane)
  {
    if call.Transition? {
      TransitionIsOk(u, id, initial, l, call.kind, call.reason, call.offset);
    }
  }

  // A lane leaves the fast path at most once, and each departure is logged.
  lemma EffectDeopts(u: Rules, id: string, l: Lane, call: LaneCall)
    ensures var f := Effect(u, id, l, call);
            && (f.lane.active ==> l.active)
            && |f.deopts| == (if l.active && !f.lane.active then 1 else 0)
            && (f.deopts != [] ==> f.lane.deoptRecords == l.deoptRecords + f.deopts)
  {
  }

  lemma InactiveAfter(lanes: map<string, Lane>, id: string, l: Lane)
    requires id in lanes ==> l.active ==> lanes[id].active
    ensures |InactiveIds(lanes[id := l])| ==
            |InactiveIds(lanes)| + if !l.active && (id !in lanes || lanes[id].active) then 1 else 0
  {
    var a, b := InactiveIds(lanes), InactiveIds(lanes[id := l]);
    if l.active {
      assert b == a;
    } else {
      assert b == a + {id};
    }
  }

  lemma StepKeepsInv(w: World, call: Call)
    requires Inv(w)
    ensures Inv(Advance(w, call))
  {
    var e := w.engine;
    if Registers(e, call) {
      InactiveAfter(e.lanes, call.id, NewLane(call.id, call.kind, call.length));
    } else if call.On? && call.id in e.lanes {
      var l := e.lanes[call.id];
      EffectIsOk(e.rules, call.id, w.initial[call.id], l, call.call);
      EffectDeopts(e.rules, call.id, l, call.call);
      InactiveAfter(e.lanes, call.id, Effect(e.rules, call.id, l, call.call).lane);
    }
  }

  lemma ReceiptsAppend(receipts: seq<TransitionReceipt>, r: TransitionReceipt, id: string)
    ensures ReceiptsOf(receipts + [r], id) ==
            if r.arrayId == id then ReceiptsOf(receipts, id) + [r.transition] else ReceiptsOf(receipts, id)
  {
    assert (receipts + [r])[..|receipts|] == receipts;
  }

  // A transition adds one receipt, for the lane it changed; nothing else touches transitions or receipts.
  lemma EffectReceipts(u: Rules, id: string, l: Lane, call: LaneCall)
    requires u.policy.emitTransitionReceipts
    ensures var f := Effect(u, id, l, call);
            if f.receipts == [] then f.lane.transitions == l.transitions
            else |f.receipts| == 1 && f.receipts[0].arrayId == id
                 && f.lane.transitions == l.transitions + [f.receipts[0].transition]
  {
  }

  lemma StepKeepsReceipts(w: World, call: Call)
    requires Inv(w) && ReceiptsInv(w) && w.engine.rules.policy.emitTransitionReceipts
    ensures ReceiptsInv(Advance(w, call))
  {
    var e := w.engine;
    if Registers(e, call) {
      var l := NewLane(call.id, call.kind, call.length);
      var lanes := e.lanes[call.id := l];
      TotalWithout(TransitionsOf, lanes, lanes.Keys, call.id);
      assert lanes.Keys - {call.id} == e.lanes.Keys;
      TotalElsewhere(TransitionsOf, e.lanes, lanes, e.lanes.Keys);
    } else if call.On? && call.id in e.lanes {
      LaneKeepsReceipts(w, call.id, call.call);
    }
  }

  lemma LaneKeepsReceipts(w: World, id: string, call: LaneCall)
    requires Inv(w) && ReceiptsInv(w) && w.engine.rules.policy.emitTransitionReceipts && id in w.engine.lanes
    ensures ReceiptsInv(Advance(w, On(id, call)))
  {
    var e := w.engine;
    var l := e.lanes[id];
    EffectReceipts(e.rules, id, l, call);
    UpdateKeepsReceipts(w, id, Effect(e.rules, id, l, call));
  }

  lemma UpdateKeepsReceipts(w: World, id: string, f: LaneEffect)
    requires ReceiptsInv(w) && id in w.engine.lanes
    requires var ts := w.engine.lanes[id].transitions;
             if f.receipts == [] then f.lane.transitions == ts
             else |f.receipts| == 1 && f.receipts[0].arrayId == id && f.lane.transitions == ts + [f.receipts[0].transition]
    ensures var e := w.engine;
            ReceiptsInv(w.(engine := e.(lanes := e.lanes[id := f.lane], receipts := e.receipts + f.receipts,
                                        deoptLog := e.deoptLog + f.deopts)))
  {
    var e := w.engine;
    TotalUpdate(TransitionsOf, e.lanes, id, f.lane);
    assert e.lanes[id := f.lane].Keys == e.lanes.Keys;
    OneReceipt(e.receipts, id, e.lanes[id].transitions, f);
  }

  lemma OneReceipt(receipts: seq<TransitionReceipt>, id: string, ts: seq<ElementKindTransition>, f: LaneEffect)
    requires ReceiptsOf(receipts, id) == ts
    requires if f.receipts == [] then f.lane.transitions == ts
             else |f.receipts| == 1 && f.receipts[0].arrayId == id && f.lane.transitions == ts + [f.receipts[0].transition]
    ensures ReceiptsOf(receipts + f.receipts, id) == f.lane.transitions
    ensures forall x :: x != id ==> ReceiptsOf(receipts + f.receipts, x) == ReceiptsOf(receipts, x)
  {
    if f.receipts == [] {
      assert receipts + f.receipts == receipts;
    } else {
      assert f.receipts == [f.receipts[0]];
      forall x ensures ReceiptsOf(receipts + f.receipts, x) == if x == id then f.lane.transitions else ReceiptsOf(receipts, x) {
        ReceiptsAppend(receipts, f.receipts[0], x);
      }
    }
  }

  lemma {:induction false} RunKeepsInv(p: FastLanePolicy, epoch: nat, calls: seq<Call>)
    ensures var w := Run(Start(p, epoch), calls);
            && w.engine.rules.policy == p && Inv(w)
            && (p.emitTransitionReceipts ==> ReceiptsInv(w))
  {
    if calls == [] {
      assert InactiveIds(map[]) == {};
    } else {
      var n := |calls| - 1;
      RunKeepsInv(p, epoch, calls[..n]);
      StepKeepsInv(Run(Start(p, epoch), calls[..n]), calls[n]);
      if p.emitTransitionReceipts {
        StepKeepsReceipts(Run(Start(p, epoch), calls[..n]), calls[n]);
      }
    }
  }

  /** In every run with receipts enabled, replaying an array's receipts from the kind it was registered with gives its
      transitions and its current kind; the kind never became less general and changed at most five times. */
  lemma ReceiptsReplay(p: FastLanePolicy, epoch: nat, calls: seq<Call>, id: string)
    requires p.emitTransitionReceipts && id in Run(Start(p, epoch), calls).engine.lanes
    ensures var w := Run(Start(p, epoch), calls);
            var l := w.engine.lanes[id];
            && id in w.initial
            && ReceiptsOf(w.engine.receipts, id) == l.transitions
            && Replay(w.initial[id], ReceiptsOf(w.engine.receipts, id)) == Some(l.elementKind)
            && w.initial[id].Rank() <= l.elementKind.Rank()
            && NonSelf(l.transitions) <= 5
  {
    RunKeepsInv(p, epoch, calls);
    var w := Run(Start(p, epoch), calls);
    ReplayClimbs(w.initial[id], w.engine.lanes[id].transitions);
  }

  lemma TransitionClimbs(u: Rules, id: string, l: Lane, call: LaneCall)
    requires u.lattice == WideningPairs()
    ensures l.elementKind.Rank() <= Effect(u, id, l, call).lane.elementKind.Rank()
  {
    if call.Transition? && (l.elementKind, call.kind) in WideningPairs() {
      WideningClimbs(ElementKindTransition(l.elementKind, call.kind, call.reason, u.epoch, call.offset, true));
    }
  }

  /** From any point of a run to any later one, an array never becomes less general. */
  lemma {:induction false} RankNeverDecreases(w: World, calls: seq<Call>, id: string)
    requires Inv(w) && id in w.engine.lanes
    ensures var w' := Run(w, calls);
            && Inv(w') && id in w'.engine.lanes
            && w.engine.lanes[id].elementKind.Rank() <= w'.engine.lanes[id].elementKind.Rank()
  {
    if calls != [] {
      var n := |calls| - 1;
      var mid := Run(w, calls[..n]);
      RankNeverDecreases(w, calls[..n], id);
      RankStep(mid, calls[n], id);
      assert Run(w, calls) == Advance(mid, calls[n]);
    }
  }

  lemma RankStep(w: World, call: Call, id: string)
    requires Inv(w) && id in w.engine.lanes
    ensures var w' := Advance(w, call);
            && Inv(w') && id in w'.engine.lanes
            && w.engine.lanes[id].elementKind.Rank() <= w'.engine.lanes[id].elementKind.Rank()
  {
    StepKeepsInv(w, call);
    if call.On? && call.id == id {
      TransitionClimbs(w.engine.rules, id, w.engine.lanes[id], call.call);
    }
  }

  // ----- out-of-bounds rates -----

  predicate Settled(p: FastLanePolicy, l: Lane) {
    l.accessCount >= p.minAccessCount && OobRate(l) <= p.maxOobRate
  }

  predicate OverLimit(p: FastLanePolicy, l: Lane) {
    l.active && l.accessCount >= p.minAccessCount && OobRate(l) > p.maxOobRate
  }

  lemma LargerDivisor(a: nat, n: nat)
    requires n > 0
    ensures a / (n + 1) <= a / n
  {
    DivMod(a, n);
    DivMod(a, n + 1);
    var q := a / (n + 1);
    QuotientNonNegative(a, n + 1);
    assert q * (n + 1) == q * n + q;
    CancelFactor(q, a / n, n);
  }

  lemma AccessLowersRate(l: Lane)
    requires l.accessCount > 0
    ensures OobRate(l.(accessCount := l.accessCount + 1)) <= OobRate(l)
  {
    LargerDivisor(SatMul(l.oobCount, 1_000_000), l.accessCount);
  }

  /** No array ever reports a rate above one. */
  lemma RateIsAFraction(l: Lane)
    requires l.oobCount <= l.accessCount
    ensures OobRate(l) <= 1_000_000
  {
    if l.accessCount > 0 {
      var a := SatMul(l.oobCount, 1_000_000);
      DivMod(a, l.accessCount);
      assert (1_000_000 + 1) * l.accessCount == 1_000_000 * l.accessCount + l.accessCount;
      CancelFactor(a / l.accessCount, 1_000_000, l.accessCount);
    }
  }

  /** Only an ordinary access can put an active lane over its limit, and only the one that brings it to the minimum count. */
  lemma OverLimitIff(u: Rules, id: string, l: Lane, call: LaneCall)
    requires !OverLimit(u.policy, l) && l.oobCount <= l.accessCount
    ensures var l' := Effect(u, id, l, call).lane;
            OverLimit(u.policy, l') <==>
            call == Access && l.active && l.accessCount + 1 == u.policy.minAccessCount
            && OobRate(l.(accessCount := u.policy.minAccessCount)) > u.policy.maxOobRate
  {
    if call == Access && l.accessCount > 0 {
      AccessLowersRate(l);
    }
  }

  lemma RunThree(w: World, a: Call, b: Call, c: Call)
    ensures Run(w, [a, b, c]) == Advance(Advance(Advance(w, a), b), c)
  {
    assert [a][..0] == [] && Run(w, [a]) == Advance(w, a);
    assert [a, b][..1] == [a] && Run(w, [a, b]) == Advance(Run(w, [a]), b);
    assert [a, b, c][..2] == [a, b];
  }

  /** It happens: an early out-of-bounds access counts only once an ordinary access fills the minimum, and then nothing
      deoptimizes the lane. */
  lemma OverLimitHappens(epoch: nat)
    ensures var p := FastLanePolicy(0, 2, 10, 10, true);
            var w := Run(Start(p, epoch), [Register("a", Empty, 0), On("a", Oob(0)), On("a", Access)]);
            "a" in w.engine.lanes && OverLimit(p, w.engine.lanes["a"])
  {
    var p := FastLanePolicy(0, 2, 10, 10, true);
    var register, oob, access := Register("a", Empty, 0), On("a", Oob(0)), On("a", Access);
    RunThree(Start(p, epoch), register, oob, access);
    var w1 := Advance(Start(p, epoch), register);
    assert w1.engine.lanes["a"] == NewLane("a", Empty, 0);
    var w2 := Advance(w1, oob);
    assert w2.engine.lanes["a"] == Lane("a", Empty, 0, true, [], [], 1, 0, 1);
    assert Advance(w2, access).engine.lanes["a"] == Lane("a", Empty, 0, true, [], [], 2, 0, 1);
    assert OobRate(Lane("a", Empty, 0, true, [], [], 2, 0, 1)) == 500_000;
  }

  lemma SettledStays(u: Rules, id: string, l: Lane, call: LaneCall)
    requires Settled(u.policy, l) && l.oobCount <= l.accessCount
    ensures var l' := Effect(u, id, l, call).lane; !l'.active || Settled(u.policy, l')
  {
    if call == Access && l.accessCount > 0 {
      AccessLowersRate(l);
    }
  }

  /** Once an active lane has enough accesses and a rate within the limit, every later run keeps it within the limit or
      deoptimizes it. */
  lemma {:induction false} SettledForever(w: World, calls: seq<Call>, id: string)
    requires Inv(w) && id in w.engine.lanes && Settled(w.engine.rules.policy, w.engine.lanes[id])
    ensures var w' := Run(w, calls);
            && Inv(w') && w'.engine.rules == w.engine.rules && id in w'.engine.lanes
            && (!w'.engine.lanes[id].active || Settled(w.engine.rules.policy, w'.engine.lanes[id]))
  {
    if calls != [] {
      var n := |calls| - 1;
      var mid := Run(w, calls[..n]);
      SettledForever(w, calls[..n], id);
      StepKeepsInv(mid, calls[n]);
      SettledStep(mid, calls[n], id);
    }
  }

  lemma SettledStep(w: World, call: Call, id: string)
    requires Inv(w) && id in w.engine.lanes
    requires !w.engine.lanes[id].active || Settled(w.engine.rules.policy, w.engine.lanes[id])
    ensures var e := Step(w.engine, call);
            && e.rules == w.engine.rules && id in e.lanes
            && (!e.lanes[id].active || Settled(e.rules.policy, e.lanes[id]))
  {
    var l := w.engine.lanes[id];
    if call.On? && call.id == id {
      EffectDeopts(w.engine.rules, id, l, call.call);
      if l.active {
        assert LaneOk(w.engine.rules, id, w.initial[id], l);
        SettledStays(w.engine.rules, id, l, call.call);
      }
    }
  }
}
