/** The fast-lane engine object. */
module ArrayEngine {
  import opened Machine
  import opened ArrayLane
  import opened ArrayLaneRuns

  datatype Diagnostics = Diagnostics(
    totalArrays: nat,
    activeArrays: nat,
    deoptedArrays: int,
    totalTransitions: nat,
    totalDeopts: nat,
    totalReceipts: nat,
    totalAccesses: nat,
    totalStores: nat,
    totalOob: nat)

  class ArrayFastLaneEngine {
    const policy: FastLanePolicy
    const epoch: nat
    const validTransitions: set<(ElementKind, ElementKind)>
    var lanes: map<string, Lane>
    var receipts: seq<TransitionReceipt>
    var deoptLog: seq<DeoptRecord>
    // the kind each array was registered with
    ghost var initial: map<string, ElementKind>

    ghost function Everything(): World
      reads this
    {
      World(Engine(Rules(policy, epoch, validTransitions), lanes, receipts, deoptLog), initial)
    }

    /** The run so far satisfies the invariants: what is proved of such worlds holds of this object. */
    ghost predicate Valid()
      reads this
    {
      Inv(Everything()) && (policy.emitTransitionReceipts ==> ReceiptsInv(Everything()))
    }

    constructor WithPolicy(policy: FastLanePolicy, epoch: nat)
      ensures Everything() == Start(policy, epoch) && Valid()
    {
      this.policy, this.epoch, this.validTransitions := policy, epoch, WideningPairs();
      lanes, receipts, deoptLog, initial := map[], [], [], map[];
      new;
      RunKeepsInv(policy, epoch, []);
    }

    method RegisterArray(id: string, kind: ElementKind, length: nat) returns (ok: bool)
      modifies this
      ensures Everything() == Advance(old(Everything()), Register(id, kind, length))
      ensures ok <==> old(id !in lanes) && length <= policy.maxFastLaneLength
      ensures old(Valid()) ==> Valid()
    {
      Keep(Register(id, kind, length));
      if id in lanes {
        return false;
      }
      if length > policy.maxFastLaneLength {
        return false;
      }
      lanes := lanes[id := Lane(id, kind, length, true, [], [], 0, 0, 0)];
      initial := initial[id := kind];
      return true;
    }

    // Deoptimizes the lane of id when it is active, and logs it.
    method DeoptLane(id: string, reason: DeoptReason, offset: nat)
      requires id in lanes
      modifies this`lanes, this`deoptLog
      ensures var f := DeoptEffect(old(lanes)[id], reason, epoch, offset);
              lanes == old(lanes)[id := f.lane] && deoptLog == old(deoptLog) + f.deopts
    {
      var lane := lanes[id];
      if lane.active {
        var record := DeoptRecord(lane.arrayId, reason, lane.elementKind, epoch, offset, lane.accessCount, lane.storeCount);
        lanes := lanes[id := lane.(active := false, deoptRecords := lane.deoptRecords + [record])];
        deoptLog := deoptLog + [record];
      }
    }

    // The transition of a registered array.
    method DoTransition(id: string, kind: ElementKind, reason: TransitionReason, offset: nat)
      returns (receipt: Option<TransitionReceipt>)
      requires id in lanes
      modifies this`lanes, this`receipts, this`deoptLog
      ensures var f := OnTransition(Rules(policy, epoch, validTransitions), id, old(lanes)[id], kind, reason, offset);
              && lanes == old(lanes)[id := f.lane] && deoptLog == old(deoptLog) + f.deopts
              && receipts == old(receipts) + f.receipts
              && receipt == if f.receipts == [] then None else Some(f.receipts[0])
    {
      var lane := lanes[id];
      if (lane.elementKind, kind) !in validTransitions && lane.elementKind != kind {
        DeoptLane(id, ElementKindChanged, offset);
        return None;
      }
      if |lane.transitions| >= policy.maxTransitions {
        DeoptLane(id, ElementKindChanged, offset);
        return None;
      }
      var t := ElementKindTransition(lane.elementKind, kind, reason, epoch, offset, kind.Rank() > lane.elementKind.Rank());
      lanes := lanes[id := lane.(elementKind := kind, transitions := lane.transitions + [t])];
      if policy.emitTransitionReceipts {
        var r := TransitionReceipt(id, t, lane.active);
        receipts := receipts + [r];
        return Some(r);
      }
      return None;
    }

    method TransitionElementKind(id: string, kind: ElementKind, reason: TransitionReason, offset: nat)
      returns (receipt: Option<TransitionReceipt>)
      modifies this
      ensures Everything() == Advance(old(Everything()), On(id, Transition(kind, reason, offset)))
      ensures receipts == if receipt.None? then old(receipts) else old(receipts) + [receipt.value]
      ensures old(Valid()) ==> Valid()
    {
      Keep(On(id, Transition(kind, reason, offset)));
      if id !in lanes {
        return None;
      }
      receipt := DoTransition(id, kind, reason, offset);
    }

    method RecordAccess(id: string) returns (ok: bool)
      modifies this
      ensures Everything() == Advance(old(Everything()), On(id, Access)) && ok == (id in lanes)
      ensures old(Valid()) ==> Valid()
    {
      Keep(On(id, Access));
      if id !in lanes {
        return false;
      }
      lanes := lanes[id := lanes[id].(accessCount := lanes[id].accessCount + 1)];
      return true;
    }

    method RecordStore(id: string) returns (ok: bool)
      modifies this
      ensures Everything() == Advance(old(Everything()), On(id, Store)) && ok == (id in lanes)
      ensures old(Valid()) ==> Valid()
    {
      Keep(On(id, Store));
      if id !in lanes {
        return false;
      }
      lanes := lanes[id := lanes[id].(storeCount := lanes[id].storeCount + 1)];
      return true;
    }

    method RecordOob(id: string, offset: nat) returns (ok: bool)
      modifies this
      ensures Everything() == Advance(old(Everything()), On(id, Oob(offset))) && ok == (id in lanes)
      ensures old(Valid()) ==> Valid()
    {
      Keep(On(id, Oob(offset)));
      if id !in lanes {
        return false;
      }
      var lane := lanes[id].(accessCount := lanes[id].accessCount + 1, oobCount := lanes[id].oobCount + 1);
      lanes := lanes[id := lane];
      if lane.accessCount >= policy.minAccessCount && OobRate(lane) > policy.maxOobRate && lane.active {
        DeoptLane(id, ExcessiveOob(OobRate(lane)), offset);
      }
      return true;
    }

    // A valid engine stays valid.
    lemma Keep(call: Call)
      ensures Valid() ==>
                && Inv(Advance(Everything(), call))
                && (policy.emitTransitionReceipts ==> ReceiptsInv(Advance(Everything(), call)))
    {
      if Valid() {
        StepKeepsInv(Everything(), call);
        if policy.emitTransitionReceipts {
          StepKeepsReceipts(Everything(), call);
        }
      }
    }

    method SumOver(f: Lane -> nat) returns (total: nat)
      ensures total == TotalOf(f, lanes, lanes.Keys)
    {
      var todo := lanes.Keys;
      total := 0;
      while todo != {}
        invariant todo <= lanes.Keys && total + TotalOf(f, lanes, todo) == TotalOf(f, lanes, lanes.Keys)
        decreases todo
      {
        var id :| id in todo;
        TotalWithout(f, lanes, todo, id);
        total := total + f(lanes[id]);
        todo := todo - {id};
      }
    }

    method CountActive() returns (active: nat)
      ensures active + |InactiveIds(lanes)| == |lanes|
    {
      var todo := lanes.Keys;
      active := 0;
      ghost var off: set<string> := {};
      while todo != {}
        invariant todo <= lanes.Keys && off == (set id | id in lanes.Keys - todo && !lanes[id].active)
        invariant active + |off| + |todo| == |lanes.Keys|
        decreases todo
      {
        var id :| id in todo;
        if lanes[id].active {
          active := active + 1;
        } else {
          off := off + {id};
        }
        todo := todo - {id};
      }
      assert off == InactiveIds(lanes);
    }

    /** The snapshot agrees with itself: deoptimizations are deoptimized arrays, out-of-bounds accesses are accesses and,
        when receipts are emitted, transitions are receipts. */
    method Diagnose() returns (d: Diagnostics)
      requires Valid()
      ensures d.totalArrays == |lanes| && d.activeArrays + |InactiveIds(lanes)| == |lanes|
      ensures d.totalTransitions == TotalOf(TransitionsOf, lanes, lanes.Keys)
      ensures d.totalDeopts == d.deoptedArrays == |InactiveIds(lanes)|
      ensures d.totalReceipts == |receipts| && (policy.emitTransitionReceipts ==> d.totalTransitions == d.totalReceipts)
      ensures d.totalAccesses == TotalOf(AccessesOf, lanes, lanes.Keys) && d.totalStores == TotalOf(StoresOf, lanes, lanes.Keys)
      ensures d.totalOob == TotalOf(OobsOf, lanes, lanes.Keys) <= d.totalAccesses
    {
      var active := CountActive();
      var transitions := SumOver(TransitionsOf);
      var accesses := SumOver(AccessesOf);
      var stores := SumOver(StoresOf);
      var oobs := SumOver(OobsOf);
      TotalAtMost(OobsOf, AccessesOf, lanes, lanes.Keys);
      d := Diagnostics(|lanes|, active, |lanes| - active, transitions, |deoptLog|, |receipts|, accesses, stores, oobs);
    }
  }
}
