/** Array fast lanes: element-kind transitions, deoptimization and their receipts. */
module ArrayLane {
  import opened Machine
  import opened Arithmetic

  datatype ElementKind =
    | Empty | PackedSmi | PackedDouble | PackedElements | HoleySmi | HoleyDouble | HoleyElements | Frozen | Sealed
    | TypedInt8 | TypedUint8 | TypedUint8Clamped | TypedInt16 | TypedUint16 | TypedInt32 | TypedUint32
    | TypedFloat32 | TypedFloat64 | TypedBigInt64 | TypedBigUint64
  {
    function Rank(): nat {
      match this
      case Empty => 0
      case PackedSmi => 1
      case PackedDouble => 2
      case PackedElements => 3
      case HoleySmi => 4
      case HoleyDouble => 5
      case HoleyElements => 6
      case Frozen => 7
      case Sealed => 7
      case _ => 10
    }
  }

  // The lattice of widening transitions.
  function WideningPairs(): set<(ElementKind, ElementKind)> {
    {(Empty, PackedSmi), (Empty, PackedDouble), (Empty, PackedElements),
     (PackedSmi, PackedDouble), (PackedSmi, PackedElements), (PackedDouble, PackedElements),
     (PackedSmi, HoleySmi), (PackedDouble, HoleyDouble), (PackedElements, HoleyElements),
     (HoleySmi, HoleyDouble), (HoleySmi, HoleyElements), (HoleyDouble, HoleyElements),
     (PackedElements, Frozen), (PackedElements, Sealed), (HoleyElements, Frozen), (HoleyElements, Sealed)}
  }

  datatype TransitionReason =
    | SmiToDouble | DoubleToElements | ElementDeleted | LengthContraction | ObjectFreeze | ObjectSeal
    | InitialAllocation | TypedArrayConstruction | DeoptReboxing

  datatype ElementKindTransition = ElementKindTransition(
    from: ElementKind,
    to: ElementKind,
    reason: TransitionReason,
    epoch: nat,
    triggerOffset: nat,
    isWidening: bool)

  datatype DeoptReason = ElementKindChanged | ExcessiveOob(rate: nat)

  datatype DeoptRecord = DeoptRecord(
    arrayId: string,
    reason: DeoptReason,
    kindAtDeopt: ElementKind,
    epoch: nat,
    triggerOffset: nat,
    accessCount: nat,
    storeCount: nat)

  datatype TransitionReceipt = TransitionReceipt(arrayId: string, transition: ElementKindTransition, survived: bool)

  datatype FastLanePolicy = FastLanePolicy(
    maxOobRate: nat,
    minAccessCount: nat,
    maxTransitions: nat,
    maxFastLaneLength: nat,
    emitTransitionReceipts: bool)

  // What stays fixed while an engine runs.
  datatype Rules = Rules(policy: FastLanePolicy, epoch: nat, lattice: set<(ElementKind, ElementKind)>)

  datatype Lane = Lane(
    arrayId: string,
    elementKind: ElementKind,
    length: nat,
    active: bool,
    transitions: seq<ElementKindTransition>,
    deoptRecords: seq<DeoptRecord>,
    accessCount: nat,
    storeCount: nat,
    oobCount: nat)

  function OobRate(l: Lane): nat {
    if l.accessCount == 0 then 0
    else
      QuotientNonNegative(SatMul(l.oobCount, 1_000_000), l.accessCount);
      SatMul(l.oobCount, 1_000_000) / l.accessCount
  }

  function Deopted(l: Lane, reason: DeoptReason, epoch: nat, offset: nat): Lane {
    if !l.active then l
    else
      l.(active := false,
         deoptRecords := l.deoptRecords + [DeoptRecord(l.arrayId, reason, l.elementKind, epoch, offset, l.accessCount, l.storeCount)])
  }

  // ----- one lane -----

  datatype LaneCall =
    | Transition(kind: ElementKind, reason: TransitionReason, offset: nat)
    | Access
    | Store
    | Oob(offset: nat)

  // What a call does to a lane, and what it adds to the engine's receipts and deopt log.
  datatype LaneEffect = LaneEffect(lane: Lane, receipts: seq<TransitionReceipt>, deopts: seq<DeoptRecord>)

  function DeoptEffect(l: Lane, reason: DeoptReason, epoch: nat, offset: nat): LaneEffect {
    var d := Deopted(l, reason, epoch, offset);
    LaneEffect(d, [], if l.active then [d.deoptRecords[|d.deoptRecords| - 1]] else [])
  }

  function OnTransition(u: Rules, id: string, l: Lane,
                        kind: ElementKind, reason: TransitionReason, offset: nat): LaneEffect
  {
    if (l.elementKind, kind) !in u.lattice && l.elementKind != kind then
      DeoptEffect(l, ElementKindChanged, u.epoch, offset)
    else if |l.transitions| >= u.policy.maxTransitions then
      DeoptEffect(l, ElementKindChanged, u.epoch, offset)
    else
      var t := ElementKindTransition(l.elementKind, kind, reason, u.epoch, offset, kind.Rank() > l.elementKind.Rank());
      LaneEffect(l.(elementKind := kind, transitions := l.transitions + [t]),
                 if u.policy.emitTransitionReceipts then [TransitionReceipt(id, t, l.active)] else [], [])
  }

  function OnOob(u: Rules, l: Lane, offset: nat): LaneEffect {
    var counted := l.(accessCount := l.accessCount + 1, oobCount := l.oobCount + 1);
    if counted.accessCount >= u.policy.minAccessCount && OobRate(counted) > u.policy.maxOobRate && counted.active then
      DeoptEffect(counted, ExcessiveOob(OobRate(counted)), u.epoch, offset)
    else LaneEffect(counted, [], [])
  }

  function Effect(u: Rules, id: string, l: Lane, call: LaneCall): LaneEffect {
    match call
    case Transition(kind, reason, offset) => OnTransition(u, id, l, kind, reason, offset)
    case Access => LaneEffect(l.(accessCount := l.accessCount + 1), [], [])
    case Store => LaneEffect(l.(storeCount := l.storeCount + 1), [], [])
    case Oob(offset) => OnOob(u, l, offset)
  }

  // ----- the engine -----

  datatype Engine = Engine(
    rules: Rules,
    lanes: map<string, Lane>,
    receipts: seq<TransitionReceipt>,
    deoptLog: seq<DeoptRecord>)

  datatype Call = Register(id: string, kind: ElementKind, length: nat) | On(id: string, call: LaneCall)

  predicate Registers(e: Engine, call: Call) {
    call.Register? && call.id !in e.lanes && call.length <= e.rules.policy.maxFastLaneLength
  }

  function NewLane(id: string, kind: ElementKind, length: nat): Lane {
    Lane(id, kind, length, true, [], [], 0, 0, 0)
  }

  function Step(e: Engine, call: Call): Engine {
    if Registers(e, call) then e.(lanes := e.lanes[call.id := NewLane(call.id, call.kind, call.length)])
    else if call.On? && call.id in e.lanes then
      var f := Effect(e.rules, call.id, e.lanes[call.id], call.call);
      e.(lanes := e.lanes[call.id := f.lane], receipts := e.receipts + f.receipts, deoptLog := e.deoptLog + f.deopts)
    else e
  }

  // ----- replaying receipts -----

  function ReceiptsOf(receipts: seq<TransitionReceipt>, id: string): seq<ElementKindTransition> {
    if receipts == [] then []
    else
      var before, last := ReceiptsOf(receipts[..|receipts| - 1], id), receipts[|receipts| - 1];
      if last.arrayId == id then before + [last.transition] else before
  }

  // Follows the transitions from a kind; None when one does not start where the previous one ended.
  function Replay(kind: ElementKind, ts: seq<ElementKindTransition>): Option<ElementKind> {
    if ts == [] then Some(kind)
    else
      var before, last := Replay(kind, ts[..|ts| - 1]), ts[|ts| - 1];
      if before == Some(last.from) then Some(last.to) else None
  }

  predicate Widens(t: ElementKindTransition) {
    t.from == t.to || (t.from, t.to) in WideningPairs()
  }

  function NonSelf(ts: seq<ElementKindTransition>): nat {
    if ts == [] then 0
    else NonSelf(ts[..|ts| - 1]) + if ts[|ts| - 1].from != ts[|ts| - 1].to then 1 else 0
  }

  // Position in the lattice: every widening goes at least one level up, and there are five levels above the bottom.
  function Depth(k: ElementKind): nat {
    match k
    case Empty => 0
    case PackedSmi => 1
    case PackedDouble => 2
    case HoleySmi => 2
    case PackedElements => 3
    case HoleyDouble => 3
    case HoleyElements => 4
    case Frozen => 5
    case Sealed => 5
    case _ => 0
  }

  lemma WideningClimbs(t: ElementKindTransition)
    requires Widens(t)
    ensures t.from.Rank() <= t.to.Rank()
    ensures t.from != t.to ==> Depth(t.from) < Depth(t.to) && t.from.Rank() < t.to.Rank()
  {
  }

  /** Along the lattice a lane only generalizes, and changes kind at most five times. */
  lemma {:induction false} ReplayClimbs(kind: ElementKind, ts: seq<ElementKindTransition>)
    requires Replay(kind, ts).Some? && forall i :: 0 <= i < |ts| ==> Widens(ts[i])
    ensures kind.Rank() <= Replay(kind, ts).value.Rank()
    ensures Depth(kind) + NonSelf(ts) <= Depth(Replay(kind, ts).value)
    ensures NonSelf(ts) <= 5
  {
    if ts != [] {
      ReplayClimbs(kind, ts[..|ts| - 1]);
      WideningClimbs(ts[|ts| - 1]);
    }
  }

  // ----- the lattice, spelled out -----

  predicate IsPacked(k: ElementKind) {
    k.PackedSmi? || k.PackedDouble? || k.PackedElements?
  }

  predicate IsHoley(k: ElementKind) {
    k.HoleySmi? || k.HoleyDouble? || k.HoleyElements?
  }

  // How general the elements are: small integers, doubles, anything.
  function Generality(k: ElementKind): nat {
    if k.PackedSmi? || k.HoleySmi? then 0 else if k.PackedDouble? || k.HoleyDouble? then 1 else 2
  }

  /** Widening fills an empty array, makes elements more general within packed or within holey arrays, punches holes without
      touching the generality, and freezes or seals arrays of general elements. */
  lemma WideningIff(a: ElementKind, b: ElementKind)
    ensures (a, b) in WideningPairs() <==>
            || (a == Empty && IsPacked(b))
            || (IsPacked(a) && IsPacked(b) && Generality(a) < Generality(b))
            || (IsHoley(a) && IsHoley(b) && Generality(a) < Generality(b))
            || (IsPacked(a) && IsHoley(b) && Generality(a) == Generality(b))
            || ((a == PackedElements || a == HoleyElements) && (b == Frozen || b == Sealed))
  {
  }

  /** The ranks climb from empty over packed and holey to frozen and sealed arrays; typed arrays stand above all. */
  lemma RankLevels(k: ElementKind)
    ensures k.Rank() == if k == Empty then 0 else if IsPacked(k) then 1 + Generality(k) else if IsHoley(k) then 4 + Generality(k)
                        else if k == Frozen || k == Sealed then 7 else 10
  {
  }

  // ----- what a call does, exactly -----

  /** A transition is made exactly when the lattice has it, or nothing changes, and the lane has transitions left; it is recorded
      with its circumstances, also on a lane that is no longer active. Otherwise an active lane is deoptimized. */
  lemma TransitionMadeIff(u: Rules, id: string, l: Lane, kind: ElementKind, reason: TransitionReason, offset: nat)
    ensures var f := Effect(u, id, l, Transition(kind, reason, offset));
            if ((l.elementKind, kind) in u.lattice || l.elementKind == kind) && |l.transitions| < u.policy.maxTransitions then
              var t := ElementKindTransition(l.elementKind, kind, reason, u.epoch, offset, l.elementKind.Rank() < kind.Rank());
              && f.lane == l.(elementKind := kind, transitions := l.transitions + [t]) && f.deopts == []
              && f.receipts == (if u.policy.emitTransitionReceipts then [TransitionReceipt(id, t, l.active)] else [])
            else
              f.receipts == [] && DeoptsWith(u, l, f, ElementKindChanged, offset)
  {
  }

  // An active lane is deoptimized for this reason, with a record of what it was; an inactive one stays as it is.
  predicate DeoptsWith(u: Rules, l: Lane, f: LaneEffect, reason: DeoptReason, offset: nat) {
    var record := DeoptRecord(l.arrayId, reason, l.elementKind, u.epoch, offset, l.accessCount, l.storeCount);
    if l.active then f.lane == l.(active := false, deoptRecords := l.deoptRecords + [record]) && f.deopts == [record]
    else f.lane == l && f.deopts == []
  }

  /** Accesses and stores are counted, each on its own counter, and do nothing else. */
  lemma CountersCount(u: Rules, id: string, l: Lane)
    ensures Effect(u, id, l, Access) == LaneEffect(l.(accessCount := l.accessCount + 1), [], [])
    ensures Effect(u, id, l, Store) == LaneEffect(l.(storeCount := l.storeCount + 1), [], [])
  {
  }

  /** An out-of-bounds access counts twice, as an access and as out of bounds; it deoptimizes exactly an active lane with enough
      accesses whose rate is then above the limit. */
  lemma OobDeoptimizesIff(u: Rules, id: string, l: Lane, offset: nat)
    ensures var f := Effect(u, id, l, Oob(offset));
            var counted := l.(accessCount := l.accessCount + 1, oobCount := l.oobCount + 1);
            && f.receipts == []
            && if l.active && l.accessCount + 1 >= u.policy.minAccessCount && OobRate(counted) > u.policy.maxOobRate then
                 DeoptsWith(u, counted, f, ExcessiveOob(OobRate(counted)), offset)
               else f.lane == counted && f.deopts == []
  {
  }

  /** The rate is the fraction of accesses that were out of bounds, in millionths rounded down, and zero without accesses; a
      product beyond 64 bits saturates first. */
  lemma RateIsTheFraction(l: Lane)
    ensures l.accessCount == 0 ==> OobRate(l) == 0
    ensures l.accessCount > 0 ==>
              OobRate(l) * l.accessCount <= Min(l.oobCount * 1_000_000, U64_MAX) < (OobRate(l) + 1) * l.accessCount
  {
    if l.accessCount > 0 {
      DivMod(Min(l.oobCount * 1_000_000, U64_MAX), l.accessCount);
    }
  }

  /** An array is registered exactly once, within the length limit, as an active lane without history. */
  lemma RegistersIff(e: Engine, id: string, kind: ElementKind, length: nat)
    ensures Step(e, Register(id, kind, length)) ==
            if id in e.lanes || length > e.rules.policy.maxFastLaneLength then e
            else e.(lanes := e.lanes[id := Lane(id, kind, length, true, [], [], 0, 0, 0)])
  {
  }
}
