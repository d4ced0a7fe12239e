/** Mutation operators on campaigns. */
module Mutation {
  import opened Machine
  import opened Campaign
  import opened Sequences
  import opened Rng
  import opened Grammar

  datatype MutationOperator = PointMutation | Crossover | Insertion | Deletion | TemporalShift

  datatype MutationRequest = MutationRequest(operator: MutationOperator, seed: bv64, donor: Option<AdversarialCampaign>)

  // The hashes that ids are formatted from.
  datatype Digests = Digests(ofCampaign: (string, u32, u64, MutationOperator) -> string, ofId: string -> string)

  // ----- what each operator does to the steps -----

  ghost predicate PointMutated(g: AttackGrammar, before: seq<AttackStep>, after: seq<AttackStep>) {
    exists i: nat, s :: i < |before| && Generated(g, i, s) && after == before[i := s]
  }

  ghost predicate Crossed(before: seq<AttackStep>, donor: seq<AttackStep>, after: seq<AttackStep>) {
    exists l: nat, r: nat :: 0 < l <= |before| && r < |donor| && after == before[..l] + donor[r..]
  }

  ghost predicate Inserted(g: AttackGrammar, before: seq<AttackStep>, after: seq<AttackStep>) {
    exists i: nat, s :: i <= |before| && Generated(g, i, s) && after == before[..i] + [s] + before[i..]
  }

  ghost predicate Deleted(before: seq<AttackStep>, after: seq<AttackStep>) {
    exists i: nat :: i < |before| && after == Omit(before, i)
  }

  // One temporal step has moved by 5 to 249 milliseconds, not below one, and carries its stage as label.
  predicate ShiftsStep(s: AttackStep, t: AttackStep) {
    && s.kind.TemporalStep? && t.kind.TemporalStep?
    && t == s.(kind := t.kind, productionLabel := s.kind.stage) && t.kind.stage == s.kind.stage
    && exists delta: nat :: 5 <= delta < 250 &&
         (t.kind.delayMs == SatAdd(s.kind.delayMs, delta) || t.kind.delayMs == Max(SatSub(s.kind.delayMs, delta), 1))
  }

  ghost predicate Shifted(before: seq<AttackStep>, after: seq<AttackStep>) {
    exists i: nat, t :: i < |before| && ShiftsStep(before[i], t) && after == before[i := t]
  }

  ghost predicate Applied(g: AttackGrammar, base: AdversarialCampaign, req: MutationRequest, after: seq<AttackStep>) {
    match req.operator
    case PointMutation => PointMutated(g, base.steps, after)
    case Crossover => req.donor.Some? && Crossed(base.steps, req.donor.value.steps, after)
    case Insertion => Inserted(g, base.steps, after)
    case Deletion => Deleted(base.steps, after)
    case TemporalShift => Shifted(base.steps, after)
  }

  // ----- the result of each operator, as a function of the generator state it starts from -----

  function PointAt(g: AttackGrammar, steps: seq<AttackStep>, s: bv64): seq<AttackStep>
    requires ValidGrammar(g) && steps != []
  {
    var i := Drawn(NextState(s)) % |steps|;
    steps[i := StepFrom(g, i, NextState(s))]
  }

  // A single step leaves no choice of where to cut, and costs no draw.
  function CrossAt(steps: seq<AttackStep>, donor: seq<AttackStep>, s: bv64): seq<AttackStep>
    requires steps != [] && donor != []
  {
    if |steps| == 1 then steps + donor[Drawn(NextState(s)) % |donor|..]
    else steps[..1 + Drawn(NextState(s)) % (|steps| - 1)] + donor[Drawn(NextState(NextState(s))) % |donor|..]
  }

  function InsertAt(g: AttackGrammar, steps: seq<AttackStep>, s: bv64): seq<AttackStep>
    requires ValidGrammar(g)
  {
    var i := Drawn(NextState(s)) % (|steps| + 1);
    steps[..i] + [StepFrom(g, i, NextState(s))] + steps[i..]
  }

  function DeleteAt(steps: seq<AttackStep>, s: bv64): seq<AttackStep>
    requires steps != []
  {
    Omit(steps, Drawn(NextState(s)) % |steps|)
  }

  // A temporal step moved by 5 + v % 245 milliseconds, up for an even coin and down, not below one, for an odd one.
  function ShiftedStep(step: AttackStep, v: nat, coin: nat): AttackStep
    requires step.kind.TemporalStep?
  {
    var delta := 5 + v % 245;
    var delay := if coin % 2 == 0 then SatAdd(step.kind.delayMs, delta) else Max(SatSub(step.kind.delayMs, delta), 1);
    step.(kind := TemporalStep(step.kind.stage, delay), productionLabel := step.kind.stage)
  }

  // Samples positions with replacement until one holds a temporal step, at most the given number of times.
  function ShiftAt(steps: seq<AttackStep>, s: bv64, tries: nat): Option<seq<AttackStep>>
    requires steps != []
    decreases tries
  {
    if tries == 0 then None
    else
      var i := Drawn(NextState(s)) % |steps|;
      if steps[i].kind.TemporalStep? then
        Some(steps[i := ShiftedStep(steps[i], Drawn(NextState(NextState(s))), Drawn(Thrice(s)))])
      else ShiftAt(steps, NextState(s), tries - 1)
  }

  // The state after j draws.
  function Draws(s: bv64, j: nat): bv64
    decreases j
  {
    if j == 0 then s else Draws(NextState(s), j - 1)
  }

  // The j-th position sampled holds a temporal step.
  predicate Hits(steps: seq<AttackStep>, s: bv64, j: nat)
    requires steps != []
  {
    steps[Drawn(NextState(Draws(s, j))) % |steps|].kind.TemporalStep?
  }

  lemma HitsShift(steps: seq<AttackStep>, s: bv64, j: nat)
    requires steps != [] && j > 0
    ensures Hits(steps, s, j) == Hits(steps, NextState(s), j - 1)
  {
    assert Draws(s, j) == Draws(NextState(s), j - 1);
  }

  predicate Found(steps: seq<AttackStep>, s: bv64, tries: nat)
    requires steps != []
  {
    exists j :: 0 <= j < tries && Hits(steps, s, j)
  }

  lemma FoundStep(steps: seq<AttackStep>, s: bv64, s': bv64, tries: nat)
    requires steps != [] && tries > 0 && forall j: nat :: j > 0 ==> Hits(steps, s, j) == Hits(steps, s', j - 1)
    ensures Found(steps, s, tries) <==> Hits(steps, s, 0) || Found(steps, s', tries - 1)
  {
    if Found(steps, s', tries - 1) {
      var j :| 0 <= j < tries - 1 && Hits(steps, s', j);
      assert Hits(steps, s, j + 1);
    }
  }

  /** A shift finds a step if and only if one of the sampled positions holds a temporal one, whatever else the campaign has. */
  lemma {:induction false} ShiftFindsIff(steps: seq<AttackStep>, s: bv64, tries: nat)
    requires steps != []
    ensures ShiftAt(steps, s, tries).Some? <==> Found(steps, s, tries)
    decreases tries
  {
    if tries > 0 {
      ShiftFindsIff(steps, NextState(s), tries - 1);
      forall j: nat | j > 0 ensures Hits(steps, s, j) == Hits(steps, NextState(s), j - 1) {
        HitsShift(steps, s, j);
      }
      FoundStep(steps, s, NextState(s), tries);
    }
  }

  /** It can miss: with seed 2 both samples from two steps take the first, so a temporal second step is not found. */
  lemma ShiftCanMiss(steps: seq<AttackStep>)
    requires |steps| == 2 && !steps[0].kind.TemporalStep? && steps[1].kind.TemporalStep?
    ensures ShiftAt(steps, 2, 2) == None
  {
    FirstDraws();
    assert Drawn(0x400_0002) % 2 == 0 && Drawn(0x8_0080_0100_5002) % 2 == 0;
    assert ShiftAt(steps, 0x8_0080_0100_5002, 0) == None;
    assert ShiftAt(steps, 0x400_0002, 1) == None;
  }

  function Operated(g: AttackGrammar, base: AdversarialCampaign, req: MutationRequest): Option<seq<AttackStep>>
    requires ValidGrammar(g) && base.steps != []
  {
    match req.operator
    case PointMutation => Some(PointAt(g, base.steps, req.seed))
    case Crossover =>
      if req.donor.Some? && ValidCampaign(req.donor.value) then Some(CrossAt(base.steps, req.donor.value.steps, req.seed)) else None
    case Insertion => Some(InsertAt(g, base.steps, req.seed))
    case Deletion => if |base.steps| == 1 then None else Some(DeleteAt(base.steps, req.seed))
    case TemporalShift => ShiftAt(base.steps, req.seed, |base.steps|)
  }

  lemma CrossIsCrossed(steps: seq<AttackStep>, donor: seq<AttackStep>, s: bv64)
    requires steps != [] && donor != []
    ensures Crossed(steps, donor, CrossAt(steps, donor, s))
  {
    if |steps| == 1 {
      assert steps[..1] == steps;
    }
  }

  lemma ShiftShiftsStep(step: AttackStep, v: nat, coin: nat)
    requires step.kind.TemporalStep?
    ensures ShiftsStep(step, ShiftedStep(step, v, coin))
  {
    var delta := 5 + v % 245;
    assert 5 <= delta < 250;
  }

  lemma {:induction false} ShiftIsShifted(steps: seq<AttackStep>, s: bv64, tries: nat)
    requires steps != [] && ShiftAt(steps, s, tries).Some?
    ensures Shifted(steps, ShiftAt(steps, s, tries).value)
    decreases tries
  {
    var i := Drawn(NextState(s)) % |steps|;
    if steps[i].kind.TemporalStep? {
      ShiftShiftsStep(steps[i], Drawn(NextState(NextState(s))), Drawn(Thrice(s)));
    } else {
      ShiftIsShifted(steps, NextState(s), tries - 1);
    }
  }

  /** An even coin delays the step, an odd one hastens it, never below one; by 5 milliseconds and up to 244 more. */
  lemma CoinDecidesDirection(step: AttackStep, v: nat, coin: nat)
    requires step.kind.TemporalStep? && step.kind.delayMs <= U64_MAX - 249
    ensures coin % 2 == 0 ==> ShiftedStep(step, v, coin).kind.delayMs == step.kind.delayMs + 5 + v % 245
    ensures coin % 2 == 1 ==> ShiftedStep(step, v, coin).kind.delayMs == Max(step.kind.delayMs - 5 - v % 245, 1)
    ensures ShiftedStep(step, v, coin).productionLabel == step.kind.stage == ShiftedStep(step, v, coin).kind.stage
  {
  }

  /** What seed 2 does to three steps and a donor of five: its first draw picks the place, for a crossover the cut in the base,
      and the second the cut in the donor. */
  lemma OperatorsOfSeedTwo(g: AttackGrammar, a: AttackStep, b: AttackStep, c: AttackStep, donor: seq<AttackStep>)
    requires ValidGrammar(g) && |donor| == 5
    ensures PointAt(g, [a, b, c], 2) == [a, b, StepFrom(g, 2, 0x400_0002)]
    ensures InsertAt(g, [a, b, c], 2) == [a, b, StepFrom(g, 2, 0x400_0002), c]
    ensures DeleteAt([a, b, c], 2) == [a, b]
    ensures CrossAt([a, b, c], donor, 2) == [a, donor[3], donor[4]]
    ensures CrossAt([a], donor, 2) == [a] + donor
  {
    FirstDraws();
    assert 10_360_984_590_412_790_330 % 3 == 2 && 10_360_984_590_412_790_330 % 4 == 2;
    assert 10_360_984_590_412_790_330 % 2 == 0 && 10_360_984_590_412_790_330 % 5 == 0 && 6_313_850_216_121_551_418 % 5 == 3;
    var s := [a, b, c];
    assert s[..2] + [StepFrom(g, 2, 0x400_0002)] + s[2..] == [a, b, StepFrom(g, 2, 0x400_0002), c];
    assert s[..2] + s[3..] == [a, b] && s[..1] == [a] && donor[3..] == [donor[3], donor[4]] && donor[0..] == donor;
  }

  /** Whatever the seed draws, an operator only does what its name says. */
  lemma OperatedIsApplied(g: AttackGrammar, base: AdversarialCampaign, req: MutationRequest)
    requires ValidGrammar(g) && base.steps != [] && Operated(g, base, req).Some?
    ensures Applied(g, base, req, Operated(g, base, req).value)
  {
    var steps, s := base.steps, req.seed;
    match req.operator {
      case PointMutation => StepFromIsGenerated(g, Drawn(NextState(s)) % |steps|, NextState(s));
      case Crossover => CrossIsCrossed(steps, req.donor.value.steps, s);
      case Insertion => StepFromIsGenerated(g, Drawn(NextState(s)) % (|steps| + 1), NextState(s));
      case Deletion => assert Deleted(steps, DeleteAt(steps, s));
      case TemporalShift => ShiftIsShifted(steps, s, |steps|);
    }
  }

  // ----- the operators in place -----

  method MutatePoint(g: AttackGrammar, steps: seq<AttackStep>, rng: DeterministicRng) returns (r: seq<AttackStep>)
    requires rng.Valid() && ValidGrammar(g) && steps != []
    modifies rng
    ensures r == PointAt(g, steps, old(rng.state))
  {
    var index := rng.ChooseIndex(|steps|);
    var step := GenerateStep(g, index, rng);
    r := steps[index := step.value];
  }

  method CrossSteps(steps: seq<AttackStep>, donor: seq<AttackStep>, rng: DeterministicRng) returns (r: seq<AttackStep>)
    requires rng.Valid() && steps != [] && donor != []
    modifies rng
    ensures r == CrossAt(steps, donor, old(rng.state)) && r != []
  {
    var splitLeft := rng.RangeU64(1, |steps|);
    var splitRight := rng.RangeU64(0, |donor|);
    r := steps[..splitLeft] + donor[splitRight..];
    assert |steps| == 1 ==> steps[..1] == steps;
    // the source generates a step here when the result is empty, which it never is
  }

  method InsertStep(g: AttackGrammar, steps: seq<AttackStep>, rng: DeterministicRng) returns (r: seq<AttackStep>)
    requires rng.Valid() && ValidGrammar(g)
    modifies rng
    ensures r == InsertAt(g, steps, old(rng.state))
  {
    var index := rng.ChooseIndex(|steps| + 1);
    var step := GenerateStep(g, index, rng);
    r := steps[..index] + [step.value] + steps[index..];
  }

  method DeleteStep(steps: seq<AttackStep>, rng: DeterministicRng) returns (r: seq<AttackStep>)
    requires rng.Valid() && |steps| > 1
    modifies rng
    ensures r == DeleteAt(steps, old(rng.state))
  {
    var index := rng.ChooseIndex(|steps|);
    r := steps[..index] + steps[index + 1..];
  }

  method ShiftOne(steps: seq<AttackStep>, index: nat, rng: DeterministicRng) returns (r: seq<AttackStep>)
    requires rng.Valid() && index < |steps| && steps[index].kind.TemporalStep?
    modifies rng
    ensures var s := NextState(old(rng.state));
            r == steps[index := ShiftedStep(steps[index], Drawn(s), Drawn(NextState(s)))]
  {
    var v := rng.RangeU64(5, 250);
    var coin := rng.NextU64();
    var step := steps[index];
    var delay := if coin % 2 == 0 then SatAdd(step.kind.delayMs, v) else Max(SatSub(step.kind.delayMs, v), 1);
    r := steps[index := step.(kind := TemporalStep(step.kind.stage, delay), productionLabel := step.kind.stage)];
  }

  method ShiftStep(steps: seq<AttackStep>, rng: DeterministicRng) returns (r: Option<seq<AttackStep>>)
    requires rng.Valid() && steps != []
    modifies rng
    ensures r == ShiftAt(steps, old(rng.state), |steps|)
  {
    var k := 0;
    while k < |steps|
      invariant rng.Valid() && 0 <= k <= |steps|
      invariant ShiftAt(steps, rng.state, |steps| - k) == ShiftAt(steps, old(rng.state), |steps|)
    {
      var index := rng.ChooseIndex(|steps|);
      if steps[index].kind.TemporalStep? {
        var shifted := ShiftOne(steps, index, rng);
        return Some(shifted);
      }
      k := k + 1;
    }
    return None;
  }

  // ----- the mutated campaign -----

  function Finished(base: AdversarialCampaign, steps: seq<AttackStep>, seed: u64, op: MutationOperator, d: Digests): AdversarialCampaign {
    var id := "camp-" + d.ofCampaign(base.policyId, base.grammarVersion, seed, op);
    var trace := "trace-" + d.ofId(id);
    base.(steps := Renumber(steps), seed := seed, campaignId := id, traceId := trace, decisionId := "decision-" + d.ofId(trace))
  }

  /** A mutated campaign keeps policy, version and complexity; its ids are derived from them, its seed and the operator. */
  lemma FinishedIds(base: AdversarialCampaign, steps: seq<AttackStep>, seed: u64, op: MutationOperator, d: Digests)
    ensures var c := Finished(base, steps, seed, op, d);
            && c.policyId == base.policyId && c.grammarVersion == base.grammarVersion && c.complexity == base.complexity
            && c.seed == seed && |c.steps| == |steps|
            && c.campaignId == "camp-" + d.ofCampaign(c.policyId, c.grammarVersion, c.seed, op)
            && c.traceId == "trace-" + d.ofId(c.campaignId) && c.decisionId == "decision-" + d.ofId(c.traceId)
  {
  }

  predicate Labelled(steps: seq<AttackStep>) {
    forall i :: 0 <= i < |steps| ==> !IsBlank(steps[i].productionLabel)
  }

  /** Everything but the steps of a finished campaign is valid by construction; the steps are exactly when there are some,
      they fit 32-bit numbering and are labelled. */
  lemma FinishedIsValidIff(base: AdversarialCampaign, steps: seq<AttackStep>, seed: u64, op: MutationOperator, d: Digests)
    requires ValidCampaign(base) && seed != 0
    ensures ValidCampaign(Finished(base, steps, seed, op, d)) <==> 0 < |steps| <= TWO_32 && Labelled(steps)
  {
    var c := Finished(base, steps, seed, op, d);
    NotBlank(c.campaignId, 0);
    NotBlank(c.traceId, 0);
    NotBlank(c.decisionId, 0);
    if |steps| > TWO_32 {
      assert c.steps[TWO_32].stepId != TWO_32;
    }
    assert forall i :: 0 <= i < |steps| ==> c.steps[i].productionLabel == steps[i].productionLabel;
  }

  // What a request asks of its inputs, beyond a valid base, grammar and seed, for its operator to be applied.
  predicate Possible(base: AdversarialCampaign, req: MutationRequest) {
    match req.operator
    case PointMutation => true
    case Crossover => req.donor.Some? && ValidCampaign(req.donor.value) && |base.steps| + |req.donor.value.steps| <= TWO_32
    case Insertion => |base.steps| < TWO_32
    case Deletion => |base.steps| > 1
    case TemporalShift => false
  }

  lemma StepsFit(steps: seq<AttackStep>)
    requires ValidSteps(steps)
    ensures 0 < |steps| <= TWO_32 && Labelled(steps)
  {
    assert steps[|steps| - 1].stepId == |steps| - 1;
  }

  lemma AppliedFits(g: AttackGrammar, base: AdversarialCampaign, req: MutationRequest, after: seq<AttackStep>)
    requires ValidCampaign(base) && ValidGrammar(g) && Possible(base, req) && Applied(g, base, req, after)
    ensures 0 < |after| <= TWO_32 && Labelled(after)
  {
    StepsFit(base.steps);
    match req.operator {
      case PointMutation =>
      case Crossover => StepsFit(req.donor.value.steps);
      case Insertion =>
      case Deletion =>
    }
  }

  /** On inputs its operator can handle, a mutation finds steps that make a valid campaign. */
  lemma PossibleOperationFits(g: AttackGrammar, base: AdversarialCampaign, req: MutationRequest)
    requires ValidCampaign(base) && ValidGrammar(g) && Possible(base, req)
    ensures Operated(g, base, req).Some?
    ensures 0 < |Operated(g, base, req).value| <= TWO_32 && Labelled(Operated(g, base, req).value)
  {
    OperatedIsApplied(g, base, req);
    AppliedFits(g, base, req, Operated(g, base, req).value);
  }

  // Runs the operator on the steps of the base campaign.
  method ApplyOperator(base: AdversarialCampaign, g: AttackGrammar, req: MutationRequest, rng: DeterministicRng)
    returns (r: Result<seq<AttackStep>, CampaignError>)
    requires ValidCampaign(base) && ValidGrammar(g) && rng.Valid() && rng.state == req.seed
    modifies rng
    ensures r.Success? <==> Operated(g, base, req).Some?
    ensures r.Success? ==> r.value == Operated(g, base, req).value
    ensures r.Failure? ==> r.error == if req.operator == Crossover && req.donor.Some? then InvalidCampaign else InvalidMutation
  {
    match req.operator {
      case PointMutation =>
        var steps := MutatePoint(g, base.steps, rng);
        return Success(steps);
      case Crossover =>
        if req.donor.None? {
          return Failure(InvalidMutation);
        }
        if !ValidCampaign(req.donor.value) {
          return Failure(InvalidCampaign);
        }
        var steps := CrossSteps(base.steps, req.donor.value.steps, rng);
        return Success(steps);
      case Insertion =>
        var steps := InsertStep(g, base.steps, rng);
        return Success(steps);
      case Deletion =>
        if |base.steps| == 1 {
          return Failure(InvalidMutation);
        }
        var steps := DeleteStep(base.steps, rng);
        return Success(steps);
      case TemporalShift =>
        var shifted := ShiftStep(base.steps, rng);
        if shifted.None? {
          return Failure(InvalidMutation);
        }
        return Success(shifted.value);
    }
  }

  predicate ValidInputs(base: AdversarialCampaign, g: AttackGrammar, req: MutationRequest) {
    ValidCampaign(base) && ValidGrammar(g) && req.seed != 0
  }

  // The steps the operator leaves can be renumbered and labelled as a campaign's.
  predicate Acceptable(steps: Option<seq<AttackStep>>) {
    steps.Some? && 0 < |steps.value| <= TWO_32 && Labelled(steps.value)
  }

  // The error of a refused request: what is wrong with the first bad input, a step the operator lacks, or its result.
  function Objection(base: AdversarialCampaign, g: AttackGrammar, req: MutationRequest): CampaignError {
    if !ValidCampaign(base) then InvalidCampaign
    else if !ValidGrammar(g) then InvalidGrammar
    else if req.seed == 0 then InvalidSeed
    else if req.operator == Crossover then (if req.donor.None? then InvalidMutation else InvalidCampaign)
    else if req.operator == Deletion && |base.steps| == 1 then InvalidMutation
    else if req.operator == TemporalShift && ShiftAt(base.steps, req.seed, |base.steps|).None? then InvalidMutation
    else InvalidCampaign
  }

  lemma ObjectionToOperation(base: AdversarialCampaign, g: AttackGrammar, req: MutationRequest)
    requires ValidInputs(base, g, req)
    ensures Operated(g, base, req).None? ==>
              Objection(base, g, req) == if req.operator == Crossover && req.donor.Some? then InvalidCampaign else InvalidMutation
    ensures Operated(g, base, req).Some? ==> Objection(base, g, req) == InvalidCampaign
  {
  }

  method SeedNumber(seed: bv64) returns (n: u64)
    requires seed != 0
    ensures n == seed as nat && n != 0
  {
    AsNumber(seed);
    n := seed as nat;
  }

  // The last check: the finished campaign must be valid.
  method Finish(base: AdversarialCampaign, steps: seq<AttackStep>, seed: u64, op: MutationOperator, d: Digests)
    returns (r: Result<AdversarialCampaign, CampaignError>)
    requires ValidCampaign(base) && seed != 0
    ensures r.Success? <==> Acceptable(Some(steps))
    ensures r == if r.Success? then Success(Finished(base, steps, seed, op, d)) else Failure(InvalidCampaign)
    ensures r.Success? ==> ValidCampaign(r.value)
  {
    var mutated := Finished(base, steps, seed, op, d);
    FinishedIsValidIff(base, steps, seed, op, d);
    if !ValidCampaign(mutated) {
      return Failure(InvalidCampaign);
    }
    return Success(mutated);
  }

  /** A mutation succeeds exactly when its operator leaves acceptable steps, and then yields the valid campaign with
      those steps renumbered; which steps those are depends on the seed alone. */
  method Mutate(base: AdversarialCampaign, g: AttackGrammar, req: MutationRequest, d: Digests)
    returns (r: Result<AdversarialCampaign, CampaignError>)
    ensures r.Success? <==> ValidInputs(base, g, req) && Acceptable(Operated(g, base, req))
    ensures r.Success? ==>
              && ValidCampaign(r.value) && r.value.seed == req.seed as nat
              && r.value == Finished(base, Operated(g, base, req).value, r.value.seed, req.operator, d)
    ensures r.Failure? ==> r.error == Objection(base, g, req)
  {
    if !ValidCampaign(base) {
      return Failure(InvalidCampaign);
    }
    if !ValidGrammar(g) {
      return Failure(InvalidGrammar);
    }
    var seeded := Seeded(req.seed);
    if seeded.Failure? {
      return Failure(seeded.error);
    }
    var rng := seeded.value;
    ObjectionToOperation(base, g, req);
    var applied := ApplyOperator(base, g, req, rng);
    if applied.Failure? {
      return Failure(applied.error);
    }
    var seed := SeedNumber(req.seed);
    r := Finish(base, applied.value, seed, req.operator, d);
  }
}
