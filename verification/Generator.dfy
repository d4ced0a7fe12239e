/** The continuous campaign generator. */
module Generator {
  import opened Machine
  import opened Campaign
  import opened Minimizer
  import opened MinimizerOrder
  import opened Calibration
  import opened Rng
  import opened Grammar

  datatype GeneratorConfig = GeneratorConfig(
    policyId: string,
    campaignsPerHour: nat,
    maxBackpressureQueue: nat,
    promotionThreshold: nat)

  // The hashes that ids are formatted from.
  datatype IdDigests = IdDigests(ofCampaign: (string, u32, nat, nat) -> string, ofId: string -> string)

  datatype DeterministicReproFixture = DeterministicReproFixture(
    campaignId: string,
    traceId: string,
    decisionId: string,
    policyId: string,
    seed: u64,
    attackSequence: seq<AttackStep>,
    expectedDefenseResponse: string,
    actualDefenseResponse: string,
    minimalityProof: MinimizationProof)

  datatype EventKind = CampaignScored(escaped: bool) | FailurePromoted | MinimizationFailed(error: CampaignError)

  datatype CampaignEvent = CampaignEvent(
    traceId: string,
    decisionId: string,
    policyId: string,
    kind: EventKind,
    campaignId: string,
    composite: nat)

  function Event(c: AdversarialCampaign, kind: EventKind, composite: nat): CampaignEvent {
    CampaignEvent(c.traceId, c.decisionId, c.policyId, kind, c.campaignId, composite)
  }

  function BuildFixture(m: AdversarialCampaign, expected: string, actual: string, proof: MinimizationProof): DeterministicReproFixture {
    DeterministicReproFixture(m.campaignId, m.traceId, m.decisionId, m.policyId, m.seed, m.steps, expected, actual, proof)
  }

  // A campaign generated under grammar g.
  predicate GeneratedUnder(g: AttackGrammar, complexity: CampaignComplexity, c: AdversarialCampaign) {
    && ValidCampaign(c)
    && c.complexity == complexity && c.grammarVersion == g.version
    && |c.steps| == complexity.TargetSteps() && AllGenerated(g, c.steps)
  }

  // The state after n steps have been generated.
  function StateAfter(s: bv64, n: nat): bv64 {
    if n == 0 then s else Thrice(StateAfter(s, n - 1))
  }

  function FirstOf(f: nat -> AttackStep, n: nat): seq<AttackStep> {
    if n == 0 then [] else FirstOf(f, n - 1) + [f(n - 1)]
  }

  // The steps that the grammar generates from a state, one after the other.
  function Generating(g: AttackGrammar, s: bv64): nat -> AttackStep
    requires ValidGrammar(g)
  {
    (i: nat) => StepFrom(g, i, StateAfter(s, i))
  }

  function StepsFrom(g: AttackGrammar, s: bv64, n: nat): seq<AttackStep>
    requires ValidGrammar(g)
  {
    FirstOf(Generating(g, s), n)
  }

  predicate AllGenerated(g: AttackGrammar, steps: seq<AttackStep>) {
    forall i :: 0 <= i < |steps| ==> Generated(g, i, steps[i])
  }

  lemma OneMoreGenerated(g: AttackGrammar, steps: seq<AttackStep>, step: AttackStep)
    requires AllGenerated(g, steps) && Generated(g, |steps|, step)
    ensures AllGenerated(g, steps + [step])
  {
    forall i | 0 <= i < |steps| + 1 ensures Generated(g, i, (steps + [step])[i]) {
      assert (steps + [step])[i] == if i < |steps| then steps[i] else step;
    }
  }

  lemma {:induction false} FirstAreGenerated(g: AttackGrammar, f: nat -> AttackStep, n: nat)
    requires forall i: nat :: Generated(g, i, f(i))
    ensures |FirstOf(f, n)| == n && AllGenerated(g, FirstOf(f, n))
  {
    if n > 0 {
      FirstAreGenerated(g, f, n - 1);
      OneMoreGenerated(g, FirstOf(f, n - 1), f(n - 1));
    }
  }

  /** Whatever the state, the steps are the grammar's and are numbered by position. */
  lemma StepsAreGenerated(g: AttackGrammar, s: bv64, n: nat)
    requires ValidGrammar(g)
    ensures |StepsFrom(g, s, n)| == n && AllGenerated(g, StepsFrom(g, s, n))
  {
    var f := Generating(g, s);
    forall i: nat ensures Generated(g, i, f(i)) {
      StepFromIsGenerated(g, i, StateAfter(s, i));
    }
    FirstAreGenerated(g, f, n);
  }

  /** The steps from state 2 start with the one drawn from it, and the next is drawn three numbers later. */
  lemma StepsFromStateTwo(g: AttackGrammar)
    requires ValidGrammar(g)
    ensures StepsFrom(g, 2, 2) == [StepFrom(g, 0, 2), StepFrom(g, 1, 0x1A_0080_0440_5007)]
  {
    FirstDraws();
    assert StateAfter(2, 1) == 0x1A_0080_0440_5007;
    assert FirstOf(Generating(g, 2), 1) == [StepFrom(g, 0, 2)];
  }

  method GenerateSteps(g: AttackGrammar, count: nat, rng: DeterministicRng) returns (steps: seq<AttackStep>)
    requires ValidGrammar(g) && rng.Valid()
    modifies rng
    ensures steps == StepsFrom(g, old(rng.state), count)
  {
    steps := [];
    var idx := 0;
    while idx < count
      invariant rng.Valid() && 0 <= idx <= count
      invariant rng.state == StateAfter(old(rng.state), idx) && steps == StepsFrom(g, old(rng.state), idx)
    {
      var step := GenerateStep(g, idx, rng);
      steps := steps + [step.value];
      idx := idx + 1;
    }
  }

  // The campaign with its ids formatted from its seed and its place in the sequence.
  function Assembled(d: IdDigests, policyId: string, version: u32, seed: u64, sequence: nat,
                     complexity: CampaignComplexity, steps: seq<AttackStep>): AdversarialCampaign
  {
    var id := "camp-" + d.ofCampaign(policyId, version, seed, sequence);
    var trace := "trace-" + d.ofId(id);
    AdversarialCampaign(id, trace, "decision-" + d.ofId(trace), policyId, version, Max(seed, 1), complexity, steps)
  }

  /** A generated campaign's ids are derived from policy, version, seed and place in the sequence. */
  lemma AssembledIds(d: IdDigests, policyId: string, version: u32, seed: u64, sequence: nat,
                     complexity: CampaignComplexity, steps: seq<AttackStep>)
    requires seed > 0
    ensures var c := Assembled(d, policyId, version, seed, sequence, complexity, steps);
            && c.policyId == policyId && c.grammarVersion == version && c.seed == seed
            && c.complexity == complexity && c.steps == steps
            && c.campaignId == "camp-" + d.ofCampaign(policyId, version, seed, sequence)
            && c.traceId == "trace-" + d.ofId(c.campaignId) && c.decisionId == "decision-" + d.ofId(c.traceId)
  {
  }

  lemma AssembledIsGenerated(d: IdDigests, policyId: string, g: AttackGrammar, seed: u64, sequence: nat,
                             complexity: CampaignComplexity, steps: seq<AttackStep>)
    requires g.version > 0 && !IsBlank(policyId) && |steps| == complexity.TargetSteps() && AllGenerated(g, steps)
    ensures GeneratedUnder(g, complexity, Assembled(d, policyId, g.version, seed, sequence, complexity, steps))
  {
    var c := Assembled(d, policyId, g.version, seed, sequence, complexity, steps);
    NotBlank(c.campaignId, 0);
    NotBlank(c.traceId, 0);
    NotBlank(c.decisionId, 0);
    forall i | 0 <= i < |steps| ensures steps[i].stepId == i && !IsBlank(steps[i].productionLabel) {
      assert Generated(g, i, steps[i]);
    }
  }

  // Draws a seed, and a generator of its own for the next campaign; `max(1)` guards against a zero that never comes.
  method Fork(rng: DeterministicRng) returns (seed: u64, local: DeterministicRng)
    requires rng.Valid()
    modifies rng
    ensures rng.Valid() && rng.state == NextState(old(rng.state)) && seed == Drawn(rng.state)
    ensures fresh(local) && local.Valid() && local.state == Output(rng.state)
  {
    var v := rng.NextU64();
    DrawnIsPositive(rng.state);
    OddMultiplier(rng.state);
    seed := v;
    var bits := Output(rng.state);
    local := new DeterministicRng(if bits < 1 then 1 else bits);
  }

  // The steps of the next campaign, drawn from a generator of its own.
  method DrawSteps(g: AttackGrammar, count: nat, rng: DeterministicRng) returns (seed: u64, steps: seq<AttackStep>)
    requires ValidGrammar(g) && rng.Valid()
    modifies rng
    ensures rng.Valid() && rng.state == NextState(old(rng.state)) && seed == Drawn(rng.state)
    ensures steps == StepsFrom(g, Output(rng.state), count) && |steps| == count && AllGenerated(g, steps)
  {
    var local;
    seed, local := Fork(rng);
    ghost var s := local.state;
    steps := GenerateSteps(g, count, local);
    StepsAreGenerated(g, s, count);
  }

  // What the promotion of a failing campaign records, for some result of its minimization.
  ghost predicate FixtureOf(f: AdversarialCampaign -> bool, c: AdversarialCampaign, expected: string, actual: string,
                            fixture: DeterministicReproFixture, m: AdversarialCampaign)
  {
    && Minimized(f, c, m, fixture.minimalityProof)
    && (m, fixture.minimalityProof.rounds) == Shrunk(f, c, InitialChunk(c))
    && fixture == BuildFixture(m, expected, actual, fixture.minimalityProof)
  }

  predicate AcceptedConfig(g: AttackGrammar, config: GeneratorConfig, seed: bv64) {
    ValidGrammar(g) && !IsBlank(config.policyId) && config.campaignsPerHour != 0 && seed != 0
  }

  datatype Scored = Scored(campaign: AdversarialCampaign, score: ExploitObjectiveScore)

  predicate Executed(complexity: CampaignComplexity, execute: AdversarialCampaign -> CampaignExecutionResult, x: Scored) {
    && ValidCampaign(x.campaign) && |x.campaign.steps| == complexity.TargetSteps()
    && ValidResult(execute(x.campaign)) && x.score == ScoreOf(execute(x.campaign))
  }

  predicate ScoredRun(g: AttackGrammar, complexity: CampaignComplexity,
                      execute: AdversarialCampaign -> CampaignExecutionResult, x: Scored)
  {
    GeneratedUnder(g, complexity, x.campaign) && Executed(complexity, execute, x)
  }

  function ScoredEvent(x: Scored): CampaignEvent {
    Event(x.campaign, CampaignScored(x.score.containmentEscape > 0), x.score.composite)
  }

  // The grammar after learning from all these campaigns in turn.
  function LearnedFrom(g: AttackGrammar, xs: seq<Scored>): AttackGrammar {
    if xs == [] then g
    else
      var last := xs[|xs| - 1];
      TunedGrammar(LearnedFrom(g, xs[..|xs| - 1]), last.campaign.steps, last.score.evasion)
  }

  function Filed(book: map<string, ExploitObjectiveScore>, xs: seq<Scored>): map<string, ExploitObjectiveScore> {
    if xs == [] then book
    else Filed(book, xs[..|xs| - 1])[xs[|xs| - 1].campaign.campaignId := xs[|xs| - 1].score]
  }

  function Promotions(xs: seq<Scored>, threshold: nat): nat {
    if xs == [] then 0
    else Promotions(xs[..|xs| - 1], threshold) + if xs[|xs| - 1].score.composite >= threshold then 1 else 0
  }

  lemma OneMoreRun(g: AttackGrammar, book: map<string, ExploitObjectiveScore>, xs: seq<Scored>, x: Scored, threshold: nat)
    ensures LearnedFrom(g, xs + [x]) == TunedGrammar(LearnedFrom(g, xs), x.campaign.steps, x.score.evasion)
    ensures Filed(book, xs + [x]) == Filed(book, xs)[x.campaign.campaignId := x.score]
    ensures Promotions(xs + [x], threshold) == Promotions(xs, threshold) + if x.score.composite >= threshold then 1 else 0
  {
    assert (xs + [x])[..|xs|] == xs;
  }

  predicate AlwaysFails(c: AdversarialCampaign) {
    true
  }

  // One fixture was added, and it has one step.
  ghost predicate OneStepAdded(before: map<string, DeterministicReproFixture>, after: map<string, DeterministicReproFixture>) {
    exists fixture :: OneStep(fixture) && after == before[fixture.campaignId := fixture]
  }

  predicate OneStep(fixture: DeterministicReproFixture) {
    |fixture.attackSequence| == 1
  }

  predicate OneStepAddedOnly(before: map<string, DeterministicReproFixture>, after: map<string, DeterministicReproFixture>) {
    && before.Keys <= after.Keys
    && forall id :: id in after ==> (id in before && after[id] == before[id]) || OneStep(after[id])
  }

  lemma OneStepLeft(c: AdversarialCampaign, fixture: DeterministicReproFixture)
    requires exists m :: FixtureOf(AlwaysFails, c, "containment", "evasion", fixture, m)
    ensures OneStep(fixture)
    ensures ValidCampaign(c) ==> fixture.attackSequence == [c.steps[|c.steps| - 1].(stepId := 0)]
  {
    var m :| FixtureOf(AlwaysFails, c, "containment", "evasion", fixture, m);
    if ValidCampaign(c) {
      TheLastStepRemains(AlwaysFails, c, m, fixture.minimalityProof);
    }
    AlwaysFailingLeavesOneStep(AlwaysFails, c, m, fixture.minimalityProof);
  }

  class CampaignGenerator {
    const config: GeneratorConfig
    const digests: IdDigests
    const rng: DeterministicRng
    var grammar: AttackGrammar
    var sequence: nat
    var regressionCorpus: map<string, DeterministicReproFixture>
    var events: seq<CampaignEvent>
    var scorebook: map<string, ExploitObjectiveScore>

    ghost predicate Valid()
      reads this, rng
    {
      ValidGrammar(grammar) && rng.Valid() && !IsBlank(config.policyId) && config.campaignsPerHour != 0
    }

    constructor (grammar: AttackGrammar, config: GeneratorConfig, digests: IdDigests, rng: DeterministicRng)
      requires ValidGrammar(grammar) && rng.Valid() && !IsBlank(config.policyId) && config.campaignsPerHour != 0
      ensures Valid() && this.rng == rng && this.grammar == grammar && this.config == config && this.digests == digests
      ensures sequence == 0 && regressionCorpus == map[] && events == [] && scorebook == map[]
    {
      this.grammar, this.config, this.digests, this.rng := grammar, config, digests, rng;
      sequence, regressionCorpus, events, scorebook := 0, map[], [], map[];
    }

    /** The largest number of campaigns that neither the hourly rate nor the room in the queue forbids. */
    function PlanCampaignCount(backlog: nat): (n: nat)
      ensures n <= config.campaignsPerHour && (n > 0 ==> backlog + n <= config.maxBackpressureQueue)
      ensures n == config.campaignsPerHour || backlog + n >= config.maxBackpressureQueue
    {
      if backlog >= config.maxBackpressureQueue then 0
      else Min(config.campaignsPerHour, config.maxBackpressureQueue - backlog)
    }

    /** From a valid generator a campaign always comes out, valid and fully made of grammar productions, and the generator
        stays valid. The campaign is a function of the grammar, the state of the generator and the sequence number. */
    method GenerateCampaign(complexity: CampaignComplexity) returns (r: Result<AdversarialCampaign, CampaignError>)
      requires Valid()
      modifies this`sequence, rng
      ensures Valid() && sequence == old(sequence) + 1 && rng.state == NextState(old(rng.state))
      ensures r.Success? && GeneratedUnder(grammar, complexity, r.value) && r.value.seed == Max(Drawn(rng.state), 1)
      ensures r.value.steps == StepsFrom(grammar, Output(rng.state), complexity.TargetSteps())
    {
      sequence := sequence + 1;
      var seed, steps := DrawSteps(grammar, complexity.TargetSteps(), rng);
      var campaign := Assembled(digests, config.policyId, grammar.version, seed, sequence, complexity, steps);
      AssembledIsGenerated(digests, config.policyId, grammar, seed, sequence, complexity, steps);
      r := if ValidCampaign(campaign) then Success(campaign) else Failure(InvalidCampaign);
    }

    method GenerateNext(complexity: CampaignComplexity) returns (campaign: AdversarialCampaign)
      requires Valid()
      modifies this`sequence, rng
      ensures Valid() && ValidCampaign(campaign) && GeneratedUnder(grammar, complexity, campaign)
    {
      var generated := GenerateCampaign(complexity);
      campaign := generated.value;
    }

    method RecordCampaignOutcome(campaign: AdversarialCampaign, score: ExploitObjectiveScore)
      returns (r: Result<(), CampaignError>)
      requires Valid()
      modifies this`grammar, this`scorebook, this`events
      ensures Valid() && (r.Success? <==> ValidCampaign(campaign))
      ensures r.Failure? ==>
                r.error == InvalidCampaign && grammar == old(grammar) && scorebook == old(scorebook) && events == old(events)
      ensures r.Success? ==>
                && grammar == TunedGrammar(old(grammar), campaign.steps, score.evasion)
                && scorebook == old(scorebook)[campaign.campaignId := score]
                && events == old(events) + [Event(campaign, CampaignScored(score.containmentEscape > 0), score.composite)]
    {
      if !ValidCampaign(campaign) {
        return Failure(InvalidCampaign);
      }
      grammar := ApplyCampaignFeedback(grammar, campaign.steps, score.evasion);
      scorebook := scorebook[campaign.campaignId := score];
      events := events + [Event(campaign, CampaignScored(score.containmentEscape > 0), score.composite)];
      return Success(());
    }

    /** Promotes a campaign exactly when it is valid and fails, as the fixture of its minimization. */
    method PromoteFailureFixture(campaign: AdversarialCampaign, expected: string, actual: string,
                                 stillFails: AdversarialCampaign -> bool)
      returns (r: Result<DeterministicReproFixture, CampaignError>)
      modifies this`regressionCorpus, this`events
      ensures r.Success? <==> ValidCampaign(campaign) && stillFails(campaign)
      ensures r.Success? ==>
                && (exists m :: FixtureOf(stillFails, campaign, expected, actual, r.value, m)
                                && events == old(events) + [Event(m, FailurePromoted, Known(campaign.campaignId))])
                && regressionCorpus == old(regressionCorpus)[r.value.campaignId := r.value]
      ensures r.Failure? ==>
                && r.error == InvalidCampaign && regressionCorpus == old(regressionCorpus)
                && events == old(events) + [Event(campaign, MinimizationFailed(r.error), 0)]
    {
      var minimized := MinimizeWith(campaign, stillFails);
      if minimized.Failure? {
        events := events + [Event(campaign, MinimizationFailed(minimized.error), 0)];
        return Failure(minimized.error);
      }
      var (m, proof) := minimized.value;
      var fixture := BuildFixture(m, expected, actual, proof);
      regressionCorpus := regressionCorpus[fixture.campaignId := fixture];
      var id := campaign.campaignId;
      events := events + [Event(m, FailurePromoted, if id in scorebook then scorebook[id].composite else 0)];
      assert FixtureOf(stillFails, campaign, expected, actual, fixture, m);
      return Success(fixture);
    }

    // The composite score on record.
    function Known(id: string): nat
      reads this`scorebook
    {
      if id in scorebook then scorebook[id].composite else 0
    }

    /** One campaign of a cycle: generated under the current grammar, scored by its execution, learned from, and promoted
        as a one-step fixture exactly when its score reaches the threshold; only an invalid execution result stops it. */
    method RunOne(complexity: CampaignComplexity, execute: AdversarialCampaign -> CampaignExecutionResult)
      returns (r: Result<Scored, CampaignError>)
      requires Valid()
      modifies this`sequence, this`grammar, this`regressionCorpus, this`scorebook, this`events, rng
      ensures Valid()
      ensures r.Success? ==>
                && ScoredRun(old(grammar), complexity, execute, r.value)
                && grammar == TunedGrammar(old(grammar), r.value.campaign.steps, r.value.score.evasion)
                && scorebook == old(scorebook)[r.value.campaign.campaignId := r.value.score]
                && (if Reaches(r.value) then OneStepAdded(old(regressionCorpus), regressionCorpus)
                    else regressionCorpus == old(regressionCorpus))
                && |events| == |old(events)| + (if Reaches(r.value) then 2 else 1) && old(events) + [ScoredEvent(r.value)] <= events
                && (Reaches(r.value) ==> events[|events| - 1].kind == FailurePromoted
                                         && events[|events| - 1].composite == r.value.score.composite)
      ensures r.Failure? ==>
                && r.error == InvalidExecutionResult && regressionCorpus == old(regressionCorpus) && scorebook == old(scorebook)
                && grammar == old(grammar) && events == old(events)
                && exists c :: GeneratedUnder(old(grammar), complexity, c) && !ValidResult(execute(c))
    {
      var campaign := GenerateNext(complexity);
      var result := execute(campaign);
      if !ValidResult(result) {
        return Failure(InvalidExecutionResult);
      }
      var score := ScoreOf(result);
      var recorded := RecordCampaignOutcome(campaign, score);
      PromoteIfReached(campaign, score.composite);
      return Success(Scored(campaign, score));
    }

    predicate Reaches(x: Scored) {
      x.score.composite >= config.promotionThreshold
    }

    method PromoteIfReached(campaign: AdversarialCampaign, composite: nat)
      requires ValidCampaign(campaign) && composite == Known(campaign.campaignId)
      modifies this`regressionCorpus, this`events
      ensures if composite >= config.promotionThreshold then
                && OneStepAdded(old(regressionCorpus), regressionCorpus)
                && |events| == |old(events)| + 1 && old(events) <= events
                && events[|events| - 1].kind == FailurePromoted && events[|events| - 1].composite == composite
              else regressionCorpus == old(regressionCorpus) && events == old(events)
    {
      if composite >= config.promotionThreshold {
        var fixture := PromoteFailureFixture(campaign, "containment", "evasion", AlwaysFails);
        OneStepLeft(campaign, fixture.value);
      }
    }

    /** A cycle runs its whole plan unless an execution result is invalid, and every fixture it adds has a single step. */
    method RunCycle(complexity: CampaignComplexity, backlog: nat, execute: AdversarialCampaign -> CampaignExecutionResult)
      returns (r: Result<seq<Scored>, CampaignError>)
      requires Valid()
      modifies this`sequence, this`grammar, this`regressionCorpus, this`scorebook, this`events, rng
      ensures Valid() && OneStepAddedOnly(old(regressionCorpus), regressionCorpus)
      ensures r.Success? ==>
                && |r.value| == PlanCampaignCount(backlog)
                && (forall i :: 0 <= i < |r.value| ==> Executed(complexity, execute, r.value[i]))
                && grammar == LearnedFrom(old(grammar), r.value) && scorebook == Filed(old(scorebook), r.value)
                && old(events) <= events && |events| == |old(events)| + |r.value| + Promotions(r.value, config.promotionThreshold)
      ensures r.Failure? ==> r.error == InvalidExecutionResult && exists c :: ValidCampaign(c) && !ValidResult(execute(c))
    {
      var count := PlanCampaignCount(backlog);
      var outputs: seq<Scored> := [];
      while |outputs| < count
        invariant Valid() && |outputs| <= count && OneStepAddedOnly(old(regressionCorpus), regressionCorpus)
        invariant forall i :: 0 <= i < |outputs| ==> Executed(complexity, execute, outputs[i])
        invariant grammar == LearnedFrom(old(grammar), outputs) && scorebook == Filed(old(scorebook), outputs)
        invariant old(events) <= events && |events| == |old(events)| + |outputs| + Promotions(outputs, config.promotionThreshold)
      {
        var one := RunOne(complexity, execute);
        if one.Failure? {
          return Failure(one.error);
        }
        OneMoreRun(old(grammar), old(scorebook), outputs, one.value, config.promotionThreshold);
        outputs := outputs + [one.value];
      }
      return Success(outputs);
    }
  }

  /** A generator is made exactly from a valid grammar, a named policy, a positive hourly rate and a non-zero seed. */
  method NewGenerator(grammar: AttackGrammar, config: GeneratorConfig, seed: bv64, digests: IdDigests)
    returns (r: Result<CampaignGenerator, CampaignError>)
    ensures r.Success? <==> AcceptedConfig(grammar, config, seed)
    ensures r.Success? ==>
              && fresh(r.value) && fresh(r.value.rng) && r.value.Valid()
              && r.value.grammar == grammar && r.value.config == config && r.value.digests == digests
              && r.value.rng.state == seed && r.value.sequence == 0
              && r.value.regressionCorpus == map[] && r.value.events == [] && r.value.scorebook == map[]
    ensures r.Failure? ==> (r.error == InvalidGrammar <==> !ValidGrammar(grammar))
    ensures r.Failure? && ValidGrammar(grammar) ==>
              if IsBlank(config.policyId) || config.campaignsPerHour == 0 then r.error == InvalidCampaign
              else r.error == InvalidSeed
  {
    if !ValidGrammar(grammar) {
      return Failure(InvalidGrammar);
    }
    if IsBlank(config.policyId) {
      return Failure(InvalidCampaign);
    }
    if config.campaignsPerHour == 0 {
      return Failure(InvalidCampaign);
    }
    var seeded := Seeded(seed);
    if seeded.Failure? {
      return Failure(seeded.error);
    }
    var generator := new CampaignGenerator(grammar, config, digests, seeded.value);
    return Success(generator);
  }
}
