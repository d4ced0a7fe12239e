/** The red/blue calibration loop: what one calibration does to the guardplane parameters. */
module Calibration {
  import opened Machine
  import opened Arithmetic
  import opened Sequences
  import opened Campaign

  datatype ThreatCategory = CredentialTheft | EscalatedPrivilege | Persistence | DataExfiltration | EvadedPolicy

  datatype CampaignSeverity = Advisory | Moderate | Critical | Blocking

  datatype CampaignExecutionResult = CampaignExecutionResult(
    undetectedSteps: nat,
    totalSteps: nat,
    objectiveAchieved: bool,
    damagePotential: nat,
    evidenceAtoms: nat,
    novelTechnique: bool)

  datatype ContainmentDifficulty = EasyToContain | ModerateToContain | HardToContain | CriticalToContain

  datatype ExploitObjectiveScore = ExploitObjectiveScore(
    evasion: nat,
    containmentEscape: nat,
    damagePotential: nat,
    detectionDifficulty: nat,
    noveltyBonus: nat,
    composite: nat,
    difficulty: ContainmentDifficulty)

  datatype CampaignOutcomeRecord = CampaignOutcomeRecord(
    campaign: AdversarialCampaign,
    result: CampaignExecutionResult,
    score: ExploitObjectiveScore,
    benignControl: bool,
    falsePositive: bool,
    timestamp: nat)

  datatype DefenseSubsystem = Sentinel | Containment | EvidenceAccumulation | FleetConvergence

  datatype CampaignClassification = CampaignClassification(
    campaignId: string,
    subsystem: DefenseSubsystem,
    threatCategory: ThreatCategory,
    severity: CampaignSeverity,
    evasionReport: bool,
    escapeReport: bool,
    nearMissReport: bool)

  datatype CalibrationConfig = CalibrationConfig(
    targetFalseNegative: nat,
    targetFalsePositive: nat,
    maxThresholdDelta: nat,
    evidenceWeightDelta: nat,
    maxEvidenceWeight: u64)

  datatype Parameters = Parameters(
    threshold: nat,
    weights: map<AttackDimension, nat>,
    loss: map<ThreatCategory, nat>)

  const ALL_DIMENSIONS: set<AttackDimension> :=
    {HostcallSequence, TemporalPayload, PrivilegeEscalation, PolicyEvasion, Exfiltration}
  const ALL_CATEGORIES: set<ThreatCategory> :=
    {CredentialTheft, EscalatedPrivilege, Persistence, DataExfiltration, EvadedPolicy}

  type Classes = map<string, CampaignClassification>

  // ----- scoring and classifying an outcome -----

  predicate ValidResult(r: CampaignExecutionResult) {
    r.totalSteps > 0 && r.undetectedSteps <= r.totalSteps && r.damagePotential <= 1_000_000
  }

  function Evasion(r: CampaignExecutionResult): nat
    requires ValidResult(r)
  {
    QuotientNonNegative(r.undetectedSteps * 1_000_000, r.totalSteps);
    Min(r.undetectedSteps * 1_000_000 / r.totalSteps, 1_000_000)
  }

  function DifficultyOf(composite: nat): ContainmentDifficulty {
    if composite >= 850_000 then CriticalToContain
    else if composite >= 650_000 then HardToContain
    else if composite >= 400_000 then ModerateToContain
    else EasyToContain
  }

  function ScoreOf(r: CampaignExecutionResult): ExploitObjectiveScore
    requires ValidResult(r)
  {
    var evasion := Evasion(r);
    var escape := if r.objectiveAchieved then 1_000_000 else 0;
    var detection := Min(SatMul(r.evidenceAtoms, 20_000), 1_000_000);
    var novelty := if r.novelTechnique then 1_000_000 else 0;
    var composite := Min((evasion * 35 + escape * 25 + r.damagePotential * 20 + detection * 15 + novelty * 5) / 100, 1_000_000);
    ExploitObjectiveScore(evasion, escape, r.damagePotential, detection, novelty, composite, DifficultyOf(composite))
  }

  predicate ValidOutcome(o: CampaignOutcomeRecord) {
    && ValidCampaign(o.campaign)
    && ValidResult(o.result)
    && o.score == ScoreOf(o.result)
    && (o.falsePositive ==> o.benignControl)
  }

  predicate NearMiss(r: CampaignExecutionResult) {
    !r.objectiveAchieved && r.undetectedSteps < r.totalSteps && r.undetectedSteps + 1 >= r.totalSteps
  }

  function StepsIn(steps: seq<AttackStep>, d: AttackDimension): nat {
    if steps == [] then 0
    else StepsIn(steps[..|steps| - 1], d) + if steps[|steps| - 1].dimension == d then 1 else 0
  }

  // The most frequent dimension, the last in declaration order on a tie.
  function Dominant(steps: seq<AttackStep>): AttackDimension {
    var h, t, p, v, x := StepsIn(steps, HostcallSequence), StepsIn(steps, TemporalPayload),
                         StepsIn(steps, PrivilegeEscalation), StepsIn(steps, PolicyEvasion), StepsIn(steps, Exfiltration);
    if x > 0 && x >= h && x >= t && x >= p && x >= v then Exfiltration
    else if v > 0 && v >= h && v >= t && v >= p then PolicyEvasion
    else if p > 0 && p >= h && p >= t then PrivilegeEscalation
    else if t > 0 && t >= h then TemporalPayload
    else HostcallSequence
  }

  function CategoryOf(d: AttackDimension): ThreatCategory {
    match d
    case HostcallSequence => CredentialTheft
    case TemporalPayload => Persistence
    case PrivilegeEscalation => EscalatedPrivilege
    case PolicyEvasion => EvadedPolicy
    case Exfiltration => DataExfiltration
  }

  function SubsystemOf(r: CampaignExecutionResult): DefenseSubsystem {
    if r.objectiveAchieved then Containment
    else if r.undetectedSteps > 0 then Sentinel
    else if r.evidenceAtoms > 24 then EvidenceAccumulation
    else FleetConvergence
  }

  function SeverityOf(o: CampaignOutcomeRecord): CampaignSeverity {
    if o.result.objectiveAchieved && o.result.damagePotential >= 800_000 then Blocking
    else if o.result.objectiveAchieved || o.score.composite >= 800_000 then Critical
    else if NearMiss(o.result) || o.score.composite >= 500_000 then Moderate
    else Advisory
  }

  function Classify(o: CampaignOutcomeRecord): CampaignClassification {
    CampaignClassification(o.campaign.campaignId, SubsystemOf(o.result), CategoryOf(Dominant(o.campaign.steps)), SeverityOf(o),
                           o.result.undetectedSteps > 0, o.result.objectiveAchieved, NearMiss(o.result))
  }

  // ----- counting over the outcomes -----

  function Count(outcomes: seq<CampaignOutcomeRecord>, f: CampaignOutcomeRecord -> bool): (n: nat)
    ensures n <= |outcomes|
  {
    if outcomes == [] then 0
    else Count(outcomes[..|outcomes| - 1], f) + if f(outcomes[|outcomes| - 1]) then 1 else 0
  }

  predicate IsAttack(o: CampaignOutcomeRecord) { !o.benignControl }
  predicate IsEscape(o: CampaignOutcomeRecord) { !o.benignControl && o.result.objectiveAchieved }
  predicate IsBenign(o: CampaignOutcomeRecord) { o.benignControl }
  predicate IsFalseAlarm(o: CampaignOutcomeRecord) { o.benignControl && o.falsePositive }

  predicate Uses(o: CampaignOutcomeRecord, d: AttackDimension) {
    exists i :: 0 <= i < |o.campaign.steps| && o.campaign.steps[i].dimension == d
  }

  predicate Achieved(o: CampaignOutcomeRecord) { o.result.objectiveAchieved }

  // outcomes that count for f and use dimension d
  function With(f: CampaignOutcomeRecord -> bool, d: AttackDimension): CampaignOutcomeRecord -> bool {
    (o: CampaignOutcomeRecord) => f(o) && Uses(o, d)
  }

  function Escapes(outcomes: seq<CampaignOutcomeRecord>, d: AttackDimension): nat {
    Count(outcomes, With(Achieved, d))
  }

  function FalseAlarms(outcomes: seq<CampaignOutcomeRecord>, d: AttackDimension): nat {
    Count(outcomes, With(IsFalseAlarm, d))
  }

  // hits per attempts in millionths, zero without attempts
  function Rate(hits: nat, attempts: nat): nat {
    if attempts == 0 then 0
    else
      QuotientNonNegative(hits * 1_000_000, attempts);
      Min(hits * 1_000_000 / attempts, 1_000_000)
  }

  function FalseNegatives(outcomes: seq<CampaignOutcomeRecord>): nat {
    Rate(Count(outcomes, IsEscape), Count(outcomes, IsAttack))
  }

  function FalsePositives(outcomes: seq<CampaignOutcomeRecord>): nat {
    Rate(Count(outcomes, IsFalseAlarm), Count(outcomes, IsBenign))
  }

  // ----- one calibration, parameter by parameter -----

  function NewThreshold(cfg: CalibrationConfig, fn: nat, fp: nat, t: nat): nat {
    if fn > cfg.targetFalseNegative then Max(SatSub(t, Min(fn - cfg.targetFalseNegative, cfg.maxThresholdDelta)), 1)
    else if fp > cfg.targetFalsePositive then
      Max(Min(SatAdd(t, Min(fp - cfg.targetFalsePositive, cfg.maxThresholdDelta)), 1_000_000), 1)
    else t
  }

  function NewWeight(cfg: CalibrationConfig, escapes: nat, falseAlarms: nat, w: nat): nat {
    var up := SatMul(cfg.evidenceWeightDelta, Min(escapes, 5));
    var down := SatMul(cfg.evidenceWeightDelta, Min(falseAlarms, 5));
    Min(Max(SatSub(SatAdd(w, up), down), 50_000), cfg.maxEvidenceWeight)
  }

  // An outcome grave enough to raise a loss.
  predicate Counts(o: CampaignOutcomeRecord, classes: Classes) {
    && o.campaign.campaignId in classes
    && var k := classes[o.campaign.campaignId];
       k.escapeReport || k.severity == Critical || k.severity == Blocking
  }

  // An outcome whose damage raises the loss of category c.
  predicate Raises(o: CampaignOutcomeRecord, classes: Classes, c: ThreatCategory) {
    Counts(o, classes) && classes[o.campaign.campaignId].threatCategory == c
  }

  function Worst(outcomes: seq<CampaignOutcomeRecord>, classes: Classes, c: ThreatCategory): nat {
    if outcomes == [] then 0
    else
      var before, last := Worst(outcomes[..|outcomes| - 1], classes, c), outcomes[|outcomes| - 1];
      if Raises(last, classes, c) then Max(before, last.result.damagePotential) else before
  }

  // Every dimension has a weight and every category a loss, and the threshold is a positive fraction.
  ghost predicate Complete(p: Parameters) {
    && 1 <= p.threshold <= 1_000_000
    && (forall d: AttackDimension :: d in p.weights)
    && (forall c: ThreatCategory :: c in p.loss)
  }

  function Next(cfg: CalibrationConfig, outcomes: seq<CampaignOutcomeRecord>, classes: Classes, p: Parameters): Parameters {
    Parameters(
      NewThreshold(cfg, FalseNegatives(outcomes), FalsePositives(outcomes), p.threshold),
      map d | d in p.weights :: NewWeight(cfg, Escapes(outcomes, d), FalseAlarms(outcomes, d), p.weights[d]),
      map c | c in p.loss :: Max(p.loss[c], Worst(outcomes, classes, c)))
  }

  lemma ThresholdIsBounded(cfg: CalibrationConfig, fn: nat, fp: nat, t: nat)
    requires 1 <= t <= 1_000_000
    ensures 1 <= NewThreshold(cfg, fn, fp, t) <= 1_000_000
    ensures NewThreshold(cfg, fn, fp, t) <= t + cfg.maxThresholdDelta && t <= NewThreshold(cfg, fn, fp, t) + cfg.maxThresholdDelta
  {
  }

  /** Misses over their target win: they lower the threshold, by the whole allowed step while there is room. Only without
      them do false alarms over their target raise it. Otherwise it stays. */
  lemma ThresholdMovesAgainstTheExcess(cfg: CalibrationConfig, fn: nat, fp: nat, t: nat)
    requires 1 <= t <= 1_000_000 && cfg.maxThresholdDelta > 0
    ensures var t' := NewThreshold(cfg, fn, fp, t);
            && (t' < t <==> fn > cfg.targetFalseNegative && t > 1)
            && (t' > t <==> fn <= cfg.targetFalseNegative && fp > cfg.targetFalsePositive && t < 1_000_000)
            && (t' < t ==> t' == 1 || t' == t - Min(fn - cfg.targetFalseNegative, cfg.maxThresholdDelta))
            && (t' > t ==> t' == 1_000_000 || t' == t + Min(fp - cfg.targetFalsePositive, cfg.maxThresholdDelta))
  {
  }

  lemma WeightIsBounded(cfg: CalibrationConfig, escapes: nat, falseAlarms: nat, w: nat)
    ensures Min(50_000, cfg.maxEvidenceWeight) <= NewWeight(cfg, escapes, falseAlarms, w) <= cfg.maxEvidenceWeight
  {
  }

  predicate NeverLower<T>(a: map<T, nat>, b: map<T, nat>) {
    a.Keys == b.Keys && forall k :: k in a ==> a[k] <= b[k]
  }

  predicate AllWithin<T>(a: map<T, nat>, lo: int, hi: int) {
    forall k :: k in a ==> lo <= a[k] <= hi
  }

  /** The threshold stays in range and moves by at most the configured step; losses never go down. */
  lemma NextIsBounded(cfg: CalibrationConfig, outcomes: seq<CampaignOutcomeRecord>, classes: Classes, p: Parameters)
    requires Complete(p)
    ensures var q := Next(cfg, outcomes, classes, p);
            && Complete(q)
            && q.threshold <= p.threshold + cfg.maxThresholdDelta && p.threshold <= q.threshold + cfg.maxThresholdDelta
            && NeverLower(p.loss, q.loss)
            && AllWithin(q.weights, Min(50_000, cfg.maxEvidenceWeight), cfg.maxEvidenceWeight)
  {
    var q := Next(cfg, outcomes, classes, p);
    ThresholdIsBounded(cfg, FalseNegatives(outcomes), FalsePositives(outcomes), p.threshold);
    forall d | d in q.weights ensures Min(50_000, cfg.maxEvidenceWeight) <= q.weights[d] <= cfg.maxEvidenceWeight {
      WeightIsBounded(cfg, Escapes(outcomes, d), FalseAlarms(outcomes, d), p.weights[d]);
    }
  }

  // ----- what the score says -----

  lemma {:induction false} CountIsPlaces(outcomes: seq<CampaignOutcomeRecord>, f: CampaignOutcomeRecord -> bool)
    ensures Count(outcomes, f) == |Places(outcomes, f)|
  {
    if outcomes != [] {
      PlacesOfFront(outcomes, f);
      CountIsPlaces(outcomes[..|outcomes| - 1], f);
    }
  }

  lemma {:induction false} StepsInIsPlaces(steps: seq<AttackStep>, d: AttackDimension)
    ensures StepsIn(steps, d) == |Places(steps, (s: AttackStep) => s.dimension == d)|
  {
    if steps != [] {
      PlacesOfFront(steps, (s: AttackStep) => s.dimension == d);
      StepsInIsPlaces(steps[..|steps| - 1], d);
    }
  }

  /** The composite weighs evasion by 35, escape by 25, damage by 20, detection difficulty by 15 and novelty by 5 parts in a
      hundred, rounded down; evasion is the fraction of undetected steps, each missing trace counts 20_000 up to a million. */
  lemma CompositeIsWeighted(r: CampaignExecutionResult)
    requires ValidResult(r)
    ensures var s := ScoreOf(r);
            && s.evasion * r.totalSteps <= r.undetectedSteps * 1_000_000 < (s.evasion + 1) * r.totalSteps
            && s.containmentEscape == (if r.objectiveAchieved then 1_000_000 else 0) && s.damagePotential == r.damagePotential
            && s.detectionDifficulty == Min(r.evidenceAtoms * 20_000, 1_000_000)
            && s.noveltyBonus == (if r.novelTechnique then 1_000_000 else 0)
            && var total := 35 * s.evasion + 25 * s.containmentEscape + 20 * s.damagePotential + 15 * s.detectionDifficulty
                            + 5 * s.noveltyBonus;
               100 * s.composite <= total < 100 * s.composite + 100 && s.composite <= 1_000_000
  {
    EvasionIsAFraction(r.undetectedSteps, r.totalSteps);
  }

  lemma EvasionIsAFraction(part: int, whole: int)
    requires 0 <= part <= whole && whole > 0
    ensures var e := part * 1_000_000 / whole;
            0 <= e <= 1_000_000 && e * whole <= part * 1_000_000 < (e + 1) * whole
  {
    DivMod(part * 1_000_000, whole);
    QuotientNonNegative(part * 1_000_000, whole);
    assert (1_000_000 + 1) * whole == 1_000_000 * whole + whole;
    CancelFactor(part * 1_000_000 / whole, 1_000_000, whole);
  }

  /** Containment is hard from 650_000 on, critical from 850_000, moderate from 400_000. */
  lemma DifficultyLevels(composite: nat)
    ensures DifficultyOf(composite) == CriticalToContain <==> composite > 849_999
    ensures DifficultyOf(composite) == HardToContain <==> 650_000 <= composite <= 849_999
    ensures DifficultyOf(composite) == ModerateToContain <==> 400_000 <= composite <= 649_999
    ensures DifficultyOf(composite) == EasyToContain <==> composite <= 399_999
  {
  }

  /** An outcome is rejected if it has no steps, more undetected steps than steps, damage above one million, a score that is
      not that of its result, or a false alarm that was no benign control; and for nothing else. */
  lemma OutcomeIsValidIff(o: CampaignOutcomeRecord)
    requires ValidCampaign(o.campaign)
    ensures !ValidOutcome(o) <==>
            || o.result.totalSteps == 0 || o.result.undetectedSteps > o.result.totalSteps || o.result.damagePotential > 1_000_000
            || o.score != ScoreOf(o.result) || (o.falsePositive && !o.benignControl)
  {
  }

  /** A campaign uses the dimensions that have steps in it. */
  lemma UsesIff(o: CampaignOutcomeRecord, d: AttackDimension)
    ensures Uses(o, d) <==> StepsIn(o.campaign.steps, d) > 0
  {
    StepsInIsPlaces(o.campaign.steps, d);
    var p := (s: AttackStep) => s.dimension == d;
    if Uses(o, d) {
      var i :| 0 <= i < |o.campaign.steps| && o.campaign.steps[i].dimension == d;
      assert i in Places(o.campaign.steps, p);
    } else {
      assert Places(o.campaign.steps, p) == {};
    }
  }

  /** A near miss: contained, with every step but one undetected. */
  lemma NearMissIff(r: CampaignExecutionResult)
    requires ValidResult(r)
    ensures NearMiss(r) <==> !r.objectiveAchieved && r.undetectedSteps == r.totalSteps - 1
  {
  }

  lemma SeverityIff(o: CampaignOutcomeRecord)
    ensures SeverityOf(o) == Blocking <==> o.result.objectiveAchieved && o.result.damagePotential >= 800_000
    ensures SeverityOf(o) == Critical <==>
            (o.result.objectiveAchieved && o.result.damagePotential < 800_000) || (!o.result.objectiveAchieved && o.score.composite >= 800_000)
    ensures SeverityOf(o) == Moderate <==>
            !o.result.objectiveAchieved && o.score.composite < 800_000 && (NearMiss(o.result) || o.score.composite >= 500_000)
    ensures SeverityOf(o) == Advisory <==>
            !o.result.objectiveAchieved && !NearMiss(o.result) && o.score.composite < 500_000
  {
  }

  lemma SubsystemIff(r: CampaignExecutionResult)
    ensures SubsystemOf(r) == Containment <==> r.objectiveAchieved
    ensures SubsystemOf(r) == Sentinel <==> !r.objectiveAchieved && r.undetectedSteps > 0
    ensures SubsystemOf(r) == EvidenceAccumulation <==> !r.objectiveAchieved && r.undetectedSteps == 0 && r.evidenceAtoms >= 25
    ensures SubsystemOf(r) == FleetConvergence <==> !r.objectiveAchieved && r.undetectedSteps == 0 && r.evidenceAtoms <= 24
  {
  }

  function Order(d: AttackDimension): nat {
    match d
    case HostcallSequence => 0
    case TemporalPayload => 1
    case PrivilegeEscalation => 2
    case PolicyEvasion => 3
    case Exfiltration => 4
  }

  /** No dimension has more steps than the dominant one, and those with as many come before it. */
  lemma DominantIsMostFrequent(steps: seq<AttackStep>, d: AttackDimension)
    ensures StepsIn(steps, d) <= StepsIn(steps, Dominant(steps))
    ensures StepsIn(steps, d) == StepsIn(steps, Dominant(steps)) > 0 ==> Order(d) <= Order(Dominant(steps))
  {
  }

  lemma {:induction false} OnlyOneDimension(steps: seq<AttackStep>, d: AttackDimension, e: AttackDimension)
    requires forall i :: 0 <= i < |steps| ==> steps[i].dimension == d
    ensures StepsIn(steps, e) == if e == d then |steps| else 0
  {
    if steps != [] {
      OnlyOneDimension(steps[..|steps| - 1], d, e);
    }
  }

  lemma UniformIsDominant(steps: seq<AttackStep>, d: AttackDimension)
    requires steps != [] && forall i :: 0 <= i < |steps| ==> steps[i].dimension == d
    ensures Dominant(steps) == d
  {
    OnlyOneDimension(steps, d, d);
    OnlyOneDimension(steps, d, Dominant(steps));
    DominantIsMostFrequent(steps, d);
  }

  /** What a campaign of one dimension is classified as. */
  lemma CategoryOfUniform(o: CampaignOutcomeRecord, d: AttackDimension)
    requires o.campaign.steps != [] && forall i :: 0 <= i < |o.campaign.steps| ==> o.campaign.steps[i].dimension == d
    ensures var c := Classify(o);
            && (d == HostcallSequence ==> c.threatCategory == CredentialTheft)
            && (d == TemporalPayload ==> c.threatCategory == Persistence)
            && (d == PrivilegeEscalation ==> c.threatCategory == EscalatedPrivilege)
            && (d == PolicyEvasion ==> c.threatCategory == EvadedPolicy)
            && (d == Exfiltration ==> c.threatCategory == DataExfiltration)
            && c.campaignId == o.campaign.campaignId && (c.evasionReport <==> o.result.undetectedSteps > 0)
            && (c.escapeReport <==> o.result.objectiveAchieved)
  {
    UniformIsDominant(o.campaign.steps, d);
  }

  // ----- what the rates and weights say -----

  /** A rate is the fraction of hits in millionths, rounded down. */
  lemma RateIsTheFraction(hits: nat, attempts: nat)
    requires hits <= attempts && attempts > 0
    ensures Rate(hits, attempts) * attempts <= hits * 1_000_000 < (Rate(hits, attempts) + 1) * attempts
  {
    EvasionIsAFraction(hits, attempts);
  }

  // The places of attacks, of escapes among them, of benign controls and of false alarms among those.
  function Attacks(os: seq<CampaignOutcomeRecord>): nat { |Places(os, (o: CampaignOutcomeRecord) => !o.benignControl)| }
  function Escaped(os: seq<CampaignOutcomeRecord>): nat {
    |Places(os, (o: CampaignOutcomeRecord) => !o.benignControl && o.result.objectiveAchieved)|
  }
  function Controls(os: seq<CampaignOutcomeRecord>): nat { |Places(os, (o: CampaignOutcomeRecord) => o.benignControl)| }
  function Alarms(os: seq<CampaignOutcomeRecord>): nat {
    |Places(os, (o: CampaignOutcomeRecord) => o.benignControl && o.falsePositive)|
  }

  lemma CountSame(os: seq<CampaignOutcomeRecord>, f: CampaignOutcomeRecord -> bool, g: CampaignOutcomeRecord -> bool)
    requires forall o :: f(o) == g(o)
    ensures Count(os, f) == |Places(os, g)|
  {
    CountIsPlaces(os, f);
    assert Places(os, f) == Places(os, g);
  }

  /** Misses are the escapes among the attacks; false alarms are counted among the benign controls only. */
  lemma RatesAreOfTheirOwnKind(os: seq<CampaignOutcomeRecord>)
    ensures Attacks(os) > 0 ==>
              FalseNegatives(os) * Attacks(os) <= Escaped(os) * 1_000_000 < (FalseNegatives(os) + 1) * Attacks(os)
    ensures Controls(os) > 0 ==>
              FalsePositives(os) * Controls(os) <= Alarms(os) * 1_000_000 < (FalsePositives(os) + 1) * Controls(os)
    ensures Attacks(os) == 0 ==> FalseNegatives(os) == 0
    ensures Controls(os) == 0 ==> FalsePositives(os) == 0
  {
    CountSame(os, IsAttack, (o: CampaignOutcomeRecord) => !o.benignControl);
    CountSame(os, IsEscape, (o: CampaignOutcomeRecord) => !o.benignControl && o.result.objectiveAchieved);
    CountSame(os, IsBenign, (o: CampaignOutcomeRecord) => o.benignControl);
    CountSame(os, IsFalseAlarm, (o: CampaignOutcomeRecord) => o.benignControl && o.falsePositive);
    CountedWithin(os, IsEscape, IsAttack);
    CountedWithin(os, IsFalseAlarm, IsBenign);
    if Attacks(os) > 0 { RateIsTheFraction(Escaped(os), Attacks(os)); }
    if Controls(os) > 0 { RateIsTheFraction(Alarms(os), Controls(os)); }
  }

  lemma {:induction false} CountedWithin(os: seq<CampaignOutcomeRecord>, f: CampaignOutcomeRecord -> bool, g: CampaignOutcomeRecord -> bool)
    requires forall o :: f(o) ==> g(o)
    ensures Count(os, f) <= Count(os, g)
  {
    if os != [] {
      CountedWithin(os[..|os| - 1], f, g);
    }
  }

  /** Escapes in a dimension raise its evidence weight, up to five of them and not beyond the maximum; false alarms lower it,
      up to five of them and not below 50_000; both together move it by the difference. */
  lemma WeightFollowsEvidence(cfg: CalibrationConfig, escapes: nat, falseAlarms: nat, w: nat)
    requires 50_000 <= w <= cfg.maxEvidenceWeight
    ensures falseAlarms == 0 ==>
              NewWeight(cfg, escapes, falseAlarms, w) == Min(w + cfg.evidenceWeightDelta * Min(escapes, 5), cfg.maxEvidenceWeight)
    ensures escapes == 0 ==>
              NewWeight(cfg, escapes, falseAlarms, w) == Max(w - cfg.evidenceWeightDelta * Min(falseAlarms, 5), 50_000)
    ensures w + 5 * cfg.evidenceWeightDelta <= U64_MAX ==>
              NewWeight(cfg, escapes, falseAlarms, w) ==
              Min(Max(w + cfg.evidenceWeightDelta * Min(escapes, 5) - cfg.evidenceWeightDelta * Min(falseAlarms, 5), 50_000),
                  cfg.maxEvidenceWeight)
  {
    MulMonotone(Min(escapes, 5), 5, cfg.evidenceWeightDelta);
    MulMonotone(Min(falseAlarms, 5), 5, cfg.evidenceWeightDelta);
    MulMonotone(0, Min(escapes, 5), cfg.evidenceWeightDelta);
    MulMonotone(0, Min(falseAlarms, 5), cfg.evidenceWeightDelta);
  }

  // A weight in range has moved as its evidence says.
  predicate FollowsEvidence(cfg: CalibrationConfig, escapes: nat, falseAlarms: nat, before: nat, after: nat) {
    50_000 <= before <= cfg.maxEvidenceWeight ==>
      && (falseAlarms == 0 ==> after == Min(before + cfg.evidenceWeightDelta * Min(escapes, 5), cfg.maxEvidenceWeight))
      && (escapes == 0 ==> after == Max(before - cfg.evidenceWeightDelta * Min(falseAlarms, 5), 50_000))
      && (before + 5 * cfg.evidenceWeightDelta <= U64_MAX ==>
            after == Min(Max(before + cfg.evidenceWeightDelta * Min(escapes, 5) - cfg.evidenceWeightDelta * Min(falseAlarms, 5), 50_000),
                         cfg.maxEvidenceWeight))
  }

  lemma AllFollowEvidence(cfg: CalibrationConfig, os: seq<CampaignOutcomeRecord>, weights: map<AttackDimension, nat>)
    ensures forall d :: d in weights ==>
              FollowsEvidence(cfg, Escapes(os, d), FalseAlarms(os, d), weights[d],
                              NewWeight(cfg, Escapes(os, d), FalseAlarms(os, d), weights[d]))
  {
    forall d | d in weights
      ensures FollowsEvidence(cfg, Escapes(os, d), FalseAlarms(os, d), weights[d],
                              NewWeight(cfg, Escapes(os, d), FalseAlarms(os, d), weights[d]))
    {
      if 50_000 <= weights[d] <= cfg.maxEvidenceWeight {
        WeightFollowsEvidence(cfg, Escapes(os, d), FalseAlarms(os, d), weights[d]);
      }
    }
  }

  /** The evidence of a dimension is the outcomes that use it: achieved ones count for it, false alarms against it. */
  lemma EvidenceIsPerDimension(os: seq<CampaignOutcomeRecord>, d: AttackDimension)
    ensures Escapes(os, d) == |Places(os, (o: CampaignOutcomeRecord) => o.result.objectiveAchieved && Uses(o, d))|
    ensures FalseAlarms(os, d) == |Places(os, (o: CampaignOutcomeRecord) => o.benignControl && o.falsePositive && Uses(o, d))|
  {
    var f, g := With(Achieved, d), (o: CampaignOutcomeRecord) => o.result.objectiveAchieved && Uses(o, d);
    forall o ensures f(o) == g(o) {
      assert Achieved(o) == o.result.objectiveAchieved;
    }
    CountSame(os, f, g);
    var h, k := With(IsFalseAlarm, d), (o: CampaignOutcomeRecord) => o.benignControl && o.falsePositive && Uses(o, d);
    forall o ensures h(o) == k(o) {
      assert IsFalseAlarm(o) == (o.benignControl && o.falsePositive);
    }
    CountSame(os, h, k);
  }

  /** The worst damage of a category is that of one of its reported escapes, critical or blocking campaigns, and no less than
      that of any other. */
  lemma {:induction false} WorstIsTheLargest(os: seq<CampaignOutcomeRecord>, classes: Classes, c: ThreatCategory)
    ensures forall i :: 0 <= i < |os| && Raises(os[i], classes, c) ==> os[i].result.damagePotential <= Worst(os, classes, c)
    ensures Worst(os, classes, c) > 0 ==>
              exists i :: 0 <= i < |os| && Raises(os[i], classes, c) && os[i].result.damagePotential == Worst(os, classes, c)
  {
    if os != [] {
      var n := |os| - 1;
      var front := os[..n];
      WorstIsTheLargest(front, classes, c);
      assert forall i :: 0 <= i < n ==> front[i] == os[i];
      if Worst(os, classes, c) == Worst(front, classes, c) > 0 {
        var i :| 0 <= i < |front| && Raises(front[i], classes, c) && front[i].result.damagePotential == Worst(front, classes, c);
        assert Raises(os[i], classes, c);
      }
    }
  }

  lemma RaisesIff(o: CampaignOutcomeRecord, classes: Classes, c: ThreatCategory)
    ensures Raises(o, classes, c) <==>
            && o.campaign.campaignId in classes && classes[o.campaign.campaignId].threatCategory == c
            && (!classes[o.campaign.campaignId].escapeReport ==>
                  classes[o.campaign.campaignId].severity == Critical || classes[o.campaign.campaignId].severity == Blocking)
  {
  }

  // ----- convergence -----

  function Iter(f: int -> int, n: nat, x: int): int {
    if n == 0 then x else f(Iter(f, n - 1, x))
  }

  // f maps the interval into itself and keeps order there
  ghost predicate MonotoneOn(f: int -> int, lo: int, hi: int) {
    && (forall x :: lo <= x <= hi ==> lo <= f(x) <= hi)
    && (forall x, y :: lo <= x <= y <= hi ==> f(x) <= f(y))
  }

  // The orbit keeps the direction of its first step, and moves at least one per step until it stands still.
  lemma {:induction false} OrbitIsMonotone(f: int -> int, lo: int, hi: int, x: int, n: nat)
    requires MonotoneOn(f, lo, hi) && lo <= x <= hi
    ensures lo <= Iter(f, n, x) <= hi
    ensures if f(x) >= x then f(Iter(f, n, x)) >= Iter(f, n, x) else f(Iter(f, n, x)) <= Iter(f, n, x)
    ensures f(Iter(f, n, x)) == Iter(f, n, x) || (if f(x) >= x then Iter(f, n, x) >= x + n else Iter(f, n, x) <= x - n)
  {
    if n > 0 {
      OrbitIsMonotone(f, lo, hi, x, n - 1);
      var y := Iter(f, n - 1, x);
      assert lo <= f(y) <= hi;
      if f(x) >= x {
        assert f(y) <= f(f(y));
      } else {
        assert f(f(y)) <= f(y);
      }
    }
  }

  lemma OrbitStops(f: int -> int, lo: int, hi: int, x: int, n: nat)
    requires MonotoneOn(f, lo, hi) && lo <= x <= hi && n > hi - lo
    ensures f(Iter(f, n, x)) == Iter(f, n, x)
  {
    OrbitIsMonotone(f, lo, hi, x, n);
  }

  lemma {:induction false} IterShift(f: int -> int, n: nat, x: int)
    ensures Iter(f, n + 1, x) == Iter(f, n, f(x))
  {
    if n > 0 {
      IterShift(f, n - 1, x);
    }
  }

  function Iterate(step: Parameters -> Parameters, p: Parameters, n: nat): Parameters {
    if n == 0 then p else step(Iterate(step, p, n - 1))
  }

  // At q, step treats every parameter on its own: the threshold by t, each weight by w of its dimension, each loss by a floor.
  ghost predicate SeparatesAt(step: Parameters -> Parameters, t: int -> int, w: AttackDimension -> int -> int,
                              worst: ThreatCategory -> nat, q: Parameters)
  {
    && step(q).threshold == t(q.threshold)
    && step(q).weights.Keys == q.weights.Keys && step(q).loss.Keys == q.loss.Keys
    && (forall d :: d in q.weights ==> step(q).weights[d] == w(d)(q.weights[d]))
    && (forall c :: c in q.loss ==> step(q).loss[c] == Max(q.loss[c], worst(c)))
  }

  ghost predicate Separates(step: Parameters -> Parameters, t: int -> int, w: AttackDimension -> int -> int, worst: ThreatCategory -> nat) {
    forall q :: SeparatesAt(step, t, w, worst, q)
  }

  lemma {:induction false} IterateKeys(step: Parameters -> Parameters, t: int -> int, w: AttackDimension -> int -> int,
                                       worst: ThreatCategory -> nat, p: Parameters, n: nat)
    requires Separates(step, t, w, worst)
    ensures var q := Iterate(step, p, n);
            && q.threshold == Iter(t, n, p.threshold)
            && q.weights.Keys == p.weights.Keys && q.loss.Keys == p.loss.Keys
            && (forall d :: d in p.weights ==> q.weights[d] == Iter(w(d), n, p.weights[d]))
            && (n > 0 ==> forall c :: c in p.loss ==> q.loss[c] == Max(p.loss[c], worst(c)))
  {
    if n > 0 {
      IterateKeys(step, t, w, worst, p, n - 1);
      assert SeparatesAt(step, t, w, worst, Iterate(step, p, n - 1));
    }
  }

  lemma SeparateStepsSettle(step: Parameters -> Parameters, t: int -> int, w: AttackDimension -> int -> int,
                            worst: ThreatCategory -> nat, p: Parameters, n: nat)
    requires Separates(step, t, w, worst) && n > 0
    requires t(Iter(t, n, p.threshold)) == Iter(t, n, p.threshold)
    requires forall d :: d in p.weights ==> w(d)(Iter(w(d), n, p.weights[d])) == Iter(w(d), n, p.weights[d])
    ensures step(Iterate(step, p, n)) == Iterate(step, p, n)
  {
    var q := Iterate(step, p, n);
    IterateKeys(step, t, w, worst, p, n);
    assert SeparatesAt(step, t, w, worst, q);
    assert step(q).weights == q.weights;
    assert step(q).loss == q.loss;
  }

  function ThresholdMap(cfg: CalibrationConfig, outcomes: seq<CampaignOutcomeRecord>): int -> int {
    (t: int) => if t < 0 then t else NewThreshold(cfg, FalseNegatives(outcomes), FalsePositives(outcomes), t)
  }

  function WeightMap(cfg: CalibrationConfig, outcomes: seq<CampaignOutcomeRecord>, d: AttackDimension): int -> int {
    (w: int) => if w < 0 then w else NewWeight(cfg, Escapes(outcomes, d), FalseAlarms(outcomes, d), w)
  }

  lemma ThresholdMapIsMonotone(cfg: CalibrationConfig, outcomes: seq<CampaignOutcomeRecord>)
    ensures MonotoneOn(ThresholdMap(cfg, outcomes), 1, 1_000_000)
  {
    var f := ThresholdMap(cfg, outcomes);
    var fn, fp := FalseNegatives(outcomes), FalsePositives(outcomes);
    forall x | 1 <= x <= 1_000_000 ensures 1 <= f(x) <= 1_000_000 {
      ThresholdIsBounded(cfg, fn, fp, x);
    }
    forall x, y | 1 <= x <= y <= 1_000_000 ensures f(x) <= f(y) {
      ThresholdIsMonotone(cfg, fn, fp, x, y);
    }
  }

  lemma ThresholdIsMonotone(cfg: CalibrationConfig, fn: nat, fp: nat, x: nat, y: nat)
    requires x <= y
    ensures NewThreshold(cfg, fn, fp, x) <= NewThreshold(cfg, fn, fp, y)
  {
  }

  lemma WeightIsMonotone(cfg: CalibrationConfig, escapes: nat, falseAlarms: nat, x: nat, y: nat)
    requires x <= y
    ensures NewWeight(cfg, escapes, falseAlarms, x) <= NewWeight(cfg, escapes, falseAlarms, y)
  {
  }

  lemma WeightMapIsMonotone(cfg: CalibrationConfig, outcomes: seq<CampaignOutcomeRecord>, d: AttackDimension)
    ensures MonotoneOn(WeightMap(cfg, outcomes, d), Min(50_000, cfg.maxEvidenceWeight), cfg.maxEvidenceWeight)
  {
    var f := WeightMap(cfg, outcomes, d);
    var lo, hi := Min(50_000, cfg.maxEvidenceWeight), cfg.maxEvidenceWeight;
    var e, a := Escapes(outcomes, d), FalseAlarms(outcomes, d);
    forall x | lo <= x <= hi ensures lo <= f(x) <= hi {
      WeightIsBounded(cfg, e, a, x);
    }
    forall x, y | lo <= x <= y <= hi ensures f(x) <= f(y) {
      WeightIsMonotone(cfg, e, a, x, y);
    }
  }

  // From anywhere, once the first step lands in the interval.
  lemma OrbitStopsFromOutside(f: int -> int, lo: int, hi: int, x: int, n: nat)
    requires MonotoneOn(f, lo, hi) && lo <= f(x) <= hi && n > hi - lo + 1
    ensures f(Iter(f, n, x)) == Iter(f, n, x)
  {
    IterShift(f, n - 1, x);
    OrbitStops(f, lo, hi, f(x), n - 1);
  }

  lemma WeightMapEnters(cfg: CalibrationConfig, outcomes: seq<CampaignOutcomeRecord>, d: AttackDimension, w: nat)
    ensures Min(50_000, cfg.maxEvidenceWeight) <= WeightMap(cfg, outcomes, d)(w) <= cfg.maxEvidenceWeight
  {
    WeightIsBounded(cfg, Escapes(outcomes, d), FalseAlarms(outcomes, d), w);
  }

  lemma WeightStops(cfg: CalibrationConfig, outcomes: seq<CampaignOutcomeRecord>, d: AttackDimension, w: nat, n: nat)
    requires n >= cfg.maxEvidenceWeight + 2
    ensures var f := WeightMap(cfg, outcomes, d); f(Iter(f, n, w)) == Iter(f, n, w)
  {
    WeightMapIsMonotone(cfg, outcomes, d);
    WeightMapEnters(cfg, outcomes, d, w);
    OrbitStopsFromOutside(WeightMap(cfg, outcomes, d), Min(50_000, cfg.maxEvidenceWeight), cfg.maxEvidenceWeight, w, n);
  }

  // The number of calibrations after which nothing can change any more.
  function SettlingTime(cfg: CalibrationConfig): nat {
    Max(1_000_000, cfg.maxEvidenceWeight + 2)
  }

  function StepOf(cfg: CalibrationConfig, outcomes: seq<CampaignOutcomeRecord>, classes: Classes): Parameters -> Parameters {
    (q: Parameters) => Next(cfg, outcomes, classes, q)
  }

  lemma CalibrationSeparates(cfg: CalibrationConfig, outcomes: seq<CampaignOutcomeRecord>, classes: Classes)
    ensures Separates(StepOf(cfg, outcomes, classes), ThresholdMap(cfg, outcomes),
                      d => WeightMap(cfg, outcomes, d), c => Worst(outcomes, classes, c))
  {
  }

  lemma ThresholdStops(cfg: CalibrationConfig, outcomes: seq<CampaignOutcomeRecord>, t: nat, n: nat)
    requires 1 <= t <= 1_000_000 && n >= 1_000_000
    ensures var f := ThresholdMap(cfg, outcomes); f(Iter(f, n, t)) == Iter(f, n, t)
  {
    ThresholdMapIsMonotone(cfg, outcomes);
    OrbitStops(ThresholdMap(cfg, outcomes), 1, 1_000_000, t, n);
  }

  /** Calibrating over and over with no new outcomes reaches a fixed point, and stays there. */
  lemma CalibrationConverges(cfg: CalibrationConfig, outcomes: seq<CampaignOutcomeRecord>, classes: Classes, p: Parameters, n: nat)
    requires Complete(p) && n >= SettlingTime(cfg)
    ensures var q := Iterate(StepOf(cfg, outcomes, classes), p, n); StepOf(cfg, outcomes, classes)(q) == q
  {
    var step, t := StepOf(cfg, outcomes, classes), ThresholdMap(cfg, outcomes);
    var w := (d: AttackDimension) => WeightMap(cfg, outcomes, d);
    var worst := (c: ThreatCategory) => Worst(outcomes, classes, c);
    CalibrationSeparates(cfg, outcomes, classes);
    ThresholdStops(cfg, outcomes, p.threshold, n);
    forall d | d in p.weights ensures w(d)(Iter(w(d), n, p.weights[d])) == Iter(w(d), n, p.weights[d]) {
      WeightStops(cfg, outcomes, d, p.weights[d], n);
    }
    SeparateStepsSettle(step, t, w, worst, p, n);
  }
}
