/** The red/blue loop object: outcomes go in, calibrations and their receipts come out. */
module RedBlueLoop {
  import opened Machine
  import opened Sequences
  import opened Campaign
  import opened Calibration

  datatype Metrics = Metrics(falseNegative: nat, falsePositive: nat, escapes: nat, falseAlarms: nat, nearMisses: nat)

  datatype CalibrationReceipt = CalibrationReceipt(
    campaignIds: set<string>,
    old': Parameters,
    new': Parameters,
    metrics: Metrics,
    timestamp: nat)

  datatype RedBlueEvent =
    | CampaignIngested(traceId: string, decisionId: string, policyId: string, campaignId: string)
    | CalibrationAdjusted(epoch: nat)

  function Ingested(c: AdversarialCampaign): RedBlueEvent {
    CampaignIngested(c.traceId, c.decisionId, c.policyId, c.campaignId)
  }

  function CampaignIds(outcomes: seq<CampaignOutcomeRecord>): set<string> {
    set i | 0 <= i < |outcomes| :: outcomes[i].campaign.campaignId
  }

  /** A receipt names the campaigns of exactly the outcomes. */
  lemma CampaignIdsAreAll(outcomes: seq<CampaignOutcomeRecord>)
    ensures forall o :: o in outcomes ==> o.campaign.campaignId in CampaignIds(outcomes)
    ensures forall id :: id in CampaignIds(outcomes) ==> exists o :: o in outcomes && o.campaign.campaignId == id
  {
    forall id | id in CampaignIds(outcomes) ensures exists o :: o in outcomes && o.campaign.campaignId == id {
      var i :| 0 <= i < |outcomes| && outcomes[i].campaign.campaignId == id;
      assert outcomes[i] in outcomes;
    }
  }

  // Each receipt starts from the parameters the previous one ended with.
  ghost predicate Chained(first: Parameters, receipts: seq<CalibrationReceipt>, last: Parameters) {
    if receipts == [] then first == last
    else
      var r := receipts[|receipts| - 1];
      r.new' == last && r.old' != r.new' && Chained(first, receipts[..|receipts| - 1], r.old')
  }

  function WithDefaults(p: Parameters): Parameters {
    Parameters(
      Min(Max(p.threshold, 1), 1_000_000),
      map d | d in p.weights.Keys + ALL_DIMENSIONS :: if d in p.weights then p.weights[d] else 500_000,
      map c | c in p.loss.Keys + ALL_CATEGORIES :: if c in p.loss then p.loss[c] else 200_000)
  }

  function CountedNearMiss(classes: Classes): CampaignOutcomeRecord -> bool {
    (o: CampaignOutcomeRecord) =>
      !o.benignControl && o.campaign.campaignId in classes && classes[o.campaign.campaignId].nearMissReport
  }

  function MetricsOf(outcomes: seq<CampaignOutcomeRecord>, classes: Classes): Metrics {
    Metrics(FalseNegatives(outcomes), FalsePositives(outcomes), Count(outcomes, IsEscape), Count(outcomes, IsFalseAlarm),
            Count(outcomes, CountedNearMiss(classes)))
  }

  lemma CountOneMore(outcomes: seq<CampaignOutcomeRecord>, i: nat, f: CampaignOutcomeRecord -> bool)
    requires i < |outcomes|
    ensures Count(outcomes[..i + 1], f) == Count(outcomes[..i], f) + if f(outcomes[i]) then 1 else 0
  {
    assert outcomes[..i + 1][..i] == outcomes[..i];
  }

  method ComputeMetrics(outcomes: seq<CampaignOutcomeRecord>, classes: Classes) returns (m: Metrics)
    ensures m == MetricsOf(outcomes, classes)
  {
    var attackTotal, attackEscapes, benignTotal, benignFalse, nearMiss := 0, 0, 0, 0, 0;
    var i := 0;
    while i < |outcomes|
      invariant 0 <= i <= |outcomes|
      invariant attackTotal == Count(outcomes[..i], IsAttack) && attackEscapes == Count(outcomes[..i], IsEscape)
      invariant benignTotal == Count(outcomes[..i], IsBenign) && benignFalse == Count(outcomes[..i], IsFalseAlarm)
      invariant nearMiss == Count(outcomes[..i], CountedNearMiss(classes))
    {
      var o := outcomes[i];
      CountOneMore(outcomes, i, IsAttack);
      CountOneMore(outcomes, i, IsEscape);
      CountOneMore(outcomes, i, IsBenign);
      CountOneMore(outcomes, i, IsFalseAlarm);
      CountOneMore(outcomes, i, CountedNearMiss(classes));
      if o.benignControl {
        benignTotal := benignTotal + 1;
        if o.falsePositive {
          benignFalse := benignFalse + 1;
        }
      } else {
        attackTotal := attackTotal + 1;
        if o.result.objectiveAchieved {
          attackEscapes := attackEscapes + 1;
        }
        if o.campaign.campaignId in classes && classes[o.campaign.campaignId].nearMissReport {
          nearMiss := nearMiss + 1;
        }
      }
      i := i + 1;
    }
    assert outcomes[..i] == outcomes;
    m := Metrics(Rate(attackEscapes, attackTotal), Rate(benignFalse, benignTotal), attackEscapes, benignFalse, nearMiss);
  }

  function At(m: map<AttackDimension, nat>, d: AttackDimension): nat {
    if d in m then m[d] else 0
  }

  predicate UsesBefore(o: CampaignOutcomeRecord, d: AttackDimension, k: nat)
    requires k <= |o.campaign.steps|
  {
    exists i :: 0 <= i < k && o.campaign.steps[i].dimension == d
  }

  // Adds one for every dimension the campaign uses, however many of its steps use it.
  method AddDimensions(o: CampaignOutcomeRecord, counts: map<AttackDimension, nat>) returns (r: map<AttackDimension, nat>)
    ensures forall d :: At(r, d) == At(counts, d) + if Uses(o, d) then 1 else 0
  {
    r := counts;
    var seen: set<AttackDimension> := {};
    var k := 0;
    while k < |o.campaign.steps|
      invariant 0 <= k <= |o.campaign.steps|
      invariant forall d :: d in seen <==> UsesBefore(o, d, k)
      invariant forall d :: At(r, d) == At(counts, d) + if d in seen then 1 else 0
    {
      var d := o.campaign.steps[k].dimension;
      assert forall x :: UsesBefore(o, x, k + 1) <==> UsesBefore(o, x, k) || x == d;
      if d !in seen {
        seen := seen + {d};
        r := r[d := At(r, d) + 1];
      }
      k := k + 1;
    }
    assert forall d :: Uses(o, d) <==> UsesBefore(o, d, |o.campaign.steps|);
  }

  method CountByDimension(outcomes: seq<CampaignOutcomeRecord>, f: CampaignOutcomeRecord -> bool)
    returns (counts: map<AttackDimension, nat>)
    ensures forall d :: At(counts, d) == Count(outcomes, With(f, d))
  {
    counts := map[];
    var i := 0;
    while i < |outcomes|
      invariant 0 <= i <= |outcomes|
      invariant forall d :: At(counts, d) == Count(outcomes[..i], With(f, d))
    {
      forall d ensures Count(outcomes[..i + 1], With(f, d)) ==
                       Count(outcomes[..i], With(f, d)) + if f(outcomes[i]) && Uses(outcomes[i], d) then 1 else 0
      {
        CountOneMore(outcomes, i, With(f, d));
      }
      if f(outcomes[i]) {
        counts := AddDimensions(outcomes[i], counts);
      }
      i := i + 1;
    }
    assert outcomes[..i] == outcomes;
  }

  lemma DefaultsAreComplete(p: Parameters)
    ensures Complete(WithDefaults(p))
  {
    forall d: AttackDimension ensures d in WithDefaults(p).weights { Listed(d, Persistence); }
    forall c: ThreatCategory ensures c in WithDefaults(p).loss { Listed(HostcallSequence, c); }
  }

  /** Parameters that are given are kept; missing weights are 500_000 and missing losses 200_000; the threshold is clamped. */
  lemma DefaultsFillGaps(p: Parameters, d: AttackDimension, c: ThreatCategory)
    ensures var q := WithDefaults(p);
            && d in q.weights && q.weights[d] == (if d in p.weights then p.weights[d] else 500_000)
            && c in q.loss && q.loss[c] == (if c in p.loss then p.loss[c] else 200_000)
            && q.threshold == (if p.threshold == 0 then 1 else if p.threshold > 1_000_000 then 1_000_000 else p.threshold)
  {
    Listed(d, c);
  }

  /** What a receipt counts as justification. */
  lemma MetricsAreCounts(os: seq<CampaignOutcomeRecord>, classes: Classes)
    ensures var m := MetricsOf(os, classes);
            && m.escapes == Escaped(os) && m.falseAlarms == Alarms(os)
            && m.falseNegative == FalseNegatives(os) && m.falsePositive == FalsePositives(os)
            && m.nearMisses == |Places(os, CountedNearMiss(classes))|
  {
    CountSame(os, IsEscape, (o: CampaignOutcomeRecord) => !o.benignControl && o.result.objectiveAchieved);
    CountSame(os, IsFalseAlarm, (o: CampaignOutcomeRecord) => o.benignControl && o.falsePositive);
    CountIsPlaces(os, CountedNearMiss(classes));
  }

  lemma Listed(d: AttackDimension, c: ThreatCategory)
    ensures d in ALL_DIMENSIONS && c in ALL_CATEGORIES
  {
    match c { case CredentialTheft => case EscalatedPrivilege => case Persistence => case DataExfiltration => case EvadedPolicy => }
    match d { case HostcallSequence => case TemporalPayload => case PrivilegeEscalation => case PolicyEvasion => case Exfiltration => }
  }

  lemma WorstOneMore(outcomes: seq<CampaignOutcomeRecord>, i: nat, classes: Classes, c: ThreatCategory)
    requires i < |outcomes|
    ensures Worst(outcomes[..i + 1], classes, c) ==
            if Raises(outcomes[i], classes, c) then Max(Worst(outcomes[..i], classes, c), outcomes[i].result.damagePotential)
            else Worst(outcomes[..i], classes, c)
  {
    assert outcomes[..i + 1][..i] == outcomes[..i];
  }

  function Raised(outcomes: seq<CampaignOutcomeRecord>, classes: Classes, loss: map<ThreatCategory, nat>): map<ThreatCategory, nat> {
    map c | c in loss :: Max(loss[c], Worst(outcomes, classes, c))
  }

  lemma RaisedOneMore(outcomes: seq<CampaignOutcomeRecord>, i: nat, classes: Classes, loss: map<ThreatCategory, nat>)
    requires i < |outcomes| && forall c: ThreatCategory :: c in loss
    ensures var before, o := Raised(outcomes[..i], classes, loss), outcomes[i];
            Raised(outcomes[..i + 1], classes, loss) ==
            if Counts(o, classes) then
              var c := classes[o.campaign.campaignId].threatCategory;
              before[c := Max(before[c], o.result.damagePotential)]
            else before
  {
    forall c | c in loss ensures Worst(outcomes[..i + 1], classes, c) ==
      if Raises(outcomes[i], classes, c) then Max(Worst(outcomes[..i], classes, c), outcomes[i].result.damagePotential)
      else Worst(outcomes[..i], classes, c)
    {
      WorstOneMore(outcomes, i, classes, c);
    }
  }

  method RaiseLosses(outcomes: seq<CampaignOutcomeRecord>, classes: Classes, loss: map<ThreatCategory, nat>)
    returns (r: map<ThreatCategory, nat>)
    requires forall c: ThreatCategory :: c in loss
    ensures r == Raised(outcomes, classes, loss)
  {
    r := loss;
    var i := 0;
    assert outcomes[..0] == [];
    while i < |outcomes|
      invariant 0 <= i <= |outcomes| && r == Raised(outcomes[..i], classes, loss)
    {
      RaisedOneMore(outcomes, i, classes, loss);
      if Counts(outcomes[i], classes) {
        var c := classes[outcomes[i].campaign.campaignId].threatCategory;
        r := r[c := Max(r[c], outcomes[i].result.damagePotential)];
      }
      i := i + 1;
    }
    assert outcomes[..i] == outcomes;
  }

  method AdjustThreshold(cfg: CalibrationConfig, metrics: Metrics, threshold: nat) returns (t: nat)
    ensures t == NewThreshold(cfg, metrics.falseNegative, metrics.falsePositive, threshold)
    ensures 1 <= threshold <= 1_000_000 ==>
              1 <= t <= 1_000_000 && t <= threshold + cfg.maxThresholdDelta && threshold <= t + cfg.maxThresholdDelta
    ensures 1 <= threshold <= 1_000_000 && cfg.maxThresholdDelta > 0 ==>
              && (t < threshold <==> metrics.falseNegative > cfg.targetFalseNegative && threshold > 1)
              && (t > threshold <==> metrics.falseNegative <= cfg.targetFalseNegative
                                     && metrics.falsePositive > cfg.targetFalsePositive && threshold < 1_000_000)
  {
    t := threshold;
    if metrics.falseNegative > cfg.targetFalseNegative {
      var delta := Min(metrics.falseNegative - cfg.targetFalseNegative, cfg.maxThresholdDelta);
      t := Max(SatSub(t, delta), 1);
    } else if metrics.falsePositive > cfg.targetFalsePositive {
      var delta := Min(metrics.falsePositive - cfg.targetFalsePositive, cfg.maxThresholdDelta);
      t := Max(Min(SatAdd(t, delta), 1_000_000), 1);
    }
  }

  method AdjustWeights(cfg: CalibrationConfig, outcomes: seq<CampaignOutcomeRecord>, weights: map<AttackDimension, nat>)
    returns (r: map<AttackDimension, nat>)
    requires forall d: AttackDimension :: d in weights
    ensures r == map d | d in weights :: NewWeight(cfg, Escapes(outcomes, d), FalseAlarms(outcomes, d), weights[d])
    ensures forall d :: d in weights ==>
              FollowsEvidence(cfg, Escapes(outcomes, d), FalseAlarms(outcomes, d), weights[d], r[d])
  {
    var escaped := CountByDimension(outcomes, Achieved);
    var falseAlarms := CountByDimension(outcomes, IsFalseAlarm);
    r := weights;
    var todo := weights.Keys;
    while todo != {}
      invariant todo <= weights.Keys == r.Keys
      invariant forall d :: d in weights ==>
                  r[d] == if d in todo then weights[d] else NewWeight(cfg, Escapes(outcomes, d), FalseAlarms(outcomes, d), weights[d])
      decreases todo
    {
      var d :| d in todo;
      var adjusted := AdjustWeight(cfg, At(escaped, d), At(falseAlarms, d), r[d]);
      r := r[d := adjusted];
      todo := todo - {d};
    }
    AllFollowEvidence(cfg, outcomes, weights);
  }

  method AdjustWeight(cfg: CalibrationConfig, escaped: nat, falsePositives: nat, current: nat) returns (w: nat)
    ensures w == NewWeight(cfg, escaped, falsePositives, current)
    ensures 50_000 <= current <= cfg.maxEvidenceWeight && falsePositives == 0 ==> w >= current
    ensures 50_000 <= current <= cfg.maxEvidenceWeight && escaped == 0 ==> w <= current
  {
    var upDelta := SatMul(cfg.evidenceWeightDelta, Min(escaped, 5));
    var downDelta := SatMul(cfg.evidenceWeightDelta, Min(falsePositives, 5));
    var raised := SatAdd(current, upDelta);
    var lowered := SatSub(raised, downDelta);
    w := Min(Max(lowered, 50_000), cfg.maxEvidenceWeight);
  }

  lemma NextIs(cfg: CalibrationConfig, outcomes: seq<CampaignOutcomeRecord>, classes: Classes, p: Parameters, q: Parameters)
    requires q.threshold == NewThreshold(cfg, FalseNegatives(outcomes), FalsePositives(outcomes), p.threshold)
    requires q.weights == map d | d in p.weights :: NewWeight(cfg, Escapes(outcomes, d), FalseAlarms(outcomes, d), p.weights[d])
    requires q.loss == Raised(outcomes, classes, p.loss)
    ensures q == Next(cfg, outcomes, classes, p)
  {
  }

  class RedBlueLoopIntegrator {
    const config: CalibrationConfig
    var threshold: nat
    var weights: map<AttackDimension, nat>
    var loss: map<ThreatCategory, nat>
    var calibrationEpoch: nat
    // the cell behind the snapshot fast path: the last value published to it
    var published: Option<Parameters>
    var outcomes: seq<CampaignOutcomeRecord>
    var classifications: Classes
    var events: seq<RedBlueEvent>
    // what the loop started from, and every receipt since
    ghost var firstParameters: Parameters
    ghost var firstEpoch: nat
    ghost var receipts: seq<CalibrationReceipt>

    function Live(): Parameters
      reads this
    {
      Parameters(threshold, weights, loss)
    }

    ghost predicate Valid()
      reads this
    {
      && Complete(Live())
      && (published.Some? ==> published.value == Live())
      && Chained(firstParameters, receipts, Live())
      && calibrationEpoch == firstEpoch + |receipts|
    }

    constructor (config: CalibrationConfig, start: Parameters, epoch: nat)
      ensures Valid() && this.config == config && Live() == WithDefaults(start) && calibrationEpoch == epoch
      ensures firstParameters == Live() && receipts == [] && outcomes == [] && classifications == map[] && events == []
    {
      var p := WithDefaults(start);
      this.config := config;
      threshold, weights, loss, calibrationEpoch, published := p.threshold, p.weights, p.loss, epoch, Some(p);
      outcomes, classifications, events := [], map[], [];
      firstParameters, firstEpoch, receipts := p, epoch, [];
      new;
      DefaultsAreComplete(start);
    }

    method Snapshot() returns (p: Parameters)
      requires Valid()
      modifies this`published
      ensures Valid() && p == Live() && published == Some(p)
    {
      if published.None? {
        published := Some(Live());
      }
      p := published.value;
    }

    method IngestOutcome(o: CampaignOutcomeRecord) returns (r: Result<CampaignClassification, CampaignError>)
      requires Valid()
      modifies this`outcomes, this`classifications, this`events
      ensures Valid()
      ensures r.Success? <==> ValidOutcome(o)
      ensures r.Success? ==>
                && r.value == Classify(o)
                && outcomes == old(outcomes) + [o] && classifications == old(classifications)[o.campaign.campaignId := Classify(o)]
                && events == old(events) + [Ingested(o.campaign)]
      ensures r.Failure? ==>
                && r.error == (if ValidCampaign(o.campaign) then InvalidExecutionResult else InvalidCampaign)
                && outcomes == old(outcomes) && classifications == old(classifications) && events == old(events)
    {
      if !ValidCampaign(o.campaign) {
        return Failure(InvalidCampaign);
      }
      if !ValidOutcome(o) {
        return Failure(InvalidExecutionResult);
      }
      var c := Classify(o);
      events := events + [Ingested(o.campaign)];
      classifications := classifications[o.campaign.campaignId := c];
      outcomes := outcomes + [o];
      return Success(c);
    }

    /** One calibration: the parameters move to their next value, and a receipt documents the change exactly when there
        was one. */
    method Calibrate(timestamp: nat) returns (receipt: Option<CalibrationReceipt>)
      requires Valid()
      modifies this
      ensures Valid() && outcomes == old(outcomes) && classifications == old(classifications)
      ensures firstParameters == old(firstParameters) && firstEpoch == old(firstEpoch)
      ensures Live() == if outcomes == [] then old(Live()) else Next(config, outcomes, classifications, old(Live()))
      ensures receipt == if Live() == old(Live()) then None
                         else Some(CalibrationReceipt(CampaignIds(outcomes), old(Live()), Live(),
                                                      MetricsOf(outcomes, classifications), timestamp))
      ensures receipts == if receipt.None? then old(receipts) else old(receipts) + [receipt.value]
      ensures events == if receipt.None? then old(events) else old(events) + [CalibrationAdjusted(calibrationEpoch)]
    {
      if outcomes == [] {
        return None;
      }
      var before := Snapshot();
      var metrics := Recalibrate();
      var after := published.value;
      if after == before {
        return None;
      }
      var r := Issue(before, metrics, timestamp);
      return Some(r);
    }

    // Documents a change that has just been published.
    method Issue(before: Parameters, metrics: Metrics, timestamp: nat) returns (r: CalibrationReceipt)
      requires Complete(Live()) && published == Some(Live()) && before != Live()
      requires Chained(firstParameters, receipts, before) && calibrationEpoch == firstEpoch + |receipts|
      modifies this`calibrationEpoch, this`receipts, this`events
      ensures Valid() && r == CalibrationReceipt(CampaignIds(outcomes), before, Live(), metrics, timestamp)
      ensures receipts == old(receipts) + [r] && events == old(events) + [CalibrationAdjusted(calibrationEpoch)]
    {
      calibrationEpoch := calibrationEpoch + 1;
      r := CalibrationReceipt(CampaignIds(outcomes), before, published.value, metrics, timestamp);
      ChainGrows(firstParameters, receipts, r);
      receipts := receipts + [r];
      events := events + [CalibrationAdjusted(calibrationEpoch)];
    }

    /** Calibrating over and over without new outcomes: from some call on, and forever, there is nothing left to adjust. */
    method CalibrateRepeatedly(n: nat, timestamp: nat) returns (last: Option<CalibrationReceipt>)
      requires Valid()
      modifies this
      ensures Valid() && outcomes == old(outcomes) && classifications == old(classifications)
      ensures Live() == if outcomes == [] then old(Live())
                        else Iterate(StepOf(config, outcomes, classifications), old(Live()), n)
      ensures n > SettlingTime(config) ==> last == None
    {
      last := None;
      ghost var start := Live();
      ghost var step := StepOf(config, outcomes, classifications);
      var i := 0;
      while i < n
        invariant 0 <= i <= n && Valid() && outcomes == old(outcomes) && classifications == old(classifications)
        invariant Live() == if outcomes == [] then start else Iterate(step, start, i)
        invariant i > SettlingTime(config) ==> last == None
      {
        if i >= SettlingTime(config) {
          CalibrationConverges(config, outcomes, classifications, start, i);
        }
        last := Calibrate(timestamp);
        i := i + 1;
      }
    }

    // Computes and publishes the next parameters.
    method Recalibrate() returns (metrics: Metrics)
      requires Complete(Live())
      modifies this`threshold, this`weights, this`loss, this`published
      ensures Complete(Live()) && Live() == Next(config, outcomes, classifications, old(Live())) && published == Some(Live())
      ensures metrics == MetricsOf(outcomes, classifications)
    {
      ghost var before := Live();
      metrics := ComputeMetrics(outcomes, classifications);
      threshold := AdjustThreshold(config, metrics, threshold);
      weights := AdjustWeights(config, outcomes, weights);
      loss := RaiseLosses(outcomes, classifications, loss);
      published := Some(Live());
      NextIs(config, outcomes, classifications, before, Live());
      NextIsBounded(config, outcomes, classifications, before);
    }
  }

  lemma ChainGrows(first: Parameters, receipts: seq<CalibrationReceipt>, r: CalibrationReceipt)
    requires Chained(first, receipts, r.old') && r.old' != r.new'
    ensures Chained(first, receipts + [r], r.new')
  {
    assert (receipts + [r])[..|receipts|] == receipts;
  }
}
