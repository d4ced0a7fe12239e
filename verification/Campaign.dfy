/** Attack campaigns and their validity. */
module Campaign {
  import opened Machine

  datatype CampaignError =
    | InvalidGrammar
    | InvalidCampaign
    | InvalidExecutionResult
    | InvalidMutation
    | InvalidSeed

  datatype CampaignComplexity = Probe | MultiStage | Apt
  {
    function TargetSteps(): nat {
      match this
      case Probe => 4
      case MultiStage => 8
      case Apt => 12
    }
  }

  datatype AttackDimension =
    | HostcallSequence
    | TemporalPayload
    | PrivilegeEscalation
    | PolicyEvasion
    | Exfiltration

  datatype AttackStepKind =
    | HostcallStep(motif: string, hostcallCount: u64)
    | TemporalStep(stage: string, delayMs: u64)
    | PrivilegeStep(probe: string, escalationDepth: u64)
    | EvasionStep(tactic: string, thresholdMargin: u64)
    | ExfiltrationStep(strategy: string, chunkCount: u64)

  datatype AttackStep = AttackStep(
    stepId: u32,
    dimension: AttackDimension,
    productionLabel: string,
    kind: AttackStepKind)

  datatype AdversarialCampaign = AdversarialCampaign(
    campaignId: string,
    traceId: string,
    decisionId: string,
    policyId: string,
    grammarVersion: u32,
    seed: u64,
    complexity: CampaignComplexity,
    steps: seq<AttackStep>)

  /** The characters removed by `str::trim`: Unicode White_Space. */
  predicate IsWhitespace(c: char) {
    || '\t' <= c <= '\r' || c == ' ' || c == '\U{85}' || c == '\U{A0}' || c == '\U{1680}'
    || '\U{2000}' <= c <= '\U{200A}' || c == '\U{2028}' || c == '\U{2029}' || c == '\U{202F}'
    || c == '\U{205F}' || c == '\U{3000}'
  }

  /** `s.trim().is_empty()`. */
  predicate IsBlank(s: string) {
    forall i :: 0 <= i < |s| ==> IsWhitespace(s[i])
  }

  lemma NotBlank(s: string, i: nat)
    requires i < |s| && !IsWhitespace(s[i])
    ensures !IsBlank(s)
  {
  }

  predicate ValidSteps(steps: seq<AttackStep>) {
    && steps != []
    && forall i :: 0 <= i < |steps| ==> steps[i].stepId == i && !IsBlank(steps[i].productionLabel)
  }

  /** `AdversarialCampaign::validate` succeeds. */
  predicate ValidCampaign(c: AdversarialCampaign) {
    && !IsBlank(c.campaignId)
    && !IsBlank(c.traceId)
    && !IsBlank(c.decisionId)
    && !IsBlank(c.policyId)
    && c.grammarVersion != 0
    && c.seed != 0
    && ValidSteps(c.steps)
  }

  /** Every field that is validated counts: blanking an id, zeroing version or seed, emptying or misnumbering the steps, or
      blanking a label makes a valid campaign invalid. */
  lemma EveryFieldCounts(c: AdversarialCampaign, i: nat, n: u32)
    requires ValidCampaign(c) && i < |c.steps| && n != i
    ensures !ValidCampaign(c.(campaignId := "")) && !ValidCampaign(c.(traceId := " ")) && !ValidCampaign(c.(decisionId := "\t"))
    ensures !ValidCampaign(c.(policyId := "")) && !ValidCampaign(c.(grammarVersion := 0)) && !ValidCampaign(c.(seed := 0))
    ensures !ValidCampaign(c.(steps := [])) && !ValidCampaign(c.(steps := c.steps[i := c.steps[i].(stepId := n)]))
    ensures !ValidCampaign(c.(steps := c.steps[i := c.steps[i].(productionLabel := "")]))
  {
    assert c.steps[i := c.steps[i].(stepId := n)][i].stepId == n;
    assert IsBlank(c.steps[i := c.steps[i].(productionLabel := "")][i].productionLabel);
  }

  /** Probes have four steps, multi-stage campaigns eight, persistent ones twelve. */
  lemma TargetLengths()
    ensures Probe.TargetSteps() == 4 && MultiStage.TargetSteps() == 8 && Apt.TargetSteps() == 12
  {
  }

  /** Step ids rewritten to positions; `idx as u32` truncates. */
  function Renumber(steps: seq<AttackStep>): (r: seq<AttackStep>)
    ensures |r| == |steps|
    ensures forall i :: 0 <= i < |r| ==> r[i] == steps[i].(stepId := i % TWO_32)
  {
    seq(|steps|, i requires 0 <= i < |steps| => steps[i].(stepId := i % TWO_32))
  }

  method Reindex(steps: seq<AttackStep>) returns (r: seq<AttackStep>)
    ensures r == Renumber(steps)
  {
    r := steps;
    var idx := 0;
    while idx < |r|
      invariant 0 <= idx <= |r| == |steps|
      invariant forall i :: 0 <= i < idx ==> r[i] == steps[i].(stepId := i % TWO_32)
      invariant forall i :: idx <= i < |r| ==> r[i] == steps[i]
    {
      r := r[idx := r[idx].(stepId := idx % TWO_32)];
      idx := idx + 1;
    }
  }
}
