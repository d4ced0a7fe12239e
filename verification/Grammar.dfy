/** The weighted attack grammar: choosing productions and learning from feedback. */
module Grammar {
  import opened Machine
  import opened Sequences
  import opened Campaign
  import opened Rng

  datatype WeightedProduction = WeightedProduction(name: string, weight: u32)

  datatype AttackGrammar = AttackGrammar(
    version: u32,
    hostcallMotifs: seq<WeightedProduction>,
    temporalStaging: seq<WeightedProduction>,
    privilegeEscalation: seq<WeightedProduction>,
    policyEvasion: seq<WeightedProduction>,
    exfiltration: seq<WeightedProduction>)

  function Bucket(g: AttackGrammar, d: AttackDimension): seq<WeightedProduction> {
    match d
    case HostcallSequence => g.hostcallMotifs
    case TemporalPayload => g.temporalStaging
    case PrivilegeEscalation => g.privilegeEscalation
    case PolicyEvasion => g.policyEvasion
    case Exfiltration => g.exfiltration
  }

  predicate ValidBucket(b: seq<WeightedProduction>) {
    b != [] && forall i :: 0 <= i < |b| ==> !IsBlank(b[i].name) && b[i].weight > 0
  }

  /** `AttackGrammar::validate` succeeds. */
  predicate ValidGrammar(g: AttackGrammar) {
    && g.version > 0
    && ValidBucket(g.hostcallMotifs) && ValidBucket(g.temporalStaging) && ValidBucket(g.privilegeEscalation)
    && ValidBucket(g.policyEvasion) && ValidBucket(g.exfiltration)
  }

  /** Every bucket counts: without productions, with a blank label or without weight in one of them a grammar is invalid, and
      so it is under version zero. */
  lemma EveryBucketCounts(g: AttackGrammar, d: AttackDimension)
    requires ValidGrammar(g)
    ensures g.version > 0 && Bucket(g, d) != []
    ensures forall i :: 0 <= i < |Bucket(g, d)| ==> !IsBlank(Bucket(g, d)[i].name) && Bucket(g, d)[i].weight >= 1
    ensures !ValidGrammar(g.(version := 0)) && !ValidGrammar(g.(hostcallMotifs := [])) && !ValidGrammar(g.(temporalStaging := []))
    ensures !ValidGrammar(g.(privilegeEscalation := [])) && !ValidGrammar(g.(policyEvasion := []))
    ensures !ValidGrammar(g.(exfiltration := []))
  {
  }

  // ----- weighted choice -----

  // The weight of the first i productions.
  function Prefix(b: seq<WeightedProduction>, i: nat): nat
    requires i <= |b|
  {
    if i == 0 then 0 else Prefix(b, i - 1) + b[i - 1].weight
  }

  function TotalWeight(b: seq<WeightedProduction>): nat {
    Prefix(b, |b|)
  }

  // The cursor r falls into the stretch of production i.
  predicate Selects(b: seq<WeightedProduction>, r: nat, i: nat) {
    i < |b| && Prefix(b, i) <= r < Prefix(b, i + 1)
  }

  lemma {:induction false} PrefixMonotone(b: seq<WeightedProduction>, i: nat, j: nat)
    requires i <= j <= |b|
    ensures Prefix(b, i) <= Prefix(b, j)
  {
    if i < j {
      PrefixMonotone(b, i, j - 1);
    }
  }

  /** No cursor selects two productions. */
  lemma SelectsOne(b: seq<WeightedProduction>, r: nat, i: nat, j: nat)
    requires Selects(b, r, i) && Selects(b, r, j)
    ensures i == j
  {
    if i < j {
      PrefixMonotone(b, i + 1, j);
    } else if j < i {
      PrefixMonotone(b, j + 1, i);
    }
  }

  function Interval(lo: nat, hi: nat): (s: set<nat>)
    requires lo <= hi
    ensures forall r :: r in s <==> lo <= r < hi
    ensures |s| == hi - lo
  {
    if lo == hi then {} else Interval(lo, hi - 1) + {hi - 1}
  }

  /** Exactly weight-many of the residues modulo the total select each production. */
  lemma ResiduesOfProduction(b: seq<WeightedProduction>, i: nat)
    requires i < |b|
    ensures |(set r: nat | r < TotalWeight(b) && Selects(b, r, i))| == b[i].weight
  {
    PrefixMonotone(b, i, i + 1);
    PrefixMonotone(b, i + 1, |b|);
    assert (set r: nat | r < TotalWeight(b) && Selects(b, r, i)) == Interval(Prefix(b, i), Prefix(b, i + 1));
  }

  // The production among the first n that the cursor falls into.
  function Locate(b: seq<WeightedProduction>, r: nat, n: nat): (i: nat)
    requires n <= |b| && r < Prefix(b, n)
    ensures Selects(b, r, i)
  {
    if Prefix(b, n - 1) <= r then n - 1 else Locate(b, r, n - 1)
  }

  lemma TotalIsPositive(b: seq<WeightedProduction>)
    requires ValidBucket(b)
    ensures TotalWeight(b) > 0
  {
    PrefixMonotone(b, 1, |b|);
    assert Prefix(b, 1) == b[0].weight;
  }

  // What the walk falls back to: the last label, or a placeholder.
  function Fallback(b: seq<WeightedProduction>): string {
    if b == [] then "unknown" else b[|b| - 1].name
  }

  // The label drawn with the number v; only a bucket without weight needs the fallback.
  function LabelAt(b: seq<WeightedProduction>, v: nat): string {
    if TotalWeight(b) == 0 then Fallback(b) else b[Locate(b, v % TotalWeight(b), |b|)].name
  }

  // The walk over the productions; a cursor below the total always stops inside.
  method WalkCursor(b: seq<WeightedProduction>, start: nat) returns (i: Option<nat>)
    ensures i == if start < TotalWeight(b) then Some(Locate(b, start, |b|)) else None
  {
    var cursor: nat := start;
    var k := 0;
    while k < |b|
      invariant 0 <= k <= |b|
      invariant cursor + Prefix(b, k) == start
    {
      assert Prefix(b, k + 1) == Prefix(b, k) + b[k].weight;
      if cursor < b[k].weight {
        PrefixMonotone(b, k + 1, |b|);
        SelectsOne(b, start, k, Locate(b, start, |b|));
        return Some(k);
      }
      cursor := SatSub(cursor, b[k].weight);
      k := k + 1;
    }
    return None;
  }

  method ChooseWeightedLabel(b: seq<WeightedProduction>, rng: DeterministicRng) returns (name: string)
    requires rng.Valid()
    modifies rng
    ensures rng.Valid() && rng.state == NextState(old(rng.state))
    ensures name == LabelAt(b, Drawn(rng.state))
  {
    var total := SumWeights(b);
    var cursor := rng.RangeU64(0, Max(total, 1));
    var i := WalkCursor(b, cursor);
    name := if i.Some? then b[i.value].name else Fallback(b);
  }

  lemma {:induction false} PrefixIsSum(b: seq<WeightedProduction>, ws: seq<int>, i: nat)
    requires |ws| == |b| && i <= |b| && forall k :: 0 <= k < |b| ==> ws[k] == b[k].weight
    ensures Prefix(b, i) == Sum(ws[..i])
  {
    if i > 0 {
      PrefixIsSum(b, ws, i - 1);
      SumAppend(ws, i - 1);
    }
  }

  /** The number drawn, modulo the total weight, selects the production in whose stretch of the running sums it falls. */
  lemma LabelIsSelected(b: seq<WeightedProduction>, v: nat, ws: seq<int>, i: nat)
    requires |ws| == |b| && i < |b| && forall k :: 0 <= k < |b| ==> ws[k] == b[k].weight
    requires Sum(ws) > 0 && Sum(ws[..i]) <= v % Sum(ws) < Sum(ws[..i + 1])
    ensures LabelAt(b, v) == b[i].name
  {
    PrefixIsSum(b, ws, i);
    PrefixIsSum(b, ws, i + 1);
    PrefixIsSum(b, ws, |b|);
    assert ws[..|b|] == ws;
    SelectsOne(b, v % TotalWeight(b), i, Locate(b, v % TotalWeight(b), |b|));
  }

  /** A bucket without weight yields its last label, an empty one a placeholder. */
  lemma LabelWithoutWeight(b: seq<WeightedProduction>, v: nat)
    requires TotalWeight(b) == 0
    ensures LabelAt(b, v) == if b == [] then "unknown" else b[|b| - 1].name
  {
  }

  method SumWeights(b: seq<WeightedProduction>) returns (total: nat)
    ensures total == TotalWeight(b)
  {
    total := 0;
    var k := 0;
    while k < |b|
      invariant 0 <= k <= |b| && total == Prefix(b, k)
    {
      total := total + b[k].weight;
      k := k + 1;
    }
  }

  // ----- generating a step -----

  // A step that the grammar can generate in position id: its label comes from the bucket of its dimension.
  predicate Generated(g: AttackGrammar, id: nat, step: AttackStep) {
    && step.stepId == id % TWO_32
    && (exists i :: 0 <= i < |Bucket(g, step.dimension)| && Bucket(g, step.dimension)[i].name == step.productionLabel)
    && !IsBlank(step.productionLabel)
    && match step.dimension
       case HostcallSequence => step.kind.HostcallStep? && step.kind.motif == step.productionLabel && 2 <= step.kind.hostcallCount < 9
       case TemporalPayload => step.kind.TemporalStep? && step.kind.stage == step.productionLabel && 25 <= step.kind.delayMs < 2_000
       case PrivilegeEscalation => step.kind.PrivilegeStep? && step.kind.probe == step.productionLabel && 1 <= step.kind.escalationDepth < 5
       case PolicyEvasion => step.kind.EvasionStep? && step.kind.tactic == step.productionLabel && 1 <= step.kind.thresholdMargin < 50_000
       case Exfiltration => step.kind.ExfiltrationStep? && step.kind.strategy == step.productionLabel && 1 <= step.kind.chunkCount < 10
  }

  function DimensionAt(k: nat): AttackDimension {
    if k == 0 then HostcallSequence else if k == 1 then TemporalPayload else if k == 2 then PrivilegeEscalation
    else if k == 3 then PolicyEvasion else Exfiltration
  }

  // The parameters of a step lie in [Low, High).
  function Low(d: AttackDimension): nat {
    if d == HostcallSequence then 2 else if d == TemporalPayload then 25 else 1
  }

  function High(d: AttackDimension): (h: u64)
    ensures h > Low(d)
  {
    match d
    case HostcallSequence => 9
    case TemporalPayload => 2_000
    case PrivilegeEscalation => 5
    case PolicyEvasion => 50_000
    case Exfiltration => 10
  }

  function KindOf(d: AttackDimension, name: string, x: u64): AttackStepKind {
    match d
    case HostcallSequence => HostcallStep(name, x)
    case TemporalPayload => TemporalStep(name, x)
    case PrivilegeEscalation => PrivilegeStep(name, x)
    case PolicyEvasion => EvasionStep(name, x)
    case Exfiltration => ExfiltrationStep(name, x)
  }

  function KindAt(d: AttackDimension, name: string, v: nat): AttackStepKind {
    KindOf(d, name, Low(d) + v % (High(d) - Low(d)))
  }

  // The step made of three drawn numbers: one for the dimension, one for the label, one for the parameter.
  function StepAt(g: AttackGrammar, id: nat, a: nat, b: nat, c: nat): AttackStep
    requires ValidGrammar(g)
  {
    var d := DimensionAt(a % 5);
    var name := LabelAt(Bucket(g, d), b);
    AttackStep(id % TWO_32, d, name, KindAt(d, name, c))
  }

  /** Whatever is drawn, the step is one the grammar can generate. */
  lemma StepIsGenerated(g: AttackGrammar, id: nat, a: nat, b: nat, c: nat)
    requires ValidGrammar(g)
    ensures Generated(g, id, StepAt(g, id, a, b, c))
  {
    var d := DimensionAt(a % 5);
    TotalIsPositive(Bucket(g, d));
    var i := Locate(Bucket(g, d), b % TotalWeight(Bucket(g, d)), |Bucket(g, d)|);
    assert Bucket(g, d)[i].name == StepAt(g, id, a, b, c).productionLabel;
  }

  /** Which number draws which dimension, and how its parameter is drawn: all of its range and nothing else. */
  lemma StepIsDrawn(g: AttackGrammar, id: nat, a: nat, b: nat, c: nat)
    requires ValidGrammar(g) && id < TWO_32
    ensures var s := StepAt(g, id, a, b, c);
            var name := s.productionLabel;
            && s.stepId == id && name == LabelAt(Bucket(g, s.dimension), b)
            && (a % 5 == 0 ==> s.dimension == HostcallSequence && s.kind == HostcallStep(name, 2 + c % 7))
            && (a % 5 == 1 ==> s.dimension == TemporalPayload && s.kind == TemporalStep(name, 25 + c % 1_975))
            && (a % 5 == 2 ==> s.dimension == PrivilegeEscalation && s.kind == PrivilegeStep(name, 1 + c % 4))
            && (a % 5 == 3 ==> s.dimension == PolicyEvasion && s.kind == EvasionStep(name, 1 + c % 49_999))
            && (a % 5 == 4 ==> s.dimension == Exfiltration && s.kind == ExfiltrationStep(name, 1 + c % 9))
  {
  }

  method RandomDimension(rng: DeterministicRng) returns (d: AttackDimension)
    requires rng.Valid()
    modifies rng
    ensures rng.Valid() && rng.state == NextState(old(rng.state))
    ensures d == DimensionAt(Drawn(rng.state) % 5)
  {
    var k := rng.ChooseIndex(5);
    d := DimensionAt(k);
  }

  method DrawKind(d: AttackDimension, name: string, rng: DeterministicRng) returns (kind: AttackStepKind)
    requires rng.Valid()
    modifies rng
    ensures rng.Valid() && rng.state == NextState(old(rng.state))
    ensures kind == KindAt(d, name, Drawn(rng.state))
  {
    var v := rng.RangeU64(Low(d), High(d));
    kind := KindOf(d, name, v);
  }

  // The step generated from a state of the random number generator, which is then in state Thrice.
  function StepFrom(g: AttackGrammar, id: nat, s: bv64): AttackStep
    requires ValidGrammar(g)
  {
    StepAt(g, id, Drawn(NextState(s)), Drawn(NextState(NextState(s))), Drawn(Thrice(s)))
  }

  function Thrice(s: bv64): bv64 {
    NextState(NextState(NextState(s)))
  }

  lemma StepFromIsGenerated(g: AttackGrammar, id: nat, s: bv64)
    requires ValidGrammar(g)
    ensures Generated(g, id, StepFrom(g, id, s))
  {
    StepIsGenerated(g, id, Drawn(NextState(s)), Drawn(NextState(NextState(s))), Drawn(Thrice(s)));
  }

  /** The step generated from state 2: the first draw gives the dimension, the second the label, the third the parameter. */
  lemma StepFromStateTwo(g: AttackGrammar)
    requires ValidGrammar(g) && g.hostcallMotifs == [WeightedProduction("x", 1), WeightedProduction("y", 2)]
    ensures StepFrom(g, 0, 2) == AttackStep(0, HostcallSequence, "x", HostcallStep("x", 5))
    ensures Thrice(2) == 0x1A_0080_0440_5007
  {
    FirstDraws();
    var b := g.hostcallMotifs;
    assert [1, 2][..0] == [] && [1, 2][..1] == [1] && Sum([1]) == 1 && Sum([1, 2]) == 3;
    LabelIsSelected(b, 6_313_850_216_121_551_418, [1, 2], 0);
    StepIsDrawn(g, 0, 10_360_984_590_412_790_330, 6_313_850_216_121_551_418, 8_523_403_104_418_470_859);
  }

  method GenerateStep(g: AttackGrammar, id: nat, rng: DeterministicRng) returns (r: Result<AttackStep, CampaignError>)
    requires rng.Valid()
    modifies rng
    ensures rng.Valid()
    ensures r.Success? <==> ValidGrammar(g)
    ensures r.Success? ==> r.value == StepFrom(g, id, old(rng.state)) && rng.state == Thrice(old(rng.state))
    ensures r.Failure? ==> r.error == InvalidGrammar && rng.state == old(rng.state)
  {
    if !ValidGrammar(g) {
      return Failure(InvalidGrammar);
    }
    var d := RandomDimension(rng);
    var name := ChooseWeightedLabel(Bucket(g, d), rng);
    var kind := DrawKind(d, name, rng);
    return Success(AttackStep(id % TWO_32, d, name, kind));
  }

  // ----- feedback -----

  // Reinterpretation and wrap-around of 32-bit signed arithmetic.
  function ToI32(x: int): int {
    (x + 0x8000_0000) % 0x1_0000_0000 - 0x8000_0000
  }

  function Hits(steps: seq<AttackStep>, name: string): nat {
    if steps == [] then 0
    else Hits(steps[..|steps| - 1], name) + if steps[|steps| - 1].productionLabel == name then 1 else 0
  }

  function Delta(evasion: nat, hits: nat): int {
    var h := ToI32(hits);
    var amplification := if evasion >= 700_000 then 2 else if evasion > 250_000 then 1 else 0;
    var decay := if evasion <= 250_000 then 1 else 0;
    ToI32(ToI32(amplification * h) - ToI32(decay * h))
  }

  function AdjustedWeight(weight: u32, delta: int): u32 {
    Max(ToI32(ToI32(weight) + delta), 1)
  }

  // Production i is the first of its name in the bucket.
  predicate IsFirst(b: seq<WeightedProduction>, i: nat) {
    i < |b| && forall j :: 0 <= j < i ==> b[j].name != b[i].name
  }

  function Tuned(b: seq<WeightedProduction>, steps: seq<AttackStep>, evasion: nat): (t: seq<WeightedProduction>)
    ensures |t| == |b|
    ensures forall i :: 0 <= i < |t| ==>
              t[i] == if IsFirst(b, i) && Hits(steps, b[i].name) > 0
                      then b[i].(weight := AdjustedWeight(b[i].weight, Delta(evasion, Hits(steps, b[i].name)))) else b[i]
  {
    seq(|b|, i requires 0 <= i < |b| =>
      if IsFirst(b, i) && Hits(steps, b[i].name) > 0
      then b[i].(weight := AdjustedWeight(b[i].weight, Delta(evasion, Hits(steps, b[i].name)))) else b[i])
  }

  lemma {:induction false} HitsIsPlaces(steps: seq<AttackStep>, name: string)
    ensures Hits(steps, name) == |Places(steps, (s: AttackStep) => s.productionLabel == name)|
  {
    if steps != [] {
      PlacesOfFront(steps, (s: AttackStep) => s.productionLabel == name);
      HitsIsPlaces(steps[..|steps| - 1], name);
    }
  }

  /** Only the first production of a label that was used is tuned; a later one of the same label, and one that was not used,
      keeps its weight. */
  lemma OnlyFirstUsedIsTuned(b: seq<WeightedProduction>, steps: seq<AttackStep>, evasion: nat, i: nat)
    requires i < |b|
    ensures (exists j :: 0 <= j < i && b[j].name == b[i].name) ==> Tuned(b, steps, evasion)[i] == b[i]
    ensures Places(steps, (s: AttackStep) => s.productionLabel == b[i].name) == {} ==> Tuned(b, steps, evasion)[i] == b[i]
    ensures Tuned(b, steps, evasion)[i].name == b[i].name
    ensures (forall j :: 0 <= j < i ==> b[j].name != b[i].name) && Hits(steps, b[i].name) > 0 ==>
              Tuned(b, steps, evasion)[i].weight == AdjustedWeight(b[i].weight, Delta(evasion, Hits(steps, b[i].name)))
  {
    HitsIsPlaces(steps, b[i].name);
  }

  /** Feedback of any strength leaves every weight positive, so a valid bucket stays valid. */
  lemma TunedStaysValid(b: seq<WeightedProduction>, steps: seq<AttackStep>, evasion: nat)
    requires ValidBucket(b)
    ensures ValidBucket(Tuned(b, steps, evasion))
  {
    var t := Tuned(b, steps, evasion);
    assert forall i :: 0 <= i < |t| ==> t[i].name == b[i].name;
  }

  function Feedback(evasion: nat, hits: nat): int {
    if evasion >= 700_000 then 2 * hits else if evasion > 250_000 then hits else 0 - hits
  }

  lemma WrapsBy(x: int) returns (k: int)
    ensures ToI32(x) == x + k * 0x1_0000_0000
  {
    k := -((x + 0x8000_0000) / 0x1_0000_0000);
  }

  lemma SameAfterWrap(x: int, k: int)
    ensures ToI32(x + k * 0x1_0000_0000) == ToI32(x)
  {
    var a := (x + 0x8000_0000) / 0x1_0000_0000;
    var r := (x + 0x8000_0000) % 0x1_0000_0000;
    assert x + k * 0x1_0000_0000 + 0x8000_0000 == (a + k) * 0x1_0000_0000 + r;
  }

  // Wrapping the parts and the whole is wrapping the whole.
  lemma WrapOnce(x: int, y: int)
    ensures ToI32(ToI32(x) + ToI32(y)) == ToI32(x + y)
    ensures ToI32(ToI32(x) - ToI32(y)) == ToI32(x - y)
  {
    var j := WrapsBy(x);
    var k := WrapsBy(y);
    SameAfterWrap(x + y, j + k);
    SameAfterWrap(x - y, j - k);
  }

  lemma WrapScaled(a: int, x: int)
    ensures ToI32(a * ToI32(x)) == ToI32(a * x)
  {
    var k := WrapsBy(x);
    assert a * (x + k * 0x1_0000_0000) == a * x + (a * k) * 0x1_0000_0000;
    SameAfterWrap(a * x, a * k);
  }

  lemma DeltaIsWrappedFeedback(evasion: nat, hits: nat)
    ensures Delta(evasion, hits) == ToI32(Feedback(evasion, hits))
  {
    var up := if evasion >= 700_000 then 2 else if evasion > 250_000 then 1 else 0;
    var down := if evasion <= 250_000 then 1 else 0;
    WrapScaled(up, hits);
    WrapScaled(down, hits);
    WrapOnce(up * hits, down * hits);
    assert up * hits - down * hits == Feedback(evasion, hits);
  }

  lemma FlooredWrapIff(weight: int, x: int, hits: int)
    requires 0 < weight && 0 <= hits < 0x1_0000_0000 && (x >= 0 || x == 0 - hits)
    ensures Max(ToI32(weight + x), 1) == Max(weight + x, 1) <==> -0x8000_0000 <= weight + x < 0x8000_0000
  {
  }

  /** Campaigns that evade at least 700_000 amplify their productions twofold, those above 250_000 once, and the others weaken
      them. */
  lemma FeedbackLevels(hits: nat)
    ensures Feedback(700_000, hits) == 2 * hits && Feedback(699_999, hits) == hits
    ensures Feedback(250_001, hits) == hits && Feedback(250_000, hits) == 0 - hits && Feedback(0, hits) == 0 - hits
  {
  }

  /** A valid weight moves by exactly the feedback, floored at one, if and only if the sum fits 32 signed bits. */
  lemma FeedbackIsExactIff(weight: u32, evasion: nat, hits: u32)
    requires weight > 0
    ensures AdjustedWeight(weight, Delta(evasion, hits)) == Max(weight + Feedback(evasion, hits), 1) <==>
            -0x8000_0000 <= weight + Feedback(evasion, hits) < 0x8000_0000
  {
    DeltaIsWrappedFeedback(evasion, hits);
    WrapOnce(weight, Feedback(evasion, hits));
    FlooredWrapIff(weight, Feedback(evasion, hits), hits);
  }

  /** Beyond it the weight collapses: one success of a production that weighs half the range leaves it weight one. */
  lemma SuccessCanCollapse()
    ensures Feedback(1_000_000, 1) == 2 && AdjustedWeight(0x8000_0000, Delta(1_000_000, 1)) == 1
  {
  }

  method CountHits(steps: seq<AttackStep>) returns (hits: map<string, nat>)
    ensures forall n :: n in hits <==> Hits(steps, n) > 0
    ensures forall n :: n in hits ==> hits[n] == Hits(steps, n)
  {
    hits := map[];
    var i := 0;
    while i < |steps|
      invariant 0 <= i <= |steps|
      invariant forall n :: n in hits <==> Hits(steps[..i], n) > 0
      invariant forall n :: n in hits ==> hits[n] == Hits(steps[..i], n)
    {
      var name := steps[i].productionLabel;
      assert steps[..i + 1][..i] == steps[..i];
      hits := hits[name := (if name in hits then hits[name] else 0) + 1];
      i := i + 1;
    }
    assert steps[..i] == steps;
  }

  // Adjusts the first production of that name.
  method AdjustBucket(b: seq<WeightedProduction>, name: string, delta: int) returns (r: seq<WeightedProduction>)
    ensures |r| == |b|
    ensures forall i :: 0 <= i < |b| ==>
              r[i] == if IsFirst(b, i) && b[i].name == name then b[i].(weight := AdjustedWeight(b[i].weight, delta)) else b[i]
  {
    r := b;
    var i := 0;
    while i < |b|
      invariant 0 <= i <= |b| && r == b
      invariant forall j :: 0 <= j < i ==> b[j].name != name
    {
      if b[i].name == name {
        r := r[i := b[i].(weight := AdjustedWeight(b[i].weight, delta))];
        return;
      }
      i := i + 1;
    }
  }

  method TuneBucket(b: seq<WeightedProduction>, steps: seq<AttackStep>, hits: map<string, nat>, evasion: nat)
    returns (r: seq<WeightedProduction>)
    requires forall n :: n in hits <==> Hits(steps, n) > 0
    requires forall n :: n in hits ==> hits[n] == Hits(steps, n)
    ensures r == Tuned(b, steps, evasion)
  {
    r := b;
    var todo := hits.Keys;
    while todo != {}
      invariant todo <= hits.Keys && |r| == |b|
      invariant forall i :: 0 <= i < |b| ==> r[i] == if b[i].name in todo then b[i] else Tuned(b, steps, evasion)[i]
      decreases todo
    {
      var name :| name in todo;
      assert forall i :: 0 <= i < |b| ==> r[i].name == b[i].name;
      assert forall i :: 0 <= i < |b| ==> (IsFirst(r, i) <==> IsFirst(b, i));
      r := AdjustBucket(r, name, Delta(evasion, hits[name]));
      todo := todo - {name};
    }
  }

  function TunedGrammar(g: AttackGrammar, steps: seq<AttackStep>, evasion: nat): AttackGrammar {
    AttackGrammar(g.version, Tuned(g.hostcallMotifs, steps, evasion), Tuned(g.temporalStaging, steps, evasion),
                  Tuned(g.privilegeEscalation, steps, evasion), Tuned(g.policyEvasion, steps, evasion),
                  Tuned(g.exfiltration, steps, evasion))
  }

  /** Folds the outcome of a campaign back into the weights; every bucket keeps its productions and stays valid. */
  method ApplyCampaignFeedback(g: AttackGrammar, steps: seq<AttackStep>, evasion: nat) returns (r: AttackGrammar)
    ensures r == TunedGrammar(g, steps, evasion)
    ensures forall d :: Bucket(r, d) == Tuned(Bucket(g, d), steps, evasion)
    ensures ValidGrammar(g) ==> ValidGrammar(r)
  {
    var hits := CountHits(steps);
    var a := TuneBucket(g.hostcallMotifs, steps, hits, evasion);
    var b := TuneBucket(g.temporalStaging, steps, hits, evasion);
    var c := TuneBucket(g.privilegeEscalation, steps, hits, evasion);
    var e := TuneBucket(g.policyEvasion, steps, hits, evasion);
    var f := TuneBucket(g.exfiltration, steps, hits, evasion);
    r := AttackGrammar(g.version, a, b, c, e, f);
    if ValidGrammar(g) {
      TunedStaysValid(g.hostcallMotifs, steps, evasion);
      TunedStaysValid(g.temporalStaging, steps, evasion);
      TunedStaysValid(g.privilegeEscalation, steps, evasion);
      TunedStaysValid(g.policyEvasion, steps, evasion);
      TunedStaysValid(g.exfiltration, steps, evasion);
    }
  }
}
