/** Scoring, ranking and greedy budget filling of experiment proposals. */
module Oracle {
  import opened Machine
  import opened Arithmetic
  import opened Sequences

  const MILLIONTHS: nat := 1_000_000

  datatype ExperimentKind =
    | BoardCellProbe | CorpusAddition | AdversarialProbe | ShiftValidation
    | CoverageRecovery | HoleFilling | DarkMatterExploration

  datatype AcquisitionSignal =
    | LiveShiftPressure | CoverageDebt | PersistentHole | SemanticDarkMatter
    | AdversarialOpportunity | StalenessAlarm | RatchetGap

  datatype ExperimentProposal = ExperimentProposal(
    proposalId: string,
    kind: ExperimentKind,
    targetCell: string,
    signals: seq<(AcquisitionSignal, u64)>,
    expectedGain: u64,
    expectedUncertaintyReduction: u64,
    cost: u64,
    justification: string)

  type SignalWeights = map<AcquisitionSignal, u64>

  datatype AcquisitionScore = AcquisitionScore(
    proposalId: string,
    rawGain: nat,
    costAdjusted: nat,
    signalWeights: map<AcquisitionSignal, nat>,
    dominantSignal: AcquisitionSignal)

  datatype ExperimentPlan = ExperimentPlan(
    proposals: seq<ExperimentProposal>,
    scores: seq<AcquisitionScore>,
    budgetRemaining: nat,
    totalExpectedGain: nat)

  datatype AcquisitionError = NoCandidates | BudgetExhausted

  // ----- scoring -----

  function WeightOf(s: AcquisitionSignal, w: SignalWeights): u64 {
    if s in w then w[s] else MILLIONTHS
  }

  function Contribution(signal: (AcquisitionSignal, u64), w: SignalWeights): (c: nat) {
    SatMul(signal.1, WeightOf(signal.0, w)) / MILLIONTHS
  }

  function Contributions(signals: seq<(AcquisitionSignal, u64)>, w: SignalWeights): nat {
    if signals == [] then 0
    else Contributions(signals[..|signals| - 1], w) + Contribution(signals[|signals| - 1], w)
  }

  // The sum of the contributions and the proposal's own gain, saturated once.
  function RawGain(p: ExperimentProposal, w: SignalWeights): nat {
    Min(Contributions(p.signals, w) + p.expectedGain, U64_MAX)
  }

  function Density(p: ExperimentProposal, w: SignalWeights): nat {
    QuotientNonNegative(SatMul(RawGain(p, w), MILLIONTHS), Max(p.cost, 1));
    SatMul(RawGain(p, w), MILLIONTHS) / Max(p.cost, 1)
  }

  // The largest contribution and the first signal that reaches it; nothing positive leaves the default.
  function Leading(signals: seq<(AcquisitionSignal, u64)>, w: SignalWeights): (nat, AcquisitionSignal) {
    if signals == [] then (0, CoverageDebt)
    else
      var (best, signal) := Leading(signals[..|signals| - 1], w);
      var last := signals[|signals| - 1];
      if Contribution(last, w) > best then (Contribution(last, w), last.0) else (best, signal)
  }

  // The weight of every signal that occurs.
  function WeightsUsed(signals: seq<(AcquisitionSignal, u64)>, w: SignalWeights): map<AcquisitionSignal, nat> {
    if signals == [] then map[]
    else
      var last := signals[|signals| - 1].0;
      WeightsUsed(signals[..|signals| - 1], w)[last := WeightOf(last, w)]
  }

  function Score(p: ExperimentProposal, w: SignalWeights): AcquisitionScore {
    AcquisitionScore(p.proposalId, RawGain(p, w), Density(p, w), WeightsUsed(p.signals, w), Leading(p.signals, w).1)
  }

  method ScoreProposal(p: ExperimentProposal, w: SignalWeights) returns (score: AcquisitionScore)
    ensures score == Score(p, w)
  {
    var rawGain := 0;
    var maxContribution := 0;
    var dominant := CoverageDebt;
    var weightsUsed: map<AcquisitionSignal, nat> := map[];
    var i := 0;
    while i < |p.signals|
      invariant 0 <= i <= |p.signals|
      invariant rawGain == Min(Contributions(p.signals[..i], w), U64_MAX)
      invariant (maxContribution, dominant) == Leading(p.signals[..i], w)
      invariant weightsUsed == WeightsUsed(p.signals[..i], w)
    {
      assert p.signals[..i + 1][..i] == p.signals[..i];
      var (signal, strength) := p.signals[i];
      var weight := if signal in w then w[signal] else MILLIONTHS;
      var contribution := SatMul(strength, weight) / MILLIONTHS;
      rawGain := SatAdd(rawGain, contribution);
      weightsUsed := weightsUsed[signal := weight];
      if contribution > maxContribution {
        maxContribution := contribution;
        dominant := signal;
      }
      i := i + 1;
    }
    assert p.signals[..i] == p.signals;
    rawGain := SatAdd(rawGain, p.expectedGain);
    var cost := if p.cost == 0 then 1 else p.cost;
    assert cost == Max(p.cost, 1) && rawGain == RawGain(p, w);
    QuotientNonNegative(SatMul(rawGain, MILLIONTHS), cost);
    score := AcquisitionScore(p.proposalId, rawGain, SatMul(rawGain, MILLIONTHS) / cost, weightsUsed, dominant);
  }

  /** A signal contributes its strength times its weight in millionths, one million without a weight, rounded down; a product
      beyond 64 bits counts as the largest 64-bit number. */
  lemma ContributionIsWeighted(signal: (AcquisitionSignal, u64), w: SignalWeights)
    ensures var weight := if signal.0 in w then w[signal.0] else 1_000_000;
            if signal.1 * weight <= U64_MAX then
              Contribution(signal, w) * 1_000_000 <= signal.1 * weight < (Contribution(signal, w) + 1) * 1_000_000
            else Contribution(signal, w) == 18_446_744_073_709
  {
  }

  lemma {:induction false} ContributionsAdd(signals: seq<(AcquisitionSignal, u64)>, w: SignalWeights, xs: seq<int>)
    requires |xs| == |signals| && forall i :: 0 <= i < |xs| ==> xs[i] == Contribution(signals[i], w)
    ensures Contributions(signals, w) == Sum(xs)
  {
    if xs != [] {
      ContributionsAdd(signals[..|xs| - 1], w, xs[..|xs| - 1]);
    }
  }

  /** The raw gain is the proposal's own expected gain and what its signals contribute; the density relates it to the cost,
      and a free proposal counts as costing one. */
  lemma GainAndDensity(p: ExperimentProposal, w: SignalWeights, xs: seq<int>)
    requires |xs| == |p.signals| && forall i :: 0 <= i < |xs| ==> xs[i] == Contribution(p.signals[i], w)
    ensures var score := Score(p, w);
            && score.rawGain == Min(Sum(xs) + p.expectedGain, U64_MAX) && score.proposalId == p.proposalId
            && (p.cost == 0 ==> score.costAdjusted == Min(score.rawGain * 1_000_000, U64_MAX))
            && (p.cost > 0 && score.rawGain * 1_000_000 <= U64_MAX ==>
                  score.costAdjusted * p.cost <= score.rawGain * 1_000_000 < (score.costAdjusted + 1) * p.cost)
            && (p.cost > 0 && score.rawGain * 1_000_000 > U64_MAX ==>
                  score.costAdjusted * p.cost <= U64_MAX < (score.costAdjusted + 1) * p.cost)
  {
    ContributionsAdd(p.signals, w, xs);
    DivMod(SatMul(RawGain(p, w), MILLIONTHS), Max(p.cost, 1));
  }

  lemma {:induction false} WeightsUsedAreTheWeights(signals: seq<(AcquisitionSignal, u64)>, w: SignalWeights, s: AcquisitionSignal)
    ensures s in WeightsUsed(signals, w) <==> exists i :: 0 <= i < |signals| && signals[i].0 == s
    ensures s in WeightsUsed(signals, w) ==> WeightsUsed(signals, w)[s] == WeightOf(s, w)
  {
    if signals != [] {
      var front := signals[..|signals| - 1];
      WeightsUsedAreTheWeights(front, w, s);
      if s in WeightsUsed(front, w) {
        var i :| 0 <= i < |front| && front[i].0 == s;
        assert signals[i].0 == s;
      }
    }
  }

  /** The dominant signal is the first of the largest contributors, and the default when nothing contributes. */
  lemma {:induction false} DominantIsLargest(signals: seq<(AcquisitionSignal, u64)>, w: SignalWeights)
    ensures var (best, d) := Leading(signals, w);
            && (forall j :: 0 <= j < |signals| ==> Contribution(signals[j], w) <= best)
            && (best == 0 ==> d == CoverageDebt)
            && (best > 0 ==> exists i :: 0 <= i < |signals| && signals[i].0 == d && Contribution(signals[i], w) == best
                               && forall j :: 0 <= j < i ==> Contribution(signals[j], w) < best)
  {
    if signals != [] {
      var k := |signals| - 1;
      var front := signals[..k];
      DominantIsLargest(front, w);
      var (best, d) := Leading(front, w);
      assert forall j :: 0 <= j < k ==> signals[j] == front[j];
      if Contribution(signals[k], w) <= best && best > 0 {
        var i :| 0 <= i < |front| && front[i].0 == d && Contribution(front[i], w) == best
                 && forall j :: 0 <= j < i ==> Contribution(front[j], w) < best;
        assert signals[i].0 == d;
      }
    }
  }

  // ----- ranking -----

  datatype Scored = Scored(proposal: ExperimentProposal, score: AcquisitionScore)

  // Byte order of UTF-8 strings is code point order.
  predicate LexLeq(a: string, b: string) {
    a == [] || (b != [] && (a[0] < b[0] || (a[0] == b[0] && LexLeq(a[1..], b[1..]))))
  }

  // a and b agree on their first i characters, and then a has the smaller one.
  predicate SmallerAt(a: string, b: string, i: nat) {
    i < |a| && i < |b| && a[..i] == b[..i] && a[i] < b[i]
  }

  /** Strings are ordered by their first difference, and a prefix comes before the whole. */
  lemma {:induction false} LexIsFirstDifference(a: string, b: string)
    ensures LexLeq(a, b) <==> a <= b || exists i: nat :: SmallerAt(a, b, i)
  {
    if a != [] && b != [] {
      LexIsFirstDifference(a[1..], b[1..]);
      assert a == [a[0]] + a[1..] && b == [b[0]] + b[1..];
      if a[0] == b[0] {
        SmallerInTails(a, b);
      } else if a[0] < b[0] {
        assert SmallerAt(a, b, 0);
      } else {
        NotSmallerLater(a, b);
      }
    }
  }

  lemma NotSmallerLater(a: string, b: string)
    requires a != [] && b != [] && a[0] > b[0]
    ensures forall i: nat :: !SmallerAt(a, b, i)
  {
    forall i: nat ensures !SmallerAt(a, b, i) {
      if 0 < i <= |a| && i <= |b| {
        assert a[..i][0] != b[..i][0];
      }
    }
  }

  lemma SmallerInTails(a: string, b: string)
    requires a != [] && b != [] && a[0] == b[0]
    ensures (exists i: nat :: SmallerAt(a, b, i)) <==> exists i: nat :: SmallerAt(a[1..], b[1..], i)
  {
    forall i: nat | SmallerAt(a, b, i) ensures i > 0 && SmallerAt(a[1..], b[1..], i - 1) {
      assert a[1..][..i - 1] == a[..i][1..] && b[1..][..i - 1] == b[..i][1..];
    }
    forall i: nat | SmallerAt(a[1..], b[1..], i) ensures SmallerAt(a, b, i + 1) {
      assert a[..i + 1] == [a[0]] + a[1..][..i] && b[..i + 1] == [b[0]] + b[1..][..i];
    }
  }

  predicate RanksBefore(a: Scored, b: Scored) {
    || a.score.costAdjusted > b.score.costAdjusted
    || (a.score.costAdjusted == b.score.costAdjusted && LexLeq(a.proposal.proposalId, b.proposal.proposalId))
  }

  /** A denser proposal comes first, whatever its id; among equally dense ones the id decides. */
  lemma DensityThenId(a: Scored, b: Scored)
    ensures a.score.costAdjusted > b.score.costAdjusted ==> RanksBefore(a, b) && !RanksBefore(b, a)
    ensures a.score.costAdjusted == b.score.costAdjusted && a.proposal.proposalId == "p1" && b.proposal.proposalId == "p2" ==>
              RanksBefore(a, b) && !RanksBefore(b, a)
  {
    assert "p1"[1..] == "1" && "p2"[1..] == "2";
  }

  predicate Ranked(s: seq<Scored>) {
    forall i, j :: 0 <= i < j < |s| ==> RanksBefore(s[i], s[j])
  }

  function ScoreAll(ps: seq<ExperimentProposal>, w: SignalWeights): (r: seq<Scored>)
    ensures |r| == |ps| && forall i :: 0 <= i < |r| ==> r[i] == Scored(ps[i], Score(ps[i], w))
  {
    seq(|ps|, i requires 0 <= i < |ps| => Scored(ps[i], Score(ps[i], w)))
  }

  // Stable: an item goes in front of the later items it ties with.
  function InsertRanked(x: Scored, s: seq<Scored>): (r: seq<Scored>)
    ensures multiset(r) == multiset(s) + multiset{x}
  {
    if s == [] || RanksBefore(x, s[0]) then [x] + s
    else
      assert s == [s[0]] + s[1..];
      [s[0]] + InsertRanked(x, s[1..])
  }

  function Rank(s: seq<Scored>): (r: seq<Scored>)
    ensures multiset(r) == multiset(s)
  {
    if s == [] then []
    else
      assert s == [s[0]] + s[1..];
      InsertRanked(s[0], Rank(s[1..]))
  }

  lemma {:induction false} LexTransitive(a: string, b: string, c: string)
    requires LexLeq(a, b) && LexLeq(b, c)
    ensures LexLeq(a, c)
  {
    if a != [] && a[0] == b[0] == c[0] {
      LexTransitive(a[1..], b[1..], c[1..]);
    }
  }

  lemma {:induction false} LexTotal(a: string, b: string)
    ensures LexLeq(a, b) || LexLeq(b, a)
    ensures LexLeq(a, b) && LexLeq(b, a) ==> a == b
  {
    if a != [] && b != [] && a[0] == b[0] {
      LexTotal(a[1..], b[1..]);
      assert a == [a[0]] + a[1..] && b == [b[0]] + b[1..];
    }
  }

  lemma RanksTransitive(a: Scored, b: Scored, c: Scored)
    requires RanksBefore(a, b) && RanksBefore(b, c)
    ensures RanksBefore(a, c)
  {
    if a.score.costAdjusted == b.score.costAdjusted == c.score.costAdjusted {
      LexTransitive(a.proposal.proposalId, b.proposal.proposalId, c.proposal.proposalId);
    }
  }

  lemma RanksTotal(a: Scored, b: Scored)
    ensures RanksBefore(a, b) || RanksBefore(b, a)
    ensures RanksBefore(a, b) && RanksBefore(b, a) ==> a.proposal.proposalId == b.proposal.proposalId
  {
    LexTotal(a.proposal.proposalId, b.proposal.proposalId);
  }

  // x ahead of a ranked list is ranked when x ranks before everything in it
  lemma RankedCons(x: Scored, s: seq<Scored>)
    requires Ranked(s) && forall y :: y in s ==> RanksBefore(x, y)
    ensures Ranked([x] + s)
  {
    forall i, j | 0 <= i < j < |s| + 1 ensures RanksBefore(([x] + s)[i], ([x] + s)[j]) {
      assert ([x] + s)[j] == s[j - 1];
    }
  }

  lemma {:induction false} InsertKeepsRanked(x: Scored, s: seq<Scored>)
    requires Ranked(s)
    ensures Ranked(InsertRanked(x, s))
  {
    if s == [] {
    } else if RanksBefore(x, s[0]) {
      forall y | y in s ensures RanksBefore(x, y) {
        var j :| 0 <= j < |s| && s[j] == y;
        if j > 0 { RanksTransitive(x, s[0], y); }
      }
      RankedCons(x, s);
    } else {
      RanksTotal(x, s[0]);
      var rest := InsertRanked(x, s[1..]);
      InsertKeepsRanked(x, s[1..]);
      forall y | y in rest ensures RanksBefore(s[0], y) {
        assert y in multiset(rest);
      }
      RankedCons(s[0], rest);
    }
  }

  lemma {:induction false} RankIsRanked(s: seq<Scored>)
    ensures Ranked(Rank(s))
  {
    if s != [] {
      RankIsRanked(s[1..]);
      InsertKeepsRanked(s[0], Rank(s[1..]));
    }
  }

  predicate DistinctIds(s: seq<Scored>) {
    forall i, j :: 0 <= i < j < |s| ==> s[i].proposal.proposalId != s[j].proposal.proposalId
  }

  ghost predicate IdsDecide(m: multiset<Scored>) {
    && (forall x :: x in m ==> m[x] == 1)
    && (forall x, y :: x in m && y in m && x.proposal.proposalId == y.proposal.proposalId ==> x == y)
  }

  lemma OneMoreDecides(x: Scored, m: multiset<Scored>)
    requires IdsDecide(m) && forall y :: y in m ==> y.proposal.proposalId != x.proposal.proposalId
    ensures IdsDecide(m + multiset{x})
  {
  }

  lemma OthersDiffer(s: seq<Scored>)
    requires s != [] && DistinctIds(s)
    ensures forall y :: y in multiset(s[1..]) ==> y.proposal.proposalId != s[0].proposal.proposalId
  {
    forall y | y in multiset(s[1..]) ensures y.proposal.proposalId != s[0].proposal.proposalId {
      var j :| 0 <= j < |s[1..]| && s[1..][j] == y;
      assert s[1 + j] == y;
    }
  }

  lemma {:induction false} DistinctIdsDecide(s: seq<Scored>)
    requires DistinctIds(s)
    ensures IdsDecide(multiset(s))
  {
    if s != [] {
      var x, rest := s[0], s[1..];
      DistinctIdsDecide(rest);
      OthersDiffer(s);
      OneMoreDecides(x, multiset(rest));
      assert multiset(s) == multiset(rest) + multiset{x} by { assert s == [x] + rest; }
    }
  }

  lemma RankedHead(s: seq<Scored>, y: Scored)
    requires Ranked(s) && y in s
    ensures s[0] == y || RanksBefore(s[0], y)
  {
  }

  /** Distinct ids leave exactly one ranked order. */
  lemma {:induction false} RankedUnique(a: seq<Scored>, b: seq<Scored>)
    requires Ranked(a) && Ranked(b) && multiset(a) == multiset(b) && IdsDecide(multiset(a))
    ensures a == b
  {
    assert |multiset(a)| == |a| && |multiset(b)| == |b|;
    if a != [] {
      assert a[0] in multiset(b) && b[0] in multiset(a);
      RankedHead(a, b[0]);
      RankedHead(b, a[0]);
      RanksTotal(a[0], b[0]);
      assert a[0] == b[0];
      TailElements(a);
      TailElements(b);
      RankedUnique(a[1..], b[1..]);
    }
  }
}
