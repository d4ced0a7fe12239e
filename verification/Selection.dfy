/** Greedy selection of experiments within a budget, and what it guarantees. */
module Selection {
  import opened Machine
  import opened Oracle

  function Total<T>(f: T -> nat, xs: seq<T>): nat {
    if xs == [] then 0 else f(xs[0]) + Total(f, xs[1..])
  }

  function CostOf(x: Scored): nat { x.proposal.cost }
  function GainOf(x: Scored): nat { x.proposal.expectedGain }
  function RawOf(x: Scored): nat { x.score.rawGain }

  // ----- the greedy pass -----

  function Fill(ranked: seq<Scored>, budget: nat): (sel: seq<Scored>)
    ensures Total(CostOf, sel) <= budget
  {
    if ranked == [] then []
    else if ranked[0].proposal.cost <= budget then
      [ranked[0]] + Fill(ranked[1..], budget - ranked[0].proposal.cost)
    else Fill(ranked[1..], budget)
  }

  function FirstRejected(ranked: seq<Scored>, budget: nat): Option<Scored> {
    if ranked == [] then None
    else if ranked[0].proposal.cost <= budget then FirstRejected(ranked[1..], budget - ranked[0].proposal.cost)
    else Some(ranked[0])
  }

  function Proposals(s: seq<Scored>): (r: seq<ExperimentProposal>)
    ensures |r| == |s| && forall i :: 0 <= i < |r| ==> r[i] == s[i].proposal
  {
    seq(|s|, i requires 0 <= i < |s| => s[i].proposal)
  }

  function Scores(s: seq<Scored>): (r: seq<AcquisitionScore>)
    ensures |r| == |s| && forall i :: 0 <= i < |r| ==> r[i] == s[i].score
  {
    seq(|s|, i requires 0 <= i < |s| => s[i].score)
  }

  function PlanOf(sel: seq<Scored>, budget: nat): ExperimentPlan
    requires Total(CostOf, sel) <= budget
  {
    ExperimentPlan(Proposals(sel), Scores(sel), budget - Total(CostOf, sel), Min(Total(GainOf, sel), U64_MAX))
  }

  function Selected(ps: seq<ExperimentProposal>, budget: nat, w: SignalWeights): (sel: seq<Scored>)
    ensures Total(CostOf, sel) <= budget
  {
    Fill(Rank(ScoreAll(ps, w)), budget)
  }

  lemma {:induction false} TotalAppend<T>(f: T -> nat, xs: seq<T>, x: T)
    ensures Total(f, xs + [x]) == Total(f, xs) + f(x)
  {
    if xs == [] {
      assert xs + [x] == [x];
    } else {
      assert (xs + [x])[1..] == xs[1..] + [x];
      TotalAppend(f, xs[1..], x);
    }
  }

  method RankProposals(ps: seq<ExperimentProposal>, w: SignalWeights) returns (ranked: seq<Scored>)
    ensures ranked == Rank(ScoreAll(ps, w))
  {
    var scored: seq<Scored> := [];
    var k := 0;
    while k < |ps|
      invariant 0 <= k <= |ps| && scored == ScoreAll(ps, w)[..k]
    {
      var score := ScoreProposal(ps[k], w);
      scored := scored + [Scored(ps[k], score)];
      k := k + 1;
    }
    assert scored == ScoreAll(ps, w);
    ranked := Rank(scored);
  }

  lemma FillStep(sel: seq<Scored>, ranked: seq<Scored>, i: nat, remaining: nat)
    requires i < |ranked|
    ensures sel + Fill(ranked[i..], remaining) ==
            if ranked[i].proposal.cost <= remaining
            then (sel + [ranked[i]]) + Fill(ranked[i + 1..], remaining - ranked[i].proposal.cost)
            else sel + Fill(ranked[i + 1..], remaining)
  {
    assert ranked[i..][1..] == ranked[i + 1..];
  }

  method FillBudget(ranked: seq<Scored>, budget: nat) returns (sel: seq<Scored>, remaining: nat, totalGain: nat)
    ensures sel == Fill(ranked, budget)
    ensures remaining + Total(CostOf, sel) == budget
    ensures totalGain == Min(Total(GainOf, sel), U64_MAX)
  {
    sel, remaining, totalGain := [], budget, 0;
    var i := 0;
    while i < |ranked|
      invariant 0 <= i <= |ranked|
      invariant sel + Fill(ranked[i..], remaining) == Fill(ranked, budget)
      invariant remaining + Total(CostOf, sel) == budget
      invariant totalGain == Min(Total(GainOf, sel), U64_MAX)
    {
      var x := ranked[i];
      FillStep(sel, ranked, i, remaining);
      if x.proposal.cost <= remaining {
        TotalAppend(CostOf, sel, x);
        TotalAppend(GainOf, sel, x);
        remaining := remaining - x.proposal.cost;
        totalGain := SatAdd(totalGain, x.proposal.expectedGain);
        sel := sel + [x];
      }
      i := i + 1;
    }
  }

  function Planned(sel: seq<Scored>, budget: nat): Result<ExperimentPlan, AcquisitionError>
    requires Total(CostOf, sel) <= budget
  {
    if sel == [] then Failure(BudgetExhausted) else Success(PlanOf(sel, budget))
  }

  method SelectExperiments(ps: seq<ExperimentProposal>, budget: u64, w: SignalWeights)
    returns (r: Result<ExperimentPlan, AcquisitionError>)
    ensures r == if ps == [] then Failure(NoCandidates) else Planned(Selected(ps, budget, w), budget)
  {
    if ps == [] {
      return Failure(NoCandidates);
    }
    var ranked := RankProposals(ps, w);
    r := PlanRanked(ranked, budget);
  }

  method PlanRanked(ranked: seq<Scored>, budget: u64) returns (r: Result<ExperimentPlan, AcquisitionError>)
    ensures r == Planned(Fill(ranked, budget), budget)
  {
    var sel, remaining, totalGain := FillBudget(ranked, budget);
    if sel == [] {
      return Failure(BudgetExhausted);
    }
    return Success(ExperimentPlan(Proposals(sel), Scores(sel), remaining, totalGain));
  }

  // ----- plan validation -----

  datatype PlanIssue = CountMismatch | IdMismatch(index: nat) | GainMismatch(actual: nat)

  function ProposalGain(p: ExperimentProposal): nat { p.expectedGain }

  predicate Consistent(plan: ExperimentPlan) {
    && |plan.proposals| == |plan.scores|
    && (forall i :: 0 <= i < |plan.scores| && i < |plan.proposals| ==> plan.scores[i].proposalId == plan.proposals[i].proposalId)
    && plan.totalExpectedGain == Min(Total(ProposalGain, plan.proposals), U64_MAX)
  }

  /** A consistent plan becomes inconsistent by dropping a score, changing a score's id, or changing the total gain. */
  lemma CorruptPlansAreInconsistent(plan: ExperimentPlan, i: nat, id: string, gain: nat)
    requires Consistent(plan) && i < |plan.scores| && id != plan.proposals[i].proposalId && gain != plan.totalExpectedGain
    ensures !Consistent(plan.(scores := plan.scores[..i]))
    ensures !Consistent(plan.(scores := plan.scores[i := plan.scores[i].(proposalId := id)]))
    ensures !Consistent(plan.(totalExpectedGain := gain))
  {
    assert plan.scores[i := plan.scores[i].(proposalId := id)][i].proposalId == id;
  }

  method ValidatePlan(plan: ExperimentPlan) returns (issues: seq<PlanIssue>)
    ensures issues == [] <==> Consistent(plan)
  {
    issues := [];
    if |plan.proposals| != |plan.scores| {
      issues := [CountMismatch];
    }
    var i := 0;
    while i < |plan.scores|
      invariant 0 <= i <= |plan.scores|
      invariant issues == [] <==>
                  && |plan.proposals| == |plan.scores|
                  && forall k :: 0 <= k < i && k < |plan.proposals| ==> plan.scores[k].proposalId == plan.proposals[k].proposalId
    {
      if i < |plan.proposals| && plan.scores[i].proposalId != plan.proposals[i].proposalId {
        issues := issues + [IdMismatch(i)];
      }
      i := i + 1;
    }
    var sumGain := 0;
    var j := 0;
    while j < |plan.proposals|
      invariant 0 <= j <= |plan.proposals|
      invariant sumGain == Min(Total(ProposalGain, plan.proposals[..j]), U64_MAX)
    {
      assert plan.proposals[..j + 1] == plan.proposals[..j] + [plan.proposals[j]];
      TotalAppend(ProposalGain, plan.proposals[..j], plan.proposals[j]);
      sumGain := SatAdd(sumGain, plan.proposals[j].expectedGain);
      j := j + 1;
    }
    assert plan.proposals[..j] == plan.proposals;
    if sumGain != plan.totalExpectedGain {
      issues := issues + [GainMismatch(sumGain)];
    }
  }

  lemma {:induction false} TotalOfProposals(s: seq<Scored>)
    ensures Total(ProposalGain, Proposals(s)) == Total(GainOf, s)
  {
    if s != [] {
      assert Proposals(s)[1..] == Proposals(s[1..]);
      TotalOfProposals(s[1..]);
    }
  }

  lemma {:induction false} FillComesFrom(ranked: seq<Scored>, budget: nat)
    ensures multiset(Fill(ranked, budget)) <= multiset(ranked)
  {
    if ranked != [] {
      assert ranked == [ranked[0]] + ranked[1..];
      FillComesFrom(ranked[1..], if ranked[0].proposal.cost <= budget then budget - ranked[0].proposal.cost else budget);
    }
  }

  /** Every plan the selection returns passes validation. */
  lemma SelectedPlansAreConsistent(ps: seq<ExperimentProposal>, budget: nat, w: SignalWeights)
    ensures Consistent(PlanOf(Selected(ps, budget, w), budget))
  {
    var all := ScoreAll(ps, w);
    var sel := Selected(ps, budget, w);
    TotalOfProposals(sel);
    FillComesFrom(Rank(all), budget);
    forall i | 0 <= i < |sel| ensures sel[i].score.proposalId == sel[i].proposal.proposalId {
      assert sel[i] in multiset(all);
      var j :| 0 <= j < |all| && all[j] == sel[i];
    }
  }

  function ProposalCost(p: ExperimentProposal): nat { p.cost }

  lemma {:induction false} CostOfProposals(s: seq<Scored>)
    ensures Total(ProposalCost, Proposals(s)) == Total(CostOf, s)
  {
    if s != [] {
      assert Proposals(s)[1..] == Proposals(s[1..]);
      CostOfProposals(s[1..]);
    }
  }

  /** What a plan leaves of the budget and what its proposals cost make up the budget; each proposal has its own score. */
  lemma PlanAccounts(ps: seq<ExperimentProposal>, budget: nat, w: SignalWeights)
    ensures var plan := PlanOf(Selected(ps, budget, w), budget);
            && plan.budgetRemaining + Total(ProposalCost, plan.proposals) == budget
            && |plan.scores| == |plan.proposals|
            && forall i :: 0 <= i < |plan.scores| ==> plan.scores[i] == Score(plan.proposals[i], w)
  {
    var all := ScoreAll(ps, w);
    var sel := Selected(ps, budget, w);
    CostOfProposals(sel);
    FillComesFrom(Rank(all), budget);
    forall i | 0 <= i < |sel| ensures sel[i].score == Score(sel[i].proposal, w) {
      assert sel[i] in multiset(all);
      var j :| 0 <= j < |all| && all[j] == sel[i];
    }
  }

  // ----- what was left out did not fit -----

  lemma {:induction false} UnselectedDoNotFit(ranked: seq<Scored>, budget: nat, x: Scored)
    requires x in multiset(ranked) - multiset(Fill(ranked, budget))
    ensures x.proposal.cost > budget - Total(CostOf, Fill(ranked, budget))
  {
    assert ranked == [ranked[0]] + ranked[1..];
    if ranked[0].proposal.cost <= budget {
      UnselectedDoNotFit(ranked[1..], budget - ranked[0].proposal.cost, x);
    } else if x != ranked[0] || x in multiset(ranked[1..]) - multiset(Fill(ranked[1..], budget)) {
      UnselectedDoNotFit(ranked[1..], budget, x);
    }
  }

  lemma {:induction false} FillEmptyIff(ranked: seq<Scored>, budget: nat)
    ensures Fill(ranked, budget) == [] <==> forall x :: x in ranked ==> x.proposal.cost > budget
  {
    if ranked != [] {
      assert ranked == [ranked[0]] + ranked[1..];
      FillEmptyIff(ranked[1..], budget);
    }
  }

  lemma ScoreAllElements(ps: seq<ExperimentProposal>, w: SignalWeights, p: ExperimentProposal)
    ensures p in ps <==> Scored(p, Score(p, w)) in Rank(ScoreAll(ps, w))
  {
    var all := ScoreAll(ps, w);
    var x := Scored(p, Score(p, w));
    assert x in Rank(all) <==> x in multiset(all);
    assert x in all <==> x in multiset(all);
    if p in ps {
      var i :| 0 <= i < |ps| && ps[i] == p;
      assert all[i] == x;
    }
  }

  /** Selection reports an exhausted budget exactly when every candidate costs more than the whole budget. */
  lemma ExhaustedIff(ps: seq<ExperimentProposal>, budget: nat, w: SignalWeights)
    ensures Selected(ps, budget, w) == [] <==> forall p :: p in ps ==> p.cost > budget
  {
    var ranked := Rank(ScoreAll(ps, w));
    FillEmptyIff(ranked, budget);
    if forall x :: x in ranked ==> x.proposal.cost > budget {
      forall p | p in ps ensures p.cost > budget {
        ScoreAllElements(ps, w, p);
      }
    }
    if forall p :: p in ps ==> p.cost > budget {
      forall x | x in ranked ensures x.proposal.cost > budget {
        assert x in multiset(ranked);
        var all := ScoreAll(ps, w);
        var j :| 0 <= j < |all| && all[j] == x;
        assert ps[j] in ps;
      }
    }
  }

  /** There is a plan exactly when some candidate fits the budget; otherwise the budget is reported as exhausted. */
  lemma PlanExistsIff(ps: seq<ExperimentProposal>, budget: nat, w: SignalWeights)
    ensures Planned(Selected(ps, budget, w), budget) ==
            if exists p :: p in ps && p.cost <= budget then Success(PlanOf(Selected(ps, budget, w), budget))
            else Failure(BudgetExhausted)
  {
    ExhaustedIff(ps, budget, w);
  }

  /** With distinct ids the plan is the same for every order in which the proposals arrive. */
  lemma SelectionIgnoresOrder(ps: seq<ExperimentProposal>, qs: seq<ExperimentProposal>, budget: nat, w: SignalWeights)
    requires multiset(ps) == multiset(qs)
    requires forall i, j :: 0 <= i < j < |ps| ==> ps[i].proposalId != ps[j].proposalId
    ensures Selected(ps, budget, w) == Selected(qs, budget, w)
  {
    var a, b := ScoreAll(ps, w), ScoreAll(qs, w);
    ScoreAllMultiset(ps, qs, w);
    DistinctIdsDecide(a);
    RankIsRanked(a);
    RankIsRanked(b);
    RankedUnique(Rank(a), Rank(b));
  }

  lemma CountCons<T>(x: T, xs: seq<T>, y: T)
    ensures multiset([x] + xs)[y] == multiset(xs)[y] + if x == y then 1 else 0
  {
  }

  // How often x occurs when every proposal is paired with a score of its own.
  lemma {:induction false} PairedCount(ps: seq<ExperimentProposal>, all: seq<Scored>, g: ExperimentProposal -> AcquisitionScore, x: Scored)
    requires |all| == |ps| && forall i :: 0 <= i < |ps| ==> all[i] == Scored(ps[i], g(ps[i]))
    ensures multiset(all)[x] == if x.score == g(x.proposal) then multiset(ps)[x.proposal] else 0
  {
    if ps != [] {
      PairedCount(ps[1..], all[1..], g, x);
      CountCons(ps[0], ps[1..], x.proposal);
      CountCons(all[0], all[1..], x);
      assert ps == [ps[0]] + ps[1..] && all == [all[0]] + all[1..];
    }
  }

  lemma ScoredCount(ps: seq<ExperimentProposal>, w: SignalWeights, x: Scored)
    ensures multiset(ScoreAll(ps, w))[x] == if x.score == Score(x.proposal, w) then multiset(ps)[x.proposal] else 0
  {
    PairedCount(ps, ScoreAll(ps, w), p => Score(p, w), x);
  }

  lemma ScoreAllMultiset(ps: seq<ExperimentProposal>, qs: seq<ExperimentProposal>, w: SignalWeights)
    requires multiset(ps) == multiset(qs)
    ensures multiset(ScoreAll(ps, w)) == multiset(ScoreAll(qs, w))
  {
    forall x ensures multiset(ScoreAll(ps, w))[x] == multiset(ScoreAll(qs, w))[x] {
      ScoredCount(ps, w, x);
      ScoredCount(qs, w, x);
    }
  }
}
