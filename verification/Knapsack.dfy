/** How close the greedy plan comes to the best plan the budget allows. */
module Knapsack {
  import opened Machine
  import opened Arithmetic
  import opened Sequences
  import opened Oracle
  import opened Selection

  const M: int := MILLIONTHS

  // The ranking key of x brackets its exact gain per unit of cost: from below always, from above unless it saturated.
  predicate Promised(x: Scored) {
    x.score.costAdjusted * x.proposal.cost <= M * x.score.rawGain
  }

  predicate Capped(x: Scored) {
    x.proposal.cost > 0 ==> M * x.score.rawGain < (x.score.costAdjusted + 1) * x.proposal.cost
  }

  lemma ScoreIsPromised(p: ExperimentProposal, w: SignalWeights)
    ensures Promised(Scored(p, Score(p, w)))
    ensures RawGain(p, w) * MILLIONTHS <= U64_MAX ==> Capped(Scored(p, Score(p, w)))
  {
    DivMod(SatMul(RawGain(p, w), MILLIONTHS), Max(p.cost, 1));
  }

  // ----- totals over sub-multisets -----

  lemma OmitElements<T>(s: seq<T>, i: nat)
    requires i < |s|
    ensures multiset(s) == multiset(Omit(s, i)) + multiset{s[i]}
  {
    assert s == s[..i] + [s[i]] + s[i + 1..];
  }

  lemma {:induction false} OmitTotal<T>(f: T -> nat, s: seq<T>, i: nat)
    requires i < |s|
    ensures Total(f, s) == Total(f, Omit(s, i)) + f(s[i])
  {
    if i > 0 {
      OmitTotal(f, s[1..], i - 1);
      assert Omit(s, i)[1..] == Omit(s[1..], i - 1);
    } else {
      assert Omit(s, 0) == s[1..];
    }
  }

  lemma CancelElement<T(!new)>(a: multiset<T>, b: multiset<T>, x: T)
    requires a + multiset{x} <= b + multiset{x}
    ensures a <= b
  {
    forall y ensures a[y] <= b[y] {
      assert (a + multiset{x})[y] <= (b + multiset{x})[y];
    }
  }

  lemma {:induction false} TotalSub<T(!new)>(f: T -> nat, a: seq<T>, b: seq<T>)
    requires multiset(a) <= multiset(b)
    ensures Total(f, a) <= Total(f, b)
  {
    if a != [] {
      assert a[0] in multiset(b);
      var i :| 0 <= i < |b| && b[i] == a[0];
      OmitElements(b, i);
      assert a == [a[0]] + a[1..];
      CancelElement(multiset(a[1..]), multiset(Omit(b, i)), a[0]);
      TotalSub(f, a[1..], Omit(b, i));
      OmitTotal(f, b, i);
    }
  }

  // ----- free items -----

  function Free(s: seq<Scored>): seq<Scored> {
    if s == [] then []
    else if s[0].proposal.cost == 0 then [s[0]] + Free(s[1..])
    else Free(s[1..])
  }

  lemma {:induction false} FreeElements(s: seq<Scored>, x: Scored)
    ensures multiset(Free(s))[x] == if x.proposal.cost == 0 then multiset(s)[x] else 0
  {
    if s != [] {
      assert s == [s[0]] + s[1..];
      FreeElements(s[1..], x);
    }
  }

  lemma {:induction false} FreeItemsAreSelected(ranked: seq<Scored>, budget: nat)
    ensures multiset(Free(ranked)) <= multiset(Fill(ranked, budget))
  {
    if ranked != [] {
      FreeItemsAreSelected(ranked[1..], if ranked[0].proposal.cost <= budget then budget - ranked[0].proposal.cost else budget);
    }
  }

  lemma FreeGain(t: seq<Scored>, ranked: seq<Scored>, budget: nat)
    requires multiset(t) <= multiset(ranked)
    ensures Total(RawOf, Free(t)) <= Total(RawOf, Fill(ranked, budget))
  {
    forall x ensures multiset(Free(t))[x] <= multiset(Free(ranked))[x] {
      FreeElements(t, x);
      FreeElements(ranked, x);
    }
    FreeItemsAreSelected(ranked, budget);
    TotalSub(RawOf, Free(t), Fill(ranked, budget));
  }

  // ----- the exchange argument -----

  lemma CostlyArithmetic(rx: int, fx: int, cx: int, dx: int, r: int, f: int, c: int, d: int)
    requires 0 <= cx && dx <= d && (M * rx <= M * fx || (0 <= fx && M * rx < (dx + 1) * cx))
    requires M * r <= M * f + (d + 1) * c && 0 <= d
    ensures M * (rx + r) <= M * (fx + f) + (d + 1) * (cx + c)
  {
    MulMonotone(dx + 1, d + 1, cx);
    MulMonotone(0, d + 1, cx);
    assert (d + 1) * (cx + c) == (d + 1) * cx + (d + 1) * c;
  }

  // Items no denser than d gain at most d + 1 per unit of cost, apart from the free ones.
  lemma {:induction false} CostlyGain(t: seq<Scored>, d: nat)
    requires forall x :: x in t ==> Capped(x) && x.score.costAdjusted <= d
    ensures M * Total(RawOf, t) <= M * Total(RawOf, Free(t)) + (d + 1) * Total(CostOf, t)
  {
    if t != [] {
      var x, rest := t[0], t[1..];
      CostlyGain(rest, d);
      var free := if x.proposal.cost == 0 then x.score.rawGain else 0;
      assert Total(RawOf, Free(t)) == free + Total(RawOf, Free(rest));
      assert Capped(x);
      CostlyArithmetic(x.score.rawGain, free, x.proposal.cost, x.score.costAdjusted,
                       Total(RawOf, rest), Total(RawOf, Free(rest)), Total(CostOf, rest), d);
    }
  }

  lemma {:induction false} RejectedIsRanked(ranked: seq<Scored>, budget: nat)
    requires FirstRejected(ranked, budget).Some?
    ensures FirstRejected(ranked, budget).value in ranked
  {
    if ranked[0].proposal.cost <= budget {
      RejectedIsRanked(ranked[1..], budget - ranked[0].proposal.cost);
    }
  }

  // The ranking from the first proposal that did not fit.
  function Behind(ranked: seq<Scored>, budget: nat): seq<Scored> {
    if ranked == [] then []
    else if ranked[0].proposal.cost <= budget then Behind(ranked[1..], budget - ranked[0].proposal.cost)
    else ranked
  }

  // The bound with the budget still open: no feasibility of t is assumed.
  ghost predicate Bounded(t: seq<Scored>, ranked: seq<Scored>, budget: nat, k: Scored) {
    var d := k.score.costAdjusted;
    M * Total(RawOf, t)
    <= M * (Total(RawOf, Fill(ranked, budget)) + k.score.rawGain) + (d + 1) * Total(CostOf, t) - d * budget
  }

  lemma RejectionArithmetic(rt: int, free: int, rf: int, rk: int, ct: int, ck: int, d: int, b: int)
    requires M * rt <= M * free + (d + 1) * ct && free <= rf && d * ck <= M * rk && 0 <= d && b <= ck
    ensures M * rt <= M * (rf + rk) + (d + 1) * ct - d * b
  {
    MulMonotone(b, ck, d);
  }

  lemma BoundedAtRejection(t: seq<Scored>, ranked: seq<Scored>, budget: nat)
    requires ranked != [] && Ranked(ranked) && Promised(ranked[0]) && forall x :: x in ranked ==> Capped(x)
    requires multiset(t) <= multiset(ranked)
    requires ranked[0].proposal.cost > budget
    ensures Bounded(t, ranked, budget, ranked[0])
  {
    var k := ranked[0];
    var d := k.score.costAdjusted;
    forall x | x in t ensures Capped(x) && x.score.costAdjusted <= d {
      assert x in multiset(ranked);
      RankedHead(ranked, x);
    }
    CostlyGain(t, d);
    FreeGain(t, ranked, budget);
    assert Promised(k);
    RejectionArithmetic(Total(RawOf, t), Total(RawOf, Free(t)), Total(RawOf, Fill(ranked, budget)), k.score.rawGain,
                        Total(CostOf, t), k.proposal.cost, d, budget);
  }

  lemma TakenArithmetic(rt: int, rf: int, rx: int, rk: int, ct: int, cx: int, d: int, b: int)
    requires 0 <= cx && M * rt <= M * (rf + rk) + (d + 1) * ct - d * (b - cx)
    ensures M * (rt + rx) <= M * (rf + rx + rk) + (d + 1) * (ct + cx) - d * b
  {
    assert (d + 1) * (ct + cx) == (d + 1) * ct + d * cx + cx;
    assert d * (b - cx) == d * b - d * cx;
  }

  lemma PassedArithmetic(rt: int, rf: int, rx: int, rk: int, ct: int, cx: int, dx: int, d: int, b: int)
    requires 0 <= cx && d <= dx && dx * cx <= M * rx
    requires M * rt <= M * (rf + rk) + (d + 1) * ct - d * (b - cx)
    ensures M * rt <= M * (rf + rx + rk) + (d + 1) * ct - d * b
  {
    MulMonotone(d, dx, cx);
    assert d * (b - cx) == d * b - d * cx;
  }

  // The head of the ranking fits and t takes it too, at position i.
  lemma BoundedTaken(t: seq<Scored>, i: nat, ranked: seq<Scored>, budget: nat, k: Scored)
    requires ranked != [] && i < |t| && t[i] == ranked[0] && ranked[0].proposal.cost <= budget
    requires Bounded(Omit(t, i), ranked[1..], budget - ranked[0].proposal.cost, k)
    ensures Bounded(t, ranked, budget, k)
  {
    var x, rest := ranked[0], Omit(t, i);
    OmitTotal(RawOf, t, i);
    OmitTotal(CostOf, t, i);
    TakenArithmetic(Total(RawOf, rest), Total(RawOf, Fill(ranked[1..], budget - x.proposal.cost)),
                    x.score.rawGain, k.score.rawGain, Total(CostOf, rest), x.proposal.cost, k.score.costAdjusted, budget);
  }

  // The head of the ranking fits and t does without it.
  lemma BoundedPassed(t: seq<Scored>, ranked: seq<Scored>, budget: nat, k: Scored)
    requires ranked != [] && ranked[0].proposal.cost <= budget
    requires Promised(ranked[0]) && k.score.costAdjusted <= ranked[0].score.costAdjusted
    requires Bounded(t, ranked[1..], budget - ranked[0].proposal.cost, k)
    ensures Bounded(t, ranked, budget, k)
  {
    var x := ranked[0];
    PassedArithmetic(Total(RawOf, t), Total(RawOf, Fill(ranked[1..], budget - x.proposal.cost)),
                     x.score.rawGain, k.score.rawGain, Total(CostOf, t), x.proposal.cost,
                     x.score.costAdjusted, k.score.costAdjusted, budget);
  }

  lemma {:induction false} BoundedAlways(t: seq<Scored>, ranked: seq<Scored>, budget: nat)
    requires Ranked(ranked) && forall x :: x in ranked ==> Promised(x)
    requires forall x :: x in Behind(ranked, budget) ==> Capped(x)
    requires multiset(t) <= multiset(ranked)
    requires FirstRejected(ranked, budget).Some?
    ensures Bounded(t, ranked, budget, FirstRejected(ranked, budget).value)
    decreases |ranked|
  {
    var x, rest := ranked[0], ranked[1..];
    if x.proposal.cost > budget {
      BoundedAtRejection(t, ranked, budget);
    } else {
      var left := budget - x.proposal.cost;
      var k := FirstRejected(rest, left).value;
      TailElements(ranked);
      if x in t {
        var i :| 0 <= i < |t| && t[i] == x;
        OmitElements(t, i);
        BoundedAlways(Omit(t, i), rest, left);
        BoundedTaken(t, i, ranked, budget, k);
      } else {
        assert x !in multiset(t);
        BoundedAlways(t, rest, left);
        RejectedIsRanked(rest, left);
        assert k in ranked;
        RankedHead(ranked, k);
        BoundedPassed(t, ranked, budget, k);
      }
    }
  }

  lemma AffordableArithmetic(r: int, f: int, c: int, d: int, b: int)
    requires M * r <= M * f + (d + 1) * c - d * b && c <= b && 0 <= d
    ensures M * r <= M * f + b
  {
    MulMonotone(c, b, d + 1);
    assert (d + 1) * b == d * b + b;
  }

  lemma AffordableBound(t: seq<Scored>, ranked: seq<Scored>, budget: nat, k: Scored)
    requires Bounded(t, ranked, budget, k) && Total(CostOf, t) <= budget
    ensures M * Total(RawOf, t) <= M * (Total(RawOf, Fill(ranked, budget)) + k.score.rawGain) + budget
  {
    AffordableArithmetic(Total(RawOf, t), Total(RawOf, Fill(ranked, budget)) + k.score.rawGain, Total(CostOf, t),
                         k.score.costAdjusted, budget);
  }

  lemma {:induction false} NothingRejected(ranked: seq<Scored>, budget: nat)
    requires FirstRejected(ranked, budget).None?
    ensures Fill(ranked, budget) == ranked
  {
    if ranked != [] {
      NothingRejected(ranked[1..], budget - ranked[0].proposal.cost);
    }
  }

  lemma RankedArePromised(ps: seq<ExperimentProposal>, w: SignalWeights)
    ensures forall x :: x in Rank(ScoreAll(ps, w)) ==> Promised(x) && x.score == Score(x.proposal, w)
  {
    var all := ScoreAll(ps, w);
    forall x | x in Rank(all) ensures Promised(x) && x.score == Score(x.proposal, w) {
      assert x in multiset(Rank(all));
      var i :| 0 <= i < |all| && all[i] == x;
      ScoreIsPromised(ps[i], w);
    }
  }

  // Every positively priced proposal from the first rejected one on has a score within 64 bits.
  predicate Unsaturated(ps: seq<ExperimentProposal>, budget: nat, w: SignalWeights) {
    forall x :: x in Behind(Rank(ScoreAll(ps, w)), budget) && x.proposal.cost > 0 ==> RawGain(x.proposal, w) * MILLIONTHS <= U64_MAX
  }

  lemma {:induction false} BehindIsRanked(ranked: seq<Scored>, budget: nat, x: Scored)
    requires x in Behind(ranked, budget)
    ensures x in ranked
  {
    if ranked != [] && ranked[0].proposal.cost <= budget {
      BehindIsRanked(ranked[1..], budget - ranked[0].proposal.cost, x);
    }
  }

  lemma BehindIsCapped(ps: seq<ExperimentProposal>, budget: nat, w: SignalWeights)
    requires Unsaturated(ps, budget, w)
    ensures forall x :: x in Behind(Rank(ScoreAll(ps, w)), budget) ==> Capped(x)
  {
    var ranked := Rank(ScoreAll(ps, w));
    RankedArePromised(ps, w);
    forall x | x in Behind(ranked, budget) ensures Capped(x) {
      BehindIsRanked(ranked, budget, x);
      ScoreIsPromised(x.proposal, w);
    }
  }

  lemma ChoiceIsRanked(ps: seq<ExperimentProposal>, t: seq<ExperimentProposal>, w: SignalWeights)
    requires multiset(t) <= multiset(ps)
    ensures multiset(ScoreAll(t, w)) <= multiset(Rank(ScoreAll(ps, w)))
  {
    forall x ensures multiset(ScoreAll(t, w))[x] <= multiset(ScoreAll(ps, w))[x] {
      ScoredCount(t, w, x);
      ScoredCount(ps, w, x);
    }
  }

  /** Greedy is within one item, and one unit of gain per unit of budget, of every affordable choice t of proposals. The
      selected proposals may have saturated scores, and so may free ones. */
  lemma GreedyGuarantee(ps: seq<ExperimentProposal>, budget: nat, w: SignalWeights, t: seq<ExperimentProposal>)
    requires Unsaturated(ps, budget, w)
    requires multiset(t) <= multiset(ps) && Total(CostOf, ScoreAll(t, w)) <= budget
    ensures var ranked := Rank(ScoreAll(ps, w));
            match FirstRejected(ranked, budget)
            case None => multiset(Selected(ps, budget, w)) == multiset(ScoreAll(ps, w))
            case Some(k) =>
              M * Total(RawOf, ScoreAll(t, w)) <= M * (Total(RawOf, Selected(ps, budget, w)) + k.score.rawGain) + budget
  {
    var ranked := Rank(ScoreAll(ps, w));
    match FirstRejected(ranked, budget) {
      case None =>
        NothingRejected(ranked, budget);
      case Some(k) =>
        RankIsRanked(ScoreAll(ps, w));
        RankedArePromised(ps, w);
        BehindIsCapped(ps, budget, w);
        var s := ScoreAll(t, w);
        ChoiceIsRanked(ps, t, w);
        BoundedAlways(s, ranked, budget);
        AffordableBound(s, ranked, budget, k);
    }
  }

  // ----- the range condition is needed -----

  const BIG: u64 := 18_446_744_073_710   // times a million: just beyond 64 bits
  const HUGE: u64 := 0x8000_0000_0000_0000

  function Item(id: string, gain: u64, cost: u64): ExperimentProposal {
    ExperimentProposal(id, BoardCellProbe, "", [], gain, 0, cost, "")
  }

  function Sample(): seq<ExperimentProposal> {
    [Item("s", BIG, 1), Item("a", BIG, 2), Item("b", HUGE, 2)]
  }

  lemma SampleScores()
    ensures var all := ScoreAll(Sample(), map[]);
            && |all| == 3
            && all[0].score.rawGain == BIG && all[0].score.costAdjusted == U64_MAX
            && all[1].score.rawGain == BIG && all[1].score.costAdjusted == U64_MAX / 2
            && all[2].score.rawGain == HUGE && all[2].score.costAdjusted == U64_MAX / 2
  {
  }

  lemma SampleIsRanked()
    ensures Rank(ScoreAll(Sample(), map[])) == ScoreAll(Sample(), map[])
  {
    var all := ScoreAll(Sample(), map[]);
    SampleScores();
    assert LexLeq("a", "b");
    assert Ranked(all);
    DistinctIdsDecide(all);
    RankIsRanked(all);
    RankedUnique(Rank(all), all);
  }

  /** Beyond 64 bits the bound fails: saturated scores hide the most valuable proposal behind two cheaper-looking ones. */
  lemma GuaranteeNeedsRange()
    ensures var ranked := Rank(ScoreAll(Sample(), map[]));
            var t := ScoreAll([Item("b", HUGE, 2)], map[]);
            var k := FirstRejected(ranked, 2);
            && Total(CostOf, t) <= 2 && k.Some?
            && M * Total(RawOf, t) > M * (Total(RawOf, Selected(Sample(), 2, map[])) + k.value.score.rawGain) + 2
  {
    SampleIsRanked();
    SampleScores();
    var all := ScoreAll(Sample(), map[]);
    var t := ScoreAll([Item("b", HUGE, 2)], map[]);
    assert t == [all[2]] && all == [all[0], all[1], all[2]];
    assert Fill([all[2]], 1) == [] && Fill([all[1], all[2]], 1) == Fill([all[2]], 1);
    assert Fill(all, 2) == [all[0]] + Fill(all[1..], 1);
    assert Total(RawOf, [all[0]]) == BIG;
    assert FirstRejected(all[1..], 1) == Some(all[1]);
  }
}
