/** The books of a tournament in 64-bit arithmetic, and when they are exact. */
module Ledger {
  import opened Machine
  import opened Arithmetic
  import opened Sequences
  import opened Payoffs

  // ----- saturating totals -----

  function SatSum(xs: seq<int>): int {
    if xs == [] then 0 else SatAddI64(SatSum(xs[..|xs| - 1]), xs[|xs| - 1])
  }

  lemma SatSumPush(xs: seq<int>, x: int)
    ensures SatSum(xs + [x]) == SatAddI64(SatSum(xs), x)
  {
    assert (xs + [x])[..|xs|] == xs;
  }

  lemma SatSumInRange(xs: seq<int>)
    ensures InI64(SatSum(xs))
  {
  }

  function PrefixSum(xs: seq<int>, k: nat): int
    requires k <= |xs|
  {
    Sum(xs[..k])
  }

  predicate NeverLeaves(xs: seq<int>) {
    forall k :: 0 <= k <= |xs| ==> InI64(PrefixSum(xs, k))
  }

  lemma {:induction false} ExactInRange(xs: seq<int>, k: nat)
    requires k <= |xs| && NeverLeaves(xs)
    ensures SatSum(xs[..k]) == PrefixSum(xs, k)
  {
    if k > 0 {
      ExactInRange(xs, k - 1);
      assert xs[..k][..k - 1] == xs[..k - 1];
      assert InI64(PrefixSum(xs, k));
    }
  }

  /** A saturating running total is the true sum at every point if and only if no true running sum leaves 64 bits. */
  lemma SaturationFreeIff(xs: seq<int>)
    ensures (forall k :: 0 <= k <= |xs| ==> SatSum(xs[..k]) == PrefixSum(xs, k)) <==> NeverLeaves(xs)
  {
    if NeverLeaves(xs) {
      forall k | 0 <= k <= |xs| ensures SatSum(xs[..k]) == PrefixSum(xs, k) {
        ExactInRange(xs, k);
      }
    }
    if forall k :: 0 <= k <= |xs| ==> SatSum(xs[..k]) == PrefixSum(xs, k) {
      forall k | 0 <= k <= |xs| ensures InI64(PrefixSum(xs, k)) {
        SatSumInRange(xs[..k]);
      }
    }
  }

  // ----- what the books say -----

  function SatTotal(role: PlayerRole, rounds: seq<RoundOutcome>): int {
    SatSum(Earnings(role, rounds))
  }

  function SatFixed(m: PayoffMatrix, role: PlayerRole, s: StrategyId, rounds: seq<RoundOutcome>): int {
    SatSum(Alternatives(m, role, s, rounds))
  }

  function AllSatFixed(m: PayoffMatrix, role: PlayerRole, rounds: seq<RoundOutcome>): (r: seq<int>)
    ensures |r| == |Strategies(m, role)|
    ensures forall i :: 0 <= i < |r| ==> r[i] == SatFixed(m, role, Strategies(m, role)[i], rounds)
  {
    var ss := Strategies(m, role);
    seq(|ss|, i requires 0 <= i < |ss| => SatFixed(m, role, ss[i], rounds))
  }

  // What the rounds cost; the absolute value of the least 64-bit number wraps to itself.
  function Cost(x: RoundOutcome): int {
    WrapI64(Abs(x.attackerPayoff))
  }

  function Spent(rounds: seq<RoundOutcome>): int {
    if rounds == [] then 0 else SatAddI64(Spent(rounds[..|rounds| - 1]), Cost(rounds[|rounds| - 1]))
  }

  lemma SpentPush(rounds: seq<RoundOutcome>, x: RoundOutcome)
    ensures Spent(rounds + [x]) == SatAddI64(Spent(rounds), Cost(x))
  {
    assert (rounds + [x])[..|rounds|] == rounds;
  }

  // The difference of the two totals, before it is reduced to 64 bits.
  function Gap(m: PayoffMatrix, role: PlayerRole, rounds: seq<RoundOutcome>): int
    requires Strategies(m, role) != []
  {
    Largest(AllSatFixed(m, role, rounds)) - SatTotal(role, rounds)
  }

  // An entry of the ledger: the subtraction wraps.
  function LedgerRegret(m: PayoffMatrix, role: PlayerRole, rounds: seq<RoundOutcome>): int
    requires Strategies(m, role) != []
  {
    Max(WrapI64(Gap(m, role, rounds)), 0)
  }

  // The final regret: the subtraction saturates.
  function FinalRegret(m: PayoffMatrix, role: PlayerRole, rounds: seq<RoundOutcome>): int
    requires Strategies(m, role) != []
  {
    Clamp(Gap(m, role, rounds), I64_MIN, I64_MAX)
  }

  datatype TrajectoryLedger = TrajectoryLedger(
    rounds: seq<RoundOutcome>,
    attackerRegret: seq<int>,
    defenderRegret: seq<int>)

  /** The ledger repeats the rounds, and each entry is computed from the rounds up to it. */
  predicate LedgerOf(t: TrajectoryLedger, m: PayoffMatrix, rounds: seq<RoundOutcome>)
    requires m.attackers != [] && m.defenders != []
  {
    && t.rounds == rounds && |t.attackerRegret| == |t.defenderRegret| == |rounds|
    && forall r :: 0 <= r < |rounds| ==>
         && t.attackerRegret[r] == LedgerRegret(m, Attacker, rounds[..r + 1])
         && t.defenderRegret[r] == LedgerRegret(m, Defender, rounds[..r + 1])
  }

  // The running totals kept beside the players.
  datatype Books = Books(
    atkTotal: int,
    defTotal: int,
    spent: int,
    bestAtk: seq<int>,
    bestDef: seq<int>,
    trajectory: Option<TrajectoryLedger>)

  predicate BooksOf(b: Books, m: PayoffMatrix, rounds: seq<RoundOutcome>)
    requires m.attackers != [] && m.defenders != []
  {
    && b.atkTotal == SatTotal(Attacker, rounds) && b.defTotal == SatTotal(Defender, rounds) && b.spent == Spent(rounds)
    && b.bestAtk == AllSatFixed(m, Attacker, rounds) && b.bestDef == AllSatFixed(m, Defender, rounds)
    && (b.trajectory.Some? ==> LedgerOf(b.trajectory.value, m, rounds))
  }

  // ----- keeping the books -----

  method AddFixed(m: PayoffMatrix, role: PlayerRole, best: seq<int>, x: RoundOutcome, ghost rounds: seq<RoundOutcome>)
    returns (best': seq<int>)
    requires best == AllSatFixed(m, role, rounds)
    ensures best' == AllSatFixed(m, role, rounds + [x])
  {
    var ss := Strategies(m, role);
    best' := best;
    var i := 0;
    while i < |ss|
      invariant 0 <= i <= |ss| == |best'|
      invariant forall k :: 0 <= k < i ==> best'[k] == SatFixed(m, role, ss[k], rounds + [x])
      invariant forall k :: i <= k < |ss| ==> best'[k] == best[k]
    {
      var e: Option<PayoffEntry>;
      if role == Attacker {
        e := FindPayoff(m, ss[i], x.defender);
      } else {
        e := FindPayoff(m, x.attacker, ss[i]);
      }
      FixedPush(m, role, ss[i], rounds, x);
      if e.Some? {
        best' := best'[i := SatAddI64(best'[i], PayoffTo(role, e.value))];
      }
      i := i + 1;
    }
  }

  lemma FixedPush(m: PayoffMatrix, role: PlayerRole, s: StrategyId, rounds: seq<RoundOutcome>, x: RoundOutcome)
    ensures SatFixed(m, role, s, rounds + [x]) == SatAddI64(SatFixed(m, role, s, rounds), Pay(m, role, s, Opponent(role, x)))
    ensures SatAddI64(SatFixed(m, role, s, rounds), 0) == SatFixed(m, role, s, rounds)
  {
    AlternativesAppend(m, role, s, rounds, x);
    SatSumPush(Alternatives(m, role, s, rounds), Pay(m, role, s, Opponent(role, x)));
    SatSumInRange(Alternatives(m, role, s, rounds));
  }

  lemma TotalPush(role: PlayerRole, rounds: seq<RoundOutcome>, x: RoundOutcome)
    ensures SatTotal(role, rounds + [x]) == SatAddI64(SatTotal(role, rounds), Earned(role, x))
  {
    EarningsAppend(role, rounds, x);
    SatSumPush(Earnings(role, rounds), Earned(role, x));
  }

  lemma LedgerGrows(t: TrajectoryLedger, m: PayoffMatrix, rounds: seq<RoundOutcome>, x: RoundOutcome)
    requires m.attackers != [] && m.defenders != [] && LedgerOf(t, m, rounds)
    ensures LedgerOf(TrajectoryLedger(t.rounds + [x],
                                      t.attackerRegret + [LedgerRegret(m, Attacker, rounds + [x])],
                                      t.defenderRegret + [LedgerRegret(m, Defender, rounds + [x])]), m, rounds + [x])
  {
    var longer := rounds + [x];
    forall r | 0 <= r < |longer|
      ensures LedgerRegret(m, Attacker, longer[..r + 1]) == (t.attackerRegret + [LedgerRegret(m, Attacker, longer)])[r]
      ensures LedgerRegret(m, Defender, longer[..r + 1]) == (t.defenderRegret + [LedgerRegret(m, Defender, longer)])[r]
    {
      assert longer[..r + 1] == if r < |rounds| then rounds[..r + 1] else longer;
    }
  }

  method Extend(trajectory: Option<TrajectoryLedger>, m: PayoffMatrix, x: RoundOutcome, ghost rounds: seq<RoundOutcome>,
                atkTotal: int, defTotal: int, bestAtk: seq<int>, bestDef: seq<int>)
    returns (r: Option<TrajectoryLedger>)
    requires m.attackers != [] && m.defenders != []
    requires atkTotal == SatTotal(Attacker, rounds + [x]) && bestAtk == AllSatFixed(m, Attacker, rounds + [x])
    requires defTotal == SatTotal(Defender, rounds + [x]) && bestDef == AllSatFixed(m, Defender, rounds + [x])
    requires trajectory.Some? ==> LedgerOf(trajectory.value, m, rounds)
    ensures r.Some? <==> trajectory.Some?
    ensures r.Some? ==> LedgerOf(r.value, m, rounds + [x])
  {
    if trajectory.None? {
      return None;
    }
    var t := trajectory.value;
    var atkRegret := NewEntry(m, Attacker, bestAtk, atkTotal, rounds + [x]);
    var defRegret := NewEntry(m, Defender, bestDef, defTotal, rounds + [x]);
    r := Some(TrajectoryLedger(t.rounds + [x], t.attackerRegret + [atkRegret], t.defenderRegret + [defRegret]));
    LedgerGrows(t, m, rounds, x);
  }

  method NewEntry(ghost m: PayoffMatrix, ghost role: PlayerRole, best: seq<int>, total: int, ghost rounds: seq<RoundOutcome>)
    returns (regret: int)
    requires Strategies(m, role) != [] && best == AllSatFixed(m, role, rounds) && total == SatTotal(role, rounds)
    ensures regret == LedgerRegret(m, role, rounds)
  {
    regret := Max(WrapI64(Largest(best) - total), 0);
  }

  method Record(b: Books, m: PayoffMatrix, x: RoundOutcome, ghost rounds: seq<RoundOutcome>) returns (b': Books)
    requires m.attackers != [] && m.defenders != [] && BooksOf(b, m, rounds)
    ensures BooksOf(b', m, rounds + [x]) && (b'.trajectory.Some? <==> b.trajectory.Some?)
  {
    TotalPush(Attacker, rounds, x);
    TotalPush(Defender, rounds, x);
    SpentPush(rounds, x);
    var atkTotal := SatAddI64(b.atkTotal, x.attackerPayoff);
    var defTotal := SatAddI64(b.defTotal, x.defenderPayoff);
    var spent := SatAddI64(b.spent, WrapI64(Abs(x.attackerPayoff)));
    var bestAtk := AddFixed(m, Attacker, b.bestAtk, x, rounds);
    var bestDef := AddFixed(m, Defender, b.bestDef, x, rounds);
    var trajectory := Extend(b.trajectory, m, x, rounds, atkTotal, defTotal, bestAtk, bestDef);
    b' := Books(atkTotal, defTotal, spent, bestAtk, bestDef, trajectory);
  }

  // ----- when the books are exact -----

  // The player's earnings and those of all its alternatives never leave 64 bits on the way.
  predicate TotalsFit(m: PayoffMatrix, role: PlayerRole, rounds: seq<RoundOutcome>) {
    && NeverLeaves(Earnings(role, rounds))
    && forall s :: s in Strategies(m, role) ==> NeverLeaves(Alternatives(m, role, s, rounds))
  }

  lemma WholeIsExact(xs: seq<int>)
    requires NeverLeaves(xs)
    ensures SatSum(xs) == Sum(xs)
  {
    ExactInRange(xs, |xs|);
    assert xs[..|xs|] == xs;
  }

  lemma FittingTotalsAreExact(m: PayoffMatrix, role: PlayerRole, rounds: seq<RoundOutcome>)
    requires Strategies(m, role) != [] && TotalsFit(m, role, rounds)
    ensures SatTotal(role, rounds) == Total(role, rounds) && AllSatFixed(m, role, rounds) == AllFixed(m, role, rounds)
    ensures Gap(m, role, rounds) == Hindsight(m, role, rounds) && -TWO_64 < Hindsight(m, role, rounds) < TWO_64
  {
    WholeIsExact(Earnings(role, rounds));
    SatSumInRange(Earnings(role, rounds));
    var ss := Strategies(m, role);
    forall i | 0 <= i < |ss| ensures SatFixed(m, role, ss[i], rounds) == Fixed(m, role, ss[i], rounds)
                                  && InI64(SatFixed(m, role, ss[i], rounds))
    {
      assert ss[i] in ss;
      WholeIsExact(Alternatives(m, role, ss[i], rounds));
      SatSumInRange(Alternatives(m, role, ss[i], rounds));
    }
    assert AllSatFixed(m, role, rounds) == AllFixed(m, role, rounds);
  }

  const TWO_64: int := 0x1_0000_0000_0000_0000

  lemma FlooredWrapIff(x: int)
    requires -TWO_64 < x < TWO_64
    ensures Max(WrapI64(x), 0) == Max(x, 0) <==> InI64(x)
  {
  }

  /** While the totals fit, a ledger entry is the player's regret if and only if the difference of the totals fits too. */
  lemma EntryIsRegretIff(m: PayoffMatrix, role: PlayerRole, rounds: seq<RoundOutcome>)
    requires Strategies(m, role) != [] && TotalsFit(m, role, rounds)
    ensures LedgerRegret(m, role, rounds) == Regret(m, role, rounds) <==> InI64(Hindsight(m, role, rounds))
    ensures InI64(Hindsight(m, role, rounds)) ==> FinalRegret(m, role, rounds) == Hindsight(m, role, rounds)
  {
    FittingTotalsAreExact(m, role, rounds);
    FlooredWrapIff(Hindsight(m, role, rounds));
  }

  // Over so many rounds, sums of payoffs and differences of two such sums fit 64 bits.
  predicate Summable(m: PayoffMatrix, rounds: nat) {
    2 * (rounds * Peak(m.entries)) <= I64_MAX
  }

  lemma BoundedNeverLeaves(xs: seq<int>, p: int, limit: int)
    requires 0 <= p && |xs| <= limit && 2 * (limit * p) <= I64_MAX && forall i :: 0 <= i < |xs| ==> Within(xs[i], p)
    ensures NeverLeaves(xs)
  {
    forall k | 0 <= k <= |xs| ensures InI64(PrefixSum(xs, k)) {
      SumIsWithin(xs[..k], p);
      MulMonotone(k, limit, p);
    }
  }

  lemma SummableFits(m: PayoffMatrix, role: PlayerRole, rounds: seq<RoundOutcome>, limit: nat)
    requires Recorded(m, rounds) && |rounds| <= limit && Summable(m, limit)
    ensures TotalsFit(m, role, rounds)
  {
    forall r | 0 <= r < |rounds| ensures Within(Earnings(role, rounds)[r], Peak(m.entries)) {
      assert Truthful(m, rounds[r]);
      PayIsBounded(m, role, Own(role, rounds[r]), Opponent(role, rounds[r]));
    }
    BoundedNeverLeaves(Earnings(role, rounds), Peak(m.entries), limit);
    forall s | s in Strategies(m, role) ensures NeverLeaves(Alternatives(m, role, s, rounds)) {
      forall r | 0 <= r < |rounds| ensures Within(Alternatives(m, role, s, rounds)[r], Peak(m.entries)) {
        PayIsBounded(m, role, s, Opponent(role, rounds[r]));
      }
      BoundedNeverLeaves(Alternatives(m, role, s, rounds), Peak(m.entries), limit);
    }
  }

  lemma DifferenceFits(x: int, y: int, k: int, limit: int, p: int)
    requires 0 <= k <= limit && 0 <= p && Within(x, k * p) && Within(y, k * p) && 2 * (limit * p) <= I64_MAX
    ensures InI64(x - y)
  {
    MulMonotone(k, limit, p);
  }

  lemma HindsightFits(m: PayoffMatrix, role: PlayerRole, rounds: seq<RoundOutcome>, limit: nat)
    requires Strategies(m, role) != [] && Recorded(m, rounds) && |rounds| <= limit && Summable(m, limit)
    ensures InI64(Hindsight(m, role, rounds))
  {
    var all := AllFixed(m, role, rounds);
    var i :| 0 <= i < |all| && all[i] == Largest(all);
    TotalsAreBounded(m, role, Strategies(m, role)[i], rounds);
    DifferenceFits(all[i], Total(role, rounds), |rounds|, limit, Peak(m.entries));
  }

  /** Payoffs whose sums fit leave exact books: totals, final regrets and ledger entries are what they are defined to be. */
  lemma BooksAreExact(m: PayoffMatrix, role: PlayerRole, rounds: seq<RoundOutcome>, limit: nat)
    requires Strategies(m, role) != [] && Recorded(m, rounds) && |rounds| <= limit && Summable(m, limit)
    ensures SatTotal(role, rounds) == Total(role, rounds)
    ensures LedgerRegret(m, role, rounds) == Regret(m, role, rounds) && FinalRegret(m, role, rounds) == Hindsight(m, role, rounds)
  {
    SummableFits(m, role, rounds, limit);
    HindsightFits(m, role, rounds, limit);
    FittingTotalsAreExact(m, role, rounds);
    EntryIsRegretIff(m, role, rounds);
  }

  /** The entries are the regrets of the rounds up to them. */
  predicate ExactLedger(t: TrajectoryLedger, m: PayoffMatrix, rounds: seq<RoundOutcome>)
    requires m.attackers != [] && m.defenders != []
  {
    && t.rounds == rounds && |t.attackerRegret| == |t.defenderRegret| == |rounds|
    && forall r :: 0 <= r < |rounds| ==>
         && t.attackerRegret[r] == Regret(m, Attacker, rounds[..r + 1])
         && t.defenderRegret[r] == Regret(m, Defender, rounds[..r + 1])
  }

  lemma LedgerIsExact(t: TrajectoryLedger, m: PayoffMatrix, rounds: seq<RoundOutcome>, limit: nat)
    requires m.attackers != [] && m.defenders != [] && LedgerOf(t, m, rounds)
    requires Recorded(m, rounds) && |rounds| <= limit && Summable(m, limit)
    ensures ExactLedger(t, m, rounds)
  {
    forall r | 0 <= r < |rounds|
      ensures t.attackerRegret[r] == Regret(m, Attacker, rounds[..r + 1]) && t.defenderRegret[r] == Regret(m, Defender, rounds[..r + 1])
    {
      RecordedPrefix(m, rounds, r + 1);
      BooksAreExact(m, Attacker, rounds[..r + 1], limit);
      BooksAreExact(m, Defender, rounds[..r + 1], limit);
    }
  }

  lemma RecordedPrefix(m: PayoffMatrix, rounds: seq<RoundOutcome>, k: nat)
    requires k <= |rounds| && Recorded(m, rounds)
    ensures Recorded(m, rounds[..k])
  {
  }

  /** Consecutive entries of an exact ledger differ by at most the spread of the player's payoffs. */
  lemma LedgerMovesBySpread(t: TrajectoryLedger, m: PayoffMatrix, rounds: seq<RoundOutcome>, r: nat, lo: int, hi: int)
    requires m.attackers != [] && m.defenders != [] && ExactLedger(t, m, rounds) && Recorded(m, rounds) && r + 1 < |rounds|
    ensures PaysWithin(m, Attacker, lo, hi) ==> -(hi - lo) <= t.attackerRegret[r + 1] - t.attackerRegret[r] <= hi - lo
    ensures PaysWithin(m, Defender, lo, hi) ==> -(hi - lo) <= t.defenderRegret[r + 1] - t.defenderRegret[r] <= hi - lo
  {
    if PaysWithin(m, Attacker, lo, hi) {
      NextRegret(m, Attacker, rounds, r, lo, hi);
    }
    if PaysWithin(m, Defender, lo, hi) {
      NextRegret(m, Defender, rounds, r, lo, hi);
    }
  }

  // ----- books that are not exact -----

  function ExtremeGame(): PayoffMatrix {
    PayoffMatrix(["a", "b"], ["d"], [PayoffEntry("a", "d", -I64_MAX, 0), PayoffEntry("b", "d", I64_MAX, 0)])
  }

  lemma ExtremePayoffs()
    ensures Pay(ExtremeGame(), Attacker, "a", "d") == -I64_MAX && Pay(ExtremeGame(), Attacker, "b", "d") == I64_MAX
    ensures Pay(ExtremeGame(), Defender, "d", "a") == 0 && Pay(ExtremeGame(), Defender, "d", "b") == 0
  {
    var es := ExtremeGame().entries;
    assert es[..1][..0] == [] && es[..1] == [es[0]];
    assert "a"[0] != "b"[0];
    assert Lookup(es[..1], "a", "d") == Some(es[0]) && Lookup(es[..1], "b", "d") == None;
  }

  /** One round is enough to overflow the subtraction: the attacker's regret is nearly 2^64, and the ledger records none. */
  lemma RegretCanOverflow()
    ensures var rounds := [RoundOutcome(0, "a", "d", -I64_MAX, 0)];
            && Recorded(ExtremeGame(), rounds) && !InI64(Hindsight(ExtremeGame(), Attacker, rounds))
            && Regret(ExtremeGame(), Attacker, rounds) == 2 * I64_MAX && LedgerRegret(ExtremeGame(), Attacker, rounds) == 0
  {
    var m, rounds := ExtremeGame(), [RoundOutcome(0, "a", "d", -I64_MAX, 0)];
    ExtremePayoffs();
    assert m.attackers[0] == "a" && m.defenders[0] == "d";
    SingleRound(m, Attacker, "a", rounds[0]);
    SingleRound(m, Attacker, "b", rounds[0]);
    assert AllFixed(m, Attacker, rounds) == [-I64_MAX, I64_MAX] == AllSatFixed(m, Attacker, rounds);
    assert Largest([-I64_MAX, I64_MAX]) == I64_MAX;
  }

  lemma SingleRound(m: PayoffMatrix, role: PlayerRole, s: StrategyId, x: RoundOutcome)
    requires InI64(Earned(role, x)) && InI64(Pay(m, role, s, Opponent(role, x)))
    ensures Total(role, [x]) == SatTotal(role, [x]) == Earned(role, x)
    ensures Fixed(m, role, s, [x]) == SatFixed(m, role, s, [x]) == Pay(m, role, s, Opponent(role, x))
  {
    assert Earnings(role, [x]) == [Earned(role, x)] && Alternatives(m, role, s, [x]) == [Pay(m, role, s, Opponent(role, x))];
    SingleSum(Earned(role, x));
    SingleSum(Pay(m, role, s, Opponent(role, x)));
  }

  lemma SingleSum(x: int)
    requires InI64(x)
    ensures Sum([x]) == x == SatSum([x])
  {
    assert [x][..0] == [];
  }

  /** Two rounds are enough to saturate a total. */
  lemma TotalCanSaturate(x: RoundOutcome)
    requires x.attackerPayoff == I64_MAX
    ensures SatTotal(Attacker, [x, x]) == I64_MAX && Total(Attacker, [x, x]) == 2 * I64_MAX
  {
    assert [x, x] == [x] + [x];
    TotalPush(Attacker, [x], x);
    AppendRound(ExtremeGame(), Attacker, "a", [x], x);
    assert Earnings(Attacker, [x]) == [I64_MAX];
    SingleSum(I64_MAX);
  }

  // ----- the budget -----

  function Costs(rounds: seq<RoundOutcome>): (xs: seq<int>)
    ensures |xs| == |rounds| && forall r :: 0 <= r < |xs| ==> xs[r] == Abs(rounds[r].attackerPayoff)
  {
    seq(|rounds|, r requires 0 <= r < |rounds| => Abs(rounds[r].attackerPayoff))
  }

  /** While payoffs and their sums fit, the budget is spent on the magnitudes of the attacker's payoffs. */
  lemma {:induction false} SpentIsTheMagnitudes(rounds: seq<RoundOutcome>)
    requires NeverLeaves(Costs(rounds))
    ensures Spent(rounds) == Sum(Costs(rounds))
  {
    if rounds != [] {
      var n := |rounds| - 1;
      var costs := Costs(rounds);
      assert Costs(rounds[..n]) == costs[..n];
      FrontNeverLeaves(costs);
      SpentIsTheMagnitudes(rounds[..n]);
      FitsAlone(costs);
      WrapIdentity(costs[n]);
      assert costs[..n + 1] == costs && InI64(PrefixSum(costs, n + 1));
    }
  }

  lemma FrontNeverLeaves(xs: seq<int>)
    requires xs != [] && NeverLeaves(xs)
    ensures NeverLeaves(xs[..|xs| - 1])
  {
    var front := xs[..|xs| - 1];
    forall k | 0 <= k <= |front| ensures InI64(PrefixSum(front, k)) {
      assert front[..k] == xs[..k];
      assert InI64(PrefixSum(xs, k));
    }
  }

  // The last of some non-negative numbers whose sums fit, fits.
  lemma FitsAlone(xs: seq<int>)
    requires xs != [] && NeverLeaves(xs) && forall i :: 0 <= i < |xs| ==> xs[i] >= 0
    ensures InI64(xs[|xs| - 1])
  {
    var n := |xs| - 1;
    SumIsNonNegative(xs[..n]);
    assert xs[..n + 1] == xs && InI64(PrefixSum(xs, n + 1));
  }
}
