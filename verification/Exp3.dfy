/** The EXP3 bandit of one player, in fixed-point millionths. */
module Exp3 {
  import opened Machine
  import opened Arithmetic
  import opened Sequences

  const MILLION: int := 1_000_000
  const DEFAULT_GAMMA: int := 100_000
  const MIN_WEIGHT_FLOOR: int := 100
  const WEIGHT_CAP: int := 100_000_000
  const MAX_STRATEGIES: nat := 64
  // the largest payoff for which no update overflows 64 bits, whatever the probability
  const PAYOFF_LIMIT: int := 92_233_720

  predicate Weights(w: seq<int>) {
    && 0 < |w| <= MAX_STRATEGIES
    && forall i :: 0 <= i < |w| ==> MIN_WEIGHT_FLOOR <= w[i] <= WEIGHT_CAP
  }

  // ----- sums -----

  lemma {:induction false} SumUpdate(s: seq<int>, k: nat, x: int)
    requires k < |s|
    ensures Sum(s[k := x]) == Sum(s) - s[k] + x
  {
    var n := |s| - 1;
    if k == n {
      assert s[k := x][..n] == s[..n];
    } else {
      assert s[k := x][..n] == s[..n][k := x];
      SumUpdate(s[..n], k, x);
    }
  }

  // ----- mixed strategies -----

  // (1 - gamma) * w / total + gamma / n, floored
  function RawProbability(w: int, total: int, gamma: int, n: int): int
    requires total > 0 && n > 0
  {
    Max((MILLION - gamma) * w / total + gamma / n, MIN_WEIGHT_FLOOR)
  }

  function RawProbabilities(w: seq<int>, gamma: int): (p: seq<int>)
    requires Weights(w) && Sum(w) > 0
    ensures |p| == |w| && forall i :: 0 <= i < |p| ==> p[i] == RawProbability(w[i], Sum(w), gamma, |w|)
  {
    seq(|w|, i requires 0 <= i < |w| => RawProbability(w[i], Sum(w), gamma, |w|))
  }

  // The first arm absorbs the rounding error, down to zero.
  function Corrected(raw: seq<int>): seq<int>
    requires raw != []
  {
    raw[0 := Max(raw[0] + (MILLION - Sum(raw)), 0)]
  }

  lemma TotalIsPositive(w: seq<int>)
    requires Weights(w)
    ensures 0 < Sum(w) <= MAX_STRATEGIES * WEIGHT_CAP
  {
    SumBounds(w, MIN_WEIGHT_FLOOR, WEIGHT_CAP);
  }

  function Distribution(w: seq<int>, gamma: int): (p: seq<int>)
    requires Weights(w)
    ensures |p| == |w|
  {
    TotalIsPositive(w);
    Corrected(RawProbabilities(w, Clamp(gamma, 0, MILLION)))
  }

  lemma QuotientOfProduct(c: int, w: int, total: int)
    requires 0 <= c && 0 <= w && 0 < total
    ensures 0 <= (c * w) / total && ((c * w) / total) * total <= c * w
  {
    MulMonotone(0, c, w);
    QuotientNonNegative(c * w, total);
    DivMod(c * w, total);
  }

  /** The probabilities always cover the whole unit interval; they exceed it exactly when flooring the other arms has
      already used more than one. */
  lemma DistributionCovers(w: seq<int>, gamma: int)
    requires Weights(w)
    ensures Sum(w) > 0
    ensures var raw := RawProbabilities(w, Clamp(gamma, 0, MILLION));
            var p := Distribution(w, gamma);
            && Sum(p) >= MILLION
            && (Sum(p) == MILLION <==> Sum(raw) - raw[0] <= MILLION)
            && forall i :: 0 <= i < |p| ==> p[i] >= if i == 0 then 0 else MIN_WEIGHT_FLOOR
  {
    TotalIsPositive(w);
    var raw := RawProbabilities(w, Clamp(gamma, 0, MILLION));
    SumUpdate(raw, 0, Max(raw[0] + (MILLION - Sum(raw)), 0));
  }

  lemma PrefixArithmetic(total: int, e: int, x: int, s: int, c: int, v: int, w: int, k: int)
    requires e * total <= c * w && s * total <= c * v + (k * x) * total
    ensures (s + (e + x)) * total <= c * (v + w) + ((k + 1) * x) * total
  {
    assert (s + (e + x)) * total == s * total + e * total + x * total;
    assert ((k + 1) * x) * total == (k * x) * total + x * total;
    assert c * (v + w) == c * v + c * w;
  }

  lemma Unfloored(w: int, total: int, gamma: int, n: int)
    requires 0 <= w && 0 < total && 0 < n && 0 <= gamma <= MILLION && gamma / n >= MIN_WEIGHT_FLOOR
    ensures (RawProbability(w, total, gamma, n) - gamma / n) * total <= (MILLION - gamma) * w
  {
    QuotientOfProduct(MILLION - gamma, w, total);
  }

  lemma {:induction false} PrefixBound(raw: seq<int>, w: seq<int>, total: int, c: int, x: int, k: nat)
    requires |raw| == |w| && k <= |w|
    requires forall i :: 0 <= i < |w| ==> (raw[i] - x) * total <= c * w[i]
    ensures Sum(raw[..k]) * total <= c * Sum(w[..k]) + (k * x) * total
  {
    if k > 0 {
      PrefixBound(raw, w, total, c, x, k - 1);
      SumAppend(raw, k - 1);
      SumAppend(w, k - 1);
      PrefixArithmetic(total, raw[k - 1] - x, x, Sum(raw[..k - 1]), c, Sum(w[..k - 1]), w[k - 1], k - 1);
    }
  }

  /** With enough exploration per arm no arm is floored and the probabilities sum to exactly one. */
  lemma DistributionExact(w: seq<int>, gamma: int)
    requires Weights(w) && Clamp(gamma, 0, MILLION) / |w| >= MIN_WEIGHT_FLOOR
    ensures Sum(Distribution(w, gamma)) == MILLION
    ensures forall i :: 0 <= i < |w| ==> Distribution(w, gamma)[i] >= MIN_WEIGHT_FLOOR
  {
    TotalIsPositive(w);
    UnflooredSum(w, Clamp(gamma, 0, MILLION));
    var raw := RawProbabilities(w, Clamp(gamma, 0, MILLION));
    SumUpdate(raw, 0, Max(raw[0] + (MILLION - Sum(raw)), 0));
  }

  lemma UnflooredSum(w: seq<int>, gamma: int)
    requires Weights(w) && Sum(w) > 0 && 0 <= gamma <= MILLION && gamma / |w| >= MIN_WEIGHT_FLOOR
    ensures Sum(RawProbabilities(w, gamma)) <= MILLION
  {
    var raw := RawProbabilities(w, gamma);
    var x := gamma / |w|;
    forall i | 0 <= i < |w| ensures (raw[i] - x) * Sum(w) <= (MILLION - gamma) * w[i] {
      Unfloored(w[i], Sum(w), gamma, |w|);
    }
    PrefixBound(raw, w, Sum(w), MILLION - gamma, x, |w|);
    assert raw[..|w|] == raw && w[..|w|] == w;
    DivMod(gamma, |w|);
    UnitArithmetic(Sum(raw), Sum(w), gamma, |w| * (gamma / |w|));
  }

  lemma UnitArithmetic(s: int, total: int, gamma: int, explored: int)
    requires 0 < total && explored <= gamma && s * total <= (MILLION - gamma) * total + explored * total
    ensures s <= MILLION
  {
    MulMonotone(explored, gamma, total);
    assert (MILLION - gamma) * total + gamma * total == MILLION * total;
    assert (MILLION + 1) * total == MILLION * total + total;
    CancelFactor(s, MILLION, total);
  }

  /** With enough exploration every arm but the first gets its share of the exploration, gamma / n, and of the rest a part in
      proportion to its weight, rounded down. */
  lemma EveryArmExplores(w: seq<int>, gamma: int, i: nat)
    requires Weights(w) && 0 <= gamma <= MILLION && gamma / |w| >= MIN_WEIGHT_FLOOR && 0 < i < |w|
    ensures var x := Distribution(w, gamma)[i] - gamma / |w|;
            0 <= x && x * Sum(w) <= (MILLION - gamma) * w[i] < (x + 1) * Sum(w)
  {
    TotalIsPositive(w);
    QuotientOfProduct(MILLION - gamma, w[i], Sum(w));
    DivMod((MILLION - gamma) * w[i], Sum(w));
  }

  lemma {:induction false} SumOfEqual(w: seq<int>, x: int)
    requires forall i :: 0 <= i < |w| ==> w[i] == x
    ensures Sum(w) == |w| * x
  {
    SumBounds(w, x, x);
  }

  /** Two arms of equal weight are equally likely. */
  lemma EqualArmsAreEquallyLikely(x: int)
    requires MIN_WEIGHT_FLOOR <= x <= WEIGHT_CAP
    ensures Distribution([x, x], DEFAULT_GAMMA) == [500_000, 500_000]
  {
    var w := [x, x];
    SumOfEqual(w, x);
    TotalIsPositive(w);
    assert (MILLION - DEFAULT_GAMMA) * x == 450_000 * (2 * x);
    QuotientIs((MILLION - DEFAULT_GAMMA) * x, 2 * x, 450_000);
    var raw := RawProbabilities(w, DEFAULT_GAMMA);
    assert raw == [500_000, 500_000];
    SumOfEqual(raw, 500_000);
  }

  // ----- multiplicative updates -----

  function Estimated(reward: int, prob: int): int
    requires prob > 0
  {
    TruncDiv(WrapI64(reward * MILLION), prob)
  }

  function UpdateFactor(reward: int, prob: int, n: int): int
    requires prob > 0 && n > 0
  {
    MILLION + TruncDiv(WrapI64(DEFAULT_GAMMA * Estimated(reward, prob)), n * MILLION)
  }

  function NewWeight(w: int, reward: int, prob: int, n: int): int
    requires prob > 0 && n > 0
  {
    Clamp(TruncDiv(w * UpdateFactor(reward, prob, n), MILLION), MIN_WEIGHT_FLOOR, WEIGHT_CAP)
  }

  lemma ProductRange(c: int, w: int, total: int)
    requires 0 <= c <= MILLION && 0 <= w <= WEIGHT_CAP && 0 < total
    ensures 0 <= c * w <= MILLION * WEIGHT_CAP && InI64(c * w)
  {
    MulMonotone(0, c, w);
    MulMonotone(c, MILLION, w);
    MulMonotone(w, WEIGHT_CAP, MILLION);
  }

  const RAW_LIMIT: int := 2 * MILLION * WEIGHT_CAP

  lemma RawRange(w: seq<int>, gamma: int)
    requires Weights(w) && Sum(w) > 0 && 0 <= gamma <= MILLION
    ensures forall i :: 0 <= i < |w| ==> MIN_WEIGHT_FLOOR <= RawProbabilities(w, gamma)[i] <= RAW_LIMIT
    ensures Sum(RawProbabilities(w, gamma)) > 0
  {
    var raw := RawProbabilities(w, gamma);
    forall i | 0 <= i < |w| ensures MIN_WEIGHT_FLOOR <= raw[i] <= RAW_LIMIT {
      ProductRange(MILLION - gamma, w[i], Sum(w));
      QuotientNonNegative((MILLION - gamma) * w[i], Sum(w));
      QuotientNonNegative(gamma, |w|);
    }
    SumBounds(raw, MIN_WEIGHT_FLOOR, RAW_LIMIT);
  }

  lemma TruncBounds(a: int, b: int, m: int)
    requires b > 0 && -m <= a <= m
    ensures -m <= TruncDiv(a, b) <= m
    ensures (a >= 0 ==> TruncDiv(a, b) >= 0) && (a <= 0 ==> TruncDiv(a, b) <= 0)
  {
    if a >= 0 {
      QuotientNonNegative(a, b);
    } else {
      QuotientNonNegative(-a, b);
    }
  }

  // Neither product of an update leaves 64 bits.
  predicate NoOverflow(reward: int, prob: int)
    requires prob > 0
  {
    InI64(reward * MILLION) && InI64(DEFAULT_GAMMA * TruncDiv(reward * MILLION, prob))
  }

  lemma WithinLimit(reward: int, prob: int)
    requires prob > 0 && -PAYOFF_LIMIT <= reward <= PAYOFF_LIMIT
    ensures NoOverflow(reward, prob)
  {
    TruncBounds(reward * MILLION, prob, PAYOFF_LIMIT * MILLION);
  }

  /** The payoff limit is exact: up to it no probability makes an update overflow, beyond it some probability does. */
  lemma OverflowFreeIff(reward: int)
    ensures (forall prob | prob > 0 :: NoOverflow(reward, prob)) <==> -PAYOFF_LIMIT <= reward <= PAYOFF_LIMIT
  {
    if -PAYOFF_LIMIT <= reward <= PAYOFF_LIMIT {
      forall prob | prob > 0 ensures NoOverflow(reward, prob) {
        WithinLimit(reward, prob);
      }
    } else {
      assert TruncDiv(reward * MILLION, 1) == reward * MILLION;
      assert !NoOverflow(reward, 1);
    }
  }

  /** Without overflow an update scales the weight by 1 + gamma * (reward / prob) / n, in truncated millionths. */
  lemma UpdateIsExact(reward: int, prob: int, n: int)
    requires prob > 0 && n > 0 && NoOverflow(reward, prob)
    ensures Estimated(reward, prob) == TruncDiv(reward * MILLION, prob)
    ensures UpdateFactor(reward, prob, n) == MILLION + TruncDiv(DEFAULT_GAMMA * TruncDiv(reward * MILLION, prob), n * MILLION)
  {
    WrapIdentity(reward * MILLION);
    WrapIdentity(DEFAULT_GAMMA * TruncDiv(reward * MILLION, prob));
  }

  lemma StepSign(reward: int, prob: int, n: int)
    requires prob > 0 && n > 0
    ensures var step := TruncDiv(DEFAULT_GAMMA * TruncDiv(reward * MILLION, prob), n * MILLION);
            (reward >= 0 ==> step >= 0) && (reward <= 0 ==> step <= 0)
  {
    var a := reward * MILLION;
    TruncBounds(a, prob, if a >= 0 then a else -a);
    var b := DEFAULT_GAMMA * TruncDiv(a, prob);
    TruncBounds(b, n * MILLION, if b >= 0 then b else -b);
  }

  lemma ScaledWeight(w: int, step: int)
    requires w >= 0
    ensures step >= 0 ==> TruncDiv(w * (MILLION + step), MILLION) >= w
    ensures step <= 0 ==> TruncDiv(w * (MILLION + step), MILLION) <= w
  {
    assert w * (MILLION + step) == w * MILLION + w * step;
    if step >= 0 {
      MulMonotone(0, step, w);
    } else {
      MulMonotone(step, 0, w);
    }
  }

  /** A gain never lowers the weight of the arm that made it, a loss never raises it. */
  lemma WeightFollowsReward(w: int, reward: int, prob: int, n: int)
    requires MIN_WEIGHT_FLOOR <= w <= WEIGHT_CAP && prob > 0 && n > 0 && NoOverflow(reward, prob)
    ensures reward >= 0 ==> NewWeight(w, reward, prob, n) >= w
    ensures reward <= 0 ==> NewWeight(w, reward, prob, n) <= w
  {
    UpdateIsExact(reward, prob, n);
    StepSign(reward, prob, n);
    ScaledWeight(w, UpdateFactor(reward, prob, n) - MILLION);
  }

  /** A payoff of one, drawn with even odds among two arms, raises a weight by a tenth; weights stop at 100 and 100_000_000. */
  lemma LessonsByExample()
    ensures NewWeight(1_000_000, 1_000_000, 500_000, 2) == 1_100_000
    ensures NewWeight(100_000_000, 1_000_000, 500_000, 2) == 100_000_000
    ensures NewWeight(100, 0 - 1_000_000, 500_000, 2) == 100
  {
  }

  /** A lesson touches one arm: its estimated reward is added to its account, saturating, and its draw is counted. */
  lemma LessonsAreAccounted(l: Learner, arm: nat, reward: int, prob: int, k: nat)
    requires Sound(l) && arm < |l.weights| && prob > 0 && k < |l.weights| && NoOverflow(reward, prob)
    ensures var l' := Taught(l, arm, reward, prob);
            var earned := if k == arm then TruncDiv(reward * 1_000_000, prob) else 0;
            && (k != arm ==> l'.weights[k] == l.weights[k] && l'.rewards[k] == l.rewards[k])
            && (InI64(l.rewards[k] + earned) ==> l'.rewards[k] == l.rewards[k] + earned)
            && l'.counts[k] == l.counts[k] + if k == arm then 1 else 0
  {
    UpdateIsExact(reward, prob, |l.weights|);
  }

  // The last sum of an update never overflows.
  lemma FactorInRange(x: int, n: int)
    requires InI64(x) && 0 < n <= MAX_STRATEGIES
    ensures InI64(n * MILLION) && InI64(MILLION + TruncDiv(x, n * MILLION))
  {
    QuotientNonNegative(if x >= 0 then x else -x, n * MILLION);
    LargeDivisor(if x >= 0 then x else -x, n * MILLION);
  }

  lemma LargeDivisor(a: int, b: int)
    requires 0 <= a <= -I64_MIN && b >= MILLION
    ensures a / b <= -I64_MIN / 2
  {
    DivMod(a, b);
    if a / b > -I64_MIN / 2 {
      MulMonotone(MILLION, b, a / b);
      assert false;
    }
  }

  /** The first arm can be drawn if and only if the raw probabilities of the others leave it something of the million. */
  lemma FirstArmDrawableIff(w: seq<int>, gamma: int)
    requires Weights(w)
    ensures Sum(w) > 0
    ensures var raw := RawProbabilities(w, Clamp(gamma, 0, MILLION));
            Distribution(w, gamma)[0] > 0 <==> Sum(raw) - raw[0] < MILLION
  {
    TotalIsPositive(w);
  }

  lemma RawOfThree(a: int, b: int, c: int, total: int, x: int, y: int, z: int)
    requires Weights([a, b, c]) && total == a + b + c && total > 0
    requires x == RawProbability(a, total, 1, 3) && y == RawProbability(b, total, 1, 3) && z == RawProbability(c, total, 1, 3)
    ensures Distribution([a, b, c], 1) == [Max(MILLION - y - z, 0), y, z]
  {
    SumOfThree(a, b, c);
    SumOfThree(x, y, z);
    assert Sum([a, b, c]) == total;
    assert RawProbabilities([a, b, c], 1) == [x, y, z];
  }

  // Three players' lessons from equal weights, each with the probability its arm was drawn with.
  function Lessons(): Learner {
    var one := Taught(Novice(3), 0, -100_000_000, 333_334);
    var two := Taught(one, 2, -100_000_000, 499_974);
    Taught(two, 1, 3_000_000_000, 999_799)
  }

  lemma NewWeightBySteps(w: int, reward: int, prob: int, n: int, estimate: int, step: int)
    requires prob > 0 && n > 0 && NoOverflow(reward, prob)
    requires estimate == TruncDiv(reward * MILLION, prob) && step == TruncDiv(DEFAULT_GAMMA * estimate, n * MILLION)
    ensures NewWeight(w, reward, prob, n) == Clamp(TruncDiv(w * (MILLION + step), MILLION), MIN_WEIGHT_FLOOR, WEIGHT_CAP)
  {
    UpdateIsExact(reward, prob, n);
  }

  lemma NewWeights()
    ensures NewWeight(1_000_000, -100_000_000, 333_334, 3) == 100
    ensures NewWeight(1_000_000, -100_000_000, 499_974, 3) == 100
    ensures NewWeight(1_000_000, 3_000_000_000, 999_799, 3) == 100_000_000
  {
    NewWeightBySteps(1_000_000, -100_000_000, 333_334, 3, -299_999_400, -9_999_980);
    NewWeightBySteps(1_000_000, -100_000_000, 499_974, 3, -200_010_400, -6_667_013);
    NewWeightBySteps(1_000_000, 3_000_000_000, 999_799, 3, 3_000_603_121, 100_020_104);
  }

  lemma TaughtWeights(l: Learner, arm: nat, reward: int, prob: int, w: int)
    requires Sound(l) && arm < |l.weights| && prob > 0 && w == NewWeight(l.weights[arm], reward, prob, |l.weights|)
    ensures Taught(l, arm, reward, prob).weights == l.weights[arm := w]
  {
  }

  lemma LessonsWeights()
    ensures Novice(3).weights == [1_000_000, 1_000_000, 1_000_000]
    ensures Taught(Novice(3), 0, -100_000_000, 333_334).weights == [100, 1_000_000, 1_000_000]
    ensures Taught(Taught(Novice(3), 0, -100_000_000, 333_334), 2, -100_000_000, 499_974).weights == [100, 1_000_000, 100]
    ensures Lessons().weights == [100, 100_000_000, 100]
  {
    NewWeights();
    var zero := Novice(3);
    assert zero.weights == [1_000_000, 1_000_000, 1_000_000];
    var one := Taught(zero, 0, -100_000_000, 333_334);
    TaughtWeights(zero, 0, -100_000_000, 333_334, 100);
    var two := Taught(one, 2, -100_000_000, 499_974);
    TaughtWeights(one, 2, -100_000_000, 499_974, 100);
    TaughtWeights(two, 1, 3_000_000_000, 999_799, 100_000_000);
  }

  /** Playing can reach weights that take everything from the first arm: two heavy losses and one large gain, each learned
      with the probability of its draw, leave it probability zero and a total above one million. */
  lemma FirstArmCanVanish()
    ensures Distribution(Novice(3).weights, 1)[0] == 333_334
    ensures Distribution(Taught(Novice(3), 0, -100_000_000, 333_334).weights, 1)[2] == 499_974
    ensures Distribution(Taught(Taught(Novice(3), 0, -100_000_000, 333_334), 2, -100_000_000, 499_974).weights, 1)[1] == 999_799
    ensures Distribution(Lessons().weights, 1)[0] == 0 && Sum(Distribution(Lessons().weights, 1)) > MILLION
  {
    LessonsWeights();
    RawOfThree(1_000_000, 1_000_000, 1_000_000, 3_000_000, 333_333, 333_333, 333_333);
    RawOfThree(100, 1_000_000, 1_000_000, 2_000_100, 100, 499_974, 499_974);
    RawOfThree(100, 1_000_000, 100, 1_000_200, 100, 999_799, 100);
    RawOfThree(100, 100_000_000, 100, 100_000_200, 100, 999_997, 100);
    SumOfThree(0, 999_997, 100);
  }

  /** The first arm can vanish from an exact total, too. */
  lemma FirstArmCanVanishExactly()
    ensures Distribution([9701, 100_000_000, 100], 1) == [0, 999_900, 100]
  {
    RawOfThree(9701, 100_000_000, 100, 100_009_801, 100, 999_900, 100);
  }

  // ----- drawing an arm -----

  // The arm whose cumulative interval contains v.
  function Pick(p: seq<int>, v: int): (arm: nat)
    requires 0 <= v < Sum(p)
    ensures arm < |p| && Sum(p[..arm]) <= v < Sum(p[..arm + 1]) && p[arm] > 0
  {
    var n := |p| - 1;
    if Sum(p[..n]) <= v then
      assert p[..n + 1] == p;
      n
    else
      var arm := Pick(p[..n], v);
      assert p[..n][..arm] == p[..arm] && p[..n][..arm + 1] == p[..arm + 1];
      arm
  }

  lemma {:induction false} PrefixSumsGrow(p: seq<int>, i: nat, j: nat)
    requires i <= j <= |p| && forall k :: 0 <= k < |p| ==> p[k] >= 0
    ensures Sum(p[..i]) <= Sum(p[..j])
  {
    if i < j {
      SumAppend(p, j - 1);
      PrefixSumsGrow(p, i, j - 1);
    }
  }

  /** No two arms share a point of the unit interval. */
  lemma PickIsUnique(p: seq<int>, v: int, arm: nat)
    requires 0 <= v < Sum(p) && forall k :: 0 <= k < |p| ==> p[k] >= 0
    requires arm < |p| && Sum(p[..arm]) <= v < Sum(p[..arm + 1])
    ensures arm == Pick(p, v)
  {
    var other := Pick(p, v);
    if arm < other {
      PrefixSumsGrow(p, arm + 1, other);
    } else if other < arm {
      PrefixSumsGrow(p, other + 1, arm);
    }
  }

  // ----- one player, as a value -----

  datatype Learner = Learner(weights: seq<int>, rewards: seq<int>, counts: seq<nat>)

  predicate Sound(l: Learner) {
    Weights(l.weights) && |l.rewards| == |l.counts| == |l.weights|
  }

  function Novice(n: nat): Learner {
    Learner(seq(n, _ => MILLION), seq(n, _ => 0), seq(n, _ => 0))
  }

  function Drawn(l: Learner, hash: int, gamma: int): (arm: nat)
    requires Sound(l)
    ensures arm < |l.weights| && Distribution(l.weights, gamma)[arm] > 0
  {
    DistributionCovers(l.weights, gamma);
    Pick(Distribution(l.weights, gamma), hash % MILLION)
  }

  function Taught(l: Learner, arm: nat, reward: int, prob: int): (l': Learner)
    requires Sound(l) && arm < |l.weights| && prob > 0
    ensures Sound(l') && |l'.weights| == |l.weights|
  {
    Learner(l.weights[arm := NewWeight(l.weights[arm], reward, prob, |l.weights|)],
            l.rewards[arm := Clamp(l.rewards[arm] + Estimated(reward, prob), I64_MIN, I64_MAX)],
            l.counts[arm := l.counts[arm] + 1])
  }

  // ----- one player, updated in place -----

  class Exp3Weights {
    var weights: seq<int>
    var cumulativeRewards: seq<int>
    var counts: seq<nat>

    ghost function Value(): Learner
      reads this
    {
      Learner(weights, cumulativeRewards, counts)
    }

    ghost predicate Valid()
      reads this
    {
      Sound(Value())
    }

    constructor (n: nat)
      ensures Value() == Novice(n) && (Valid() <==> 0 < n <= MAX_STRATEGIES)
      ensures |weights| == |cumulativeRewards| == |counts| == n
      ensures forall i :: 0 <= i < n ==> weights[i] == 1_000_000 && cumulativeRewards[i] == 0 && counts[i] == 0
    {
      weights, cumulativeRewards, counts := seq(n, _ => MILLION), seq(n, _ => 0), seq(n, _ => 0);
    }

    method Probabilities(gamma: int) returns (probs: seq<int>)
      requires Valid()
      ensures probs == Distribution(weights, gamma)
    {
      var n := |weights|;
      var total := SumOf(weights, WEIGHT_CAP);
      TotalIsPositive(weights);
      var g := Clamp(gamma, 0, MILLION);
      var oneMinusGamma := MILLION - g;
      probs := [];
      var i := 0;
      while i < n
        invariant 0 <= i <= n && probs == RawProbabilities(weights, g)[..i]
      {
        ProductRange(oneMinusGamma, weights[i], total);
        var exploit := I64(oneMinusGamma * weights[i]) / total;
        var explore := g / n;
        probs := probs + [Max(exploit + explore, MIN_WEIGHT_FLOOR)];
        i := i + 1;
      }
      assert probs == RawProbabilities(weights, g);
      RawRange(weights, g);
      var sum := SumOf(probs, RAW_LIMIT);
      if sum > 0 && sum != MILLION {
        var correction := MILLION - sum;
        probs := probs[0 := Max(probs[0] + correction, 0)];
      } else {
        assert probs == Corrected(probs);
      }
    }

    /** Inverse transform sampling: the arm whose cumulative interval contains the hash value, an arm of positive
        probability; the fallback behind the loop is never taken. */
    method Select(hash: int, gamma: int) returns (arm: nat)
      requires Valid()
      ensures arm == Drawn(Value(), hash, gamma)
    {
      DistributionCovers(weights, gamma);
      var probs := Probabilities(gamma);
      arm := ArmAt(probs, hash % MILLION);
    }

    method Update(arm: nat, reward: int, prob: int)
      requires Valid()
      modifies this
      ensures Valid()
      ensures Value() == if arm < |old(weights)| && prob > 0 then Taught(old(Value()), arm, reward, prob) else old(Value())
    {
      if arm >= |weights| || prob <= 0 {
        return;
      }
      var n := |weights|;
      var estimated := TruncDiv(WrapI64(reward * MILLION), prob);
      cumulativeRewards := cumulativeRewards[arm := Clamp(cumulativeRewards[arm] + estimated, I64_MIN, I64_MAX)];
      counts := counts[arm := counts[arm] + 1];
      var scaled := WrapI64(DEFAULT_GAMMA * estimated);
      WrapIdentity(DEFAULT_GAMMA * estimated);
      FactorInRange(scaled, n);
      var updateFactor := I64(MILLION + TruncDiv(scaled, I64(n * MILLION)));
      weights := weights[arm := Clamp(TruncDiv(weights[arm] * updateFactor, MILLION), MIN_WEIGHT_FLOOR, WEIGHT_CAP)];
    }
  }

  method SumOf(s: seq<int>, bound: nat) returns (sum: int)
    requires |s| <= MAX_STRATEGIES && bound <= RAW_LIMIT && forall i :: 0 <= i < |s| ==> 0 <= s[i] <= bound
    ensures sum == Sum(s)
  {
    sum := 0;
    var i := 0;
    while i < |s|
      invariant 0 <= i <= |s| && sum == Sum(s[..i])
    {
      SumAppend(s, i);
      SumBounds(s[..i + 1], 0, bound);
      MulMonotone(i + 1, MAX_STRATEGIES, bound);
      sum := I64(sum + s[i]);
      i := i + 1;
    }
    assert s[..i] == s;
  }

  // The first arm whose cumulative probability exceeds v.
  method ArmAt(probs: seq<int>, v: int) returns (arm: nat)
    requires 0 <= v < Sum(probs) && forall k :: 0 <= k < |probs| ==> probs[k] >= 0
    ensures arm == Pick(probs, v)
  {
    assert probs[..|probs|] == probs;
    arm := |probs| - 1;  // the fallback
    var cumulative := 0;
    var i := 0;
    while i < |probs|
      invariant 0 <= i <= |probs|
      invariant cumulative == Sum(probs[..i]) <= v
    {
      SumAppend(probs, i);
      cumulative := cumulative + probs[i];
      if v < cumulative {
        PickIsUnique(probs, v, i);
        return i;
      }
      i := i + 1;
    }
    assert false;
  }
}
