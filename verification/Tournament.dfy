/** The coevolution tournament: two EXP3 players, and the ledger of their regrets. */
module Tournament {
  import opened Machine
  import opened Arithmetic
  import opened Sequences
  import opened Exp3
  import opened Payoffs
  import opened Ledger

  const MAX_TOURNAMENT_ROUNDS: nat := 100_000

  datatype TournamentConfig = TournamentConfig(
    rounds: nat,
    gamma: int,
    explorationBudget: int,
    trackTrajectory: bool)

  datatype CoevolutionError =
    | EmptyStrategies(player: PlayerRole)
    | TooManyStrategies(count: nat)
    | IncompletePayoffMatrix(expected: nat, actual: nat)
    | InvalidGamma(value: int)
    | TooManyRounds(rounds: nat)
    | ZeroRounds

  predicate ValidGame(c: TournamentConfig, m: PayoffMatrix) {
    && 0 < |m.attackers| <= MAX_STRATEGIES
    && 0 < |m.defenders| <= MAX_STRATEGIES
    && |m.entries| == |m.attackers| * |m.defenders|
    && 0 < c.gamma < MILLION
    && 0 < c.rounds <= MAX_TOURNAMENT_ROUNDS
  }

  // ----- running a tournament -----

  // The error is true of the game, and nothing that is checked before it is wrong.
  predicate Applies(e: CoevolutionError, c: TournamentConfig, m: PayoffMatrix) {
    var a, d := |m.attackers|, |m.defenders|;
    match e
    case EmptyStrategies(player) => if player == Attacker then a == 0 else d == 0 && a > 0
    case TooManyStrategies(n) => n > MAX_STRATEGIES && a > 0 && d > 0 && (n == a || (n == d && a <= MAX_STRATEGIES))
    case IncompletePayoffMatrix(expected, actual) => Playable(m) && expected == a * d && actual == |m.entries| != expected
    case InvalidGamma(g) => Playable(m) && |m.entries| == a * d && g == c.gamma && !(0 < g < MILLION)
    case ZeroRounds => Playable(m) && |m.entries| == a * d && 0 < c.gamma < MILLION && c.rounds == 0
    case TooManyRounds(n) =>
      Playable(m) && |m.entries| == a * d && 0 < c.gamma < MILLION && n == c.rounds > MAX_TOURNAMENT_ROUNDS
  }

  /** A game is valid or has exactly one error. */
  lemma OneError(c: TournamentConfig, m: PayoffMatrix, e: CoevolutionError, e': CoevolutionError)
    requires Applies(e, c, m)
    ensures !ValidGame(c, m) && (Applies(e', c, m) ==> e' == e)
  {
  }

  method Validate(c: TournamentConfig, m: PayoffMatrix) returns (r: Result<(), CoevolutionError>)
    ensures r.Success? <==> ValidGame(c, m)
    ensures r.Failure? ==> Applies(r.error, c, m)
  {
    if |m.attackers| == 0 { return Failure(EmptyStrategies(Attacker)); }
    if |m.defenders| == 0 { return Failure(EmptyStrategies(Defender)); }
    if |m.attackers| > MAX_STRATEGIES { return Failure(TooManyStrategies(|m.attackers|)); }
    if |m.defenders| > MAX_STRATEGIES { return Failure(TooManyStrategies(|m.defenders|)); }
    MulMonotone(0, |m.attackers|, |m.defenders|);
    var expected := |m.attackers| * |m.defenders|;
    if |m.entries| != expected { return Failure(IncompletePayoffMatrix(expected, |m.entries|)); }
    if c.gamma <= 0 || c.gamma >= MILLION { return Failure(InvalidGamma(c.gamma)); }
    if c.rounds == 0 { return Failure(ZeroRounds); }
    if c.rounds > MAX_TOURNAMENT_ROUNDS { return Failure(TooManyRounds(c.rounds)); }
    return Success(());
  }

  // ----- the tournament as a function of the draws -----

  // The players between two rounds, and the rounds played so far.
  datatype Table = Table(attacker: Learner, defender: Learner, rounds: seq<RoundOutcome>)

  predicate Seated(m: PayoffMatrix, t: Table) {
    Sound(t.attacker) && Sound(t.defender) && |t.attacker.weights| == |m.attackers| && |t.defender.weights| == |m.defenders|
  }

  function Reinforced(l: Learner, arm: nat, reward: int, gamma: int): (l': Learner)
    requires Sound(l) && arm < |l.weights| && Distribution(l.weights, gamma)[arm] > 0
    ensures Sound(l') && |l'.weights| == |l.weights|
  {
    Taught(l, arm, reward, Distribution(l.weights, gamma)[arm])
  }

  // Both players draw from their own distribution, the matrix pays, and both learn from what they earned.
  function Next(m: PayoffMatrix, gamma: int, hash: (nat, nat) -> int, t: Table): Table
    requires Seated(m, t)
  {
    var round := |t.rounds|;
    var i, j := Drawn(t.attacker, hash(round, 0), gamma), Drawn(t.defender, hash(round, 1), gamma);
    var a, d := m.attackers[i], m.defenders[j];
    var atkPay, defPay := Pay(m, Attacker, a, d), Pay(m, Defender, d, a);
    Table(Reinforced(t.attacker, i, atkPay, gamma), Reinforced(t.defender, j, defPay, gamma),
          t.rounds + [RoundOutcome(round, a, d, atkPay, defPay)])
  }

  // What every round does: one truthful entry is recorded, and one draw of each player is counted.
  predicate Extends(m: PayoffMatrix, t: Table, t': Table) {
    && Seated(m, t')
    && |t'.rounds| == |t.rounds| + 1 && t'.rounds[..|t.rounds|] == t.rounds
    && t'.rounds[|t.rounds|].round == |t.rounds| && Truthful(m, t'.rounds[|t.rounds|])
    && Sum(t'.attacker.counts) == Sum(t.attacker.counts) + 1
    && Sum(t'.defender.counts) == Sum(t.defender.counts) + 1
  }

  lemma TeachingCounts(l: Learner, arm: nat, reward: int, prob: int)
    requires Sound(l) && arm < |l.weights| && prob > 0
    ensures Sum(Taught(l, arm, reward, prob).counts) == Sum(l.counts) + 1
  {
    SumUpdate(l.counts, arm, l.counts[arm] + 1);
  }

  lemma NextExtends(m: PayoffMatrix, gamma: int, hash: (nat, nat) -> int, t: Table)
    requires Seated(m, t)
    ensures Extends(m, t, Next(m, gamma, hash, t))
  {
    var i, j := Drawn(t.attacker, hash(|t.rounds|, 0), gamma), Drawn(t.defender, hash(|t.rounds|, 1), gamma);
    var x := Next(m, gamma, hash, t).rounds[|t.rounds|];
    TeachingCounts(t.attacker, i, x.attackerPayoff, Distribution(t.attacker.weights, gamma)[i]);
    TeachingCounts(t.defender, j, x.defenderPayoff, Distribution(t.defender.weights, gamma)[j]);
  }

  // Hash value h draws this arm: it falls into the arm's stretch of the cumulative probabilities.
  predicate Draws(l: Learner, gamma: int, h: int, arm: nat)
    requires Sound(l)
  {
    var p := Distribution(l.weights, gamma);
    arm < |p| && Sum(p[..arm]) <= h % 1_000_000 < Sum(p[..arm + 1])
  }

  lemma DrawsOne(l: Learner, gamma: int, h: int, arm: nat)
    requires Sound(l) && Draws(l, gamma, h, arm)
    ensures arm == Drawn(l, h, gamma) && Distribution(l.weights, gamma)[arm] > 0
  {
    DistributionCovers(l.weights, gamma);
    PickIsUnique(Distribution(l.weights, gamma), h % 1_000_000, arm);
  }

  // The player drew this arm and was taught with this reward, at the probability of the draw.
  predicate Learned(l: Learner, l': Learner, gamma: int, arm: nat, reward: int)
    requires Sound(l) && arm < |l.weights|
  {
    var prob := Distribution(l.weights, gamma)[arm];
    prob > 0 && l'.weights == l.weights[arm := NewWeight(l.weights[arm], reward, prob, |l.weights|)]
  }

  /** In a round the attacker draws with the first hash and the defender with the second, the round records their
      strategies, and each player learns, at the arm it drew, from its own payoff. */
  lemma EachLearnsFromItsOwnPayoff(m: PayoffMatrix, gamma: int, hash: (nat, nat) -> int, t: Table, i: nat, j: nat)
    requires Seated(m, t)
    requires Draws(t.attacker, gamma, hash(|t.rounds|, 0), i) && Draws(t.defender, gamma, hash(|t.rounds|, 1), j)
    ensures var t' := Next(m, gamma, hash, t);
            && t'.rounds[..|t.rounds|] == t.rounds && |t'.rounds| == |t.rounds| + 1
            && var x := t'.rounds[|t.rounds|];
               && x.attacker == m.attackers[i] && x.defender == m.defenders[j]
               && x.attackerPayoff == Pay(m, Attacker, x.attacker, x.defender)
               && x.defenderPayoff == Pay(m, Defender, x.defender, x.attacker)
               && Learned(t.attacker, t'.attacker, gamma, i, x.attackerPayoff)
               && Learned(t.defender, t'.defender, gamma, j, x.defenderPayoff)
  {
    DrawsOne(t.attacker, gamma, hash(|t.rounds|, 0), i);
    DrawsOne(t.defender, gamma, hash(|t.rounds|, 1), j);
  }

  /** The limits of a valid game. */
  lemma GameLimits(c: TournamentConfig, m: PayoffMatrix)
    ensures ValidGame(c, m) <==>
            && 1 <= |m.attackers| <= 64 && 1 <= |m.defenders| <= 64 && |m.entries| == |m.attackers| * |m.defenders|
            && 1 <= c.gamma <= 999_999 && 1 <= c.rounds <= 100_000
  {
  }

  // The tournament's rule of play as a function of the table alone.
  function Playing(m: PayoffMatrix, gamma: int, hash: (nat, nat) -> int): Table -> Table {
    t => if Seated(m, t) then Next(m, gamma, hash, t) else t
  }

  ghost predicate Proper(next: Table -> Table, m: PayoffMatrix) {
    forall t {:trigger Extends(m, t, next(t))} :: Seated(m, t) ==> Extends(m, t, next(t))
  }

  ghost predicate Plays(next: Table -> Table, m: PayoffMatrix, gamma: int, hash: (nat, nat) -> int) {
    forall t {:trigger Next(m, gamma, hash, t)} :: Seated(m, t) ==> next(t) == Next(m, gamma, hash, t)
  }

  lemma PlayingIsProper(m: PayoffMatrix, gamma: int, hash: (nat, nat) -> int)
    ensures Proper(Playing(m, gamma, hash), m) && Plays(Playing(m, gamma, hash), m, gamma, hash)
  {
    forall t | Seated(m, t) ensures Extends(m, t, Playing(m, gamma, hash)(t)) {
      NextExtends(m, gamma, hash, t);
    }
  }

  predicate Playable(m: PayoffMatrix) {
    0 < |m.attackers| <= MAX_STRATEGIES && 0 < |m.defenders| <= MAX_STRATEGIES
  }

  function Opening(m: PayoffMatrix): Table {
    Table(Novice(|m.attackers|), Novice(|m.defenders|), [])
  }

  function After(next: Table -> Table, t: Table, n: nat): Table {
    if n == 0 then t else next(After(next, t, n - 1))
  }

  lemma RecordedOneMore(m: PayoffMatrix, rounds: seq<RoundOutcome>, longer: seq<RoundOutcome>)
    requires Recorded(m, rounds) && |longer| == |rounds| + 1 && longer[..|rounds|] == rounds
    requires longer[|rounds|].round == |rounds| && Truthful(m, longer[|rounds|])
    ensures Recorded(m, longer)
  {
    forall r | 0 <= r < |longer| ensures longer[r].round == r && Truthful(m, longer[r]) {
      assert r < |rounds| ==> longer[r] == rounds[r];
    }
  }

  lemma StepRecords(next: Table -> Table, m: PayoffMatrix, t: Table)
    requires Proper(next, m) && Seated(m, t) && Recorded(m, t.rounds)
    ensures Recorded(m, next(t).rounds)
  {
    assert Extends(m, t, next(t));
    RecordedOneMore(m, t.rounds, next(t).rounds);
  }

  lemma StepSeats(next: Table -> Table, m: PayoffMatrix, t: Table)
    requires Proper(next, m) && Seated(m, t)
    ensures Seated(m, next(t)) && |next(t).rounds| == |t.rounds| + 1
    ensures Sum(next(t).attacker.counts) == Sum(t.attacker.counts) + 1
    ensures Sum(next(t).defender.counts) == Sum(t.defender.counts) + 1
  {
    assert Extends(m, t, next(t));
  }

  // n rounds after t: the players are seated, the record is truthful, and every round was counted once.
  predicate Later(m: PayoffMatrix, t: Table, u: Table, n: nat) {
    && Seated(m, u) && Recorded(m, u.rounds) && |u.rounds| == |t.rounds| + n
    && Sum(u.attacker.counts) == Sum(t.attacker.counts) + n && Sum(u.defender.counts) == Sum(t.defender.counts) + n
  }

  lemma StepLater(next: Table -> Table, m: PayoffMatrix, t: Table, u: Table, n: nat)
    requires Proper(next, m) && Later(m, t, u, n)
    ensures Later(m, t, next(u), n + 1)
  {
    StepSeats(next, m, u);
    StepRecords(next, m, u);
  }

  lemma {:induction false} PlayGoesOn(next: Table -> Table, m: PayoffMatrix, t: Table, n: nat)
    requires Proper(next, m) && Later(m, t, t, 0)
    ensures Later(m, t, After(next, t, n), n)
  {
    if n > 0 {
      PlayGoesOn(next, m, t, n - 1);
      StepLater(next, m, t, After(next, t, n - 1), n - 1);
    }
  }

  lemma OpeningIsSeated(m: PayoffMatrix)
    requires Playable(m)
    ensures Later(m, Opening(m), Opening(m), 0) && Opening(m).rounds == []
    ensures Sum(Opening(m).attacker.counts) == Sum(Opening(m).defender.counts) == 0
  {
    NoCounts(|m.attackers|);
    NoCounts(|m.defenders|);
  }

  lemma PlayersStaySeated(next: Table -> Table, m: PayoffMatrix, n: nat)
    requires Proper(next, m) && Playable(m)
    ensures var t := After(next, Opening(m), n); Seated(m, t) && |t.rounds| == n
  {
    OpeningIsSeated(m);
    PlayGoesOn(next, m, Opening(m), n);
  }

  /** Every round ever played is recorded under its own number and pays what the matrix says. */
  lemma RoundsAreTruthful(next: Table -> Table, m: PayoffMatrix, n: nat)
    requires Proper(next, m) && Playable(m)
    ensures Recorded(m, After(next, Opening(m), n).rounds)
  {
    OpeningIsSeated(m);
    PlayGoesOn(next, m, Opening(m), n);
  }

  /** Every draw is counted: each player's counts add up to the rounds played. */
  lemma CountsAddUp(next: Table -> Table, m: PayoffMatrix, n: nat)
    requires Proper(next, m) && Playable(m)
    ensures var t := After(next, Opening(m), n); Sum(t.attacker.counts) == Sum(t.defender.counts) == n
  {
    OpeningIsSeated(m);
    PlayGoesOn(next, m, Opening(m), n);
  }

  lemma RecordGrowsByOne(next: Table -> Table, m: PayoffMatrix, n: nat)
    requires Proper(next, m) && Playable(m) && n > 0
    ensures var before, after := After(next, Opening(m), n - 1).rounds, After(next, Opening(m), n).rounds;
            |before| == n - 1 && |after| == n && after[..n - 1] == before
  {
    PlayersStaySeated(next, m, n - 1);
    StepAppends(next, m, After(next, Opening(m), n - 1));
  }

  lemma StepAppends(next: Table -> Table, m: PayoffMatrix, t: Table)
    requires Proper(next, m) && Seated(m, t)
    ensures |next(t).rounds| == |t.rounds| + 1 && next(t).rounds[..|t.rounds|] == t.rounds
  {
    assert Extends(m, t, next(t));
  }

  lemma PrefixOfPrefix<T>(a: seq<T>, i: nat, j: nat)
    requires i <= j <= |a|
    ensures a[..j][..i] == a[..i]
  {
  }

  /** More rounds only extend the record. */
  lemma {:induction false} RecordIsAppended(next: Table -> Table, m: PayoffMatrix, n: nat, k: nat)
    requires Proper(next, m) && Playable(m) && k <= n
    ensures |After(next, Opening(m), n).rounds| == n
    ensures After(next, Opening(m), n).rounds[..k] == After(next, Opening(m), k).rounds
  {
    if k < n {
      RecordGrowsByOne(next, m, n);
      RecordIsAppended(next, m, n - 1, k);
      PrefixOfPrefix(After(next, Opening(m), n).rounds, k, n - 1);
    } else if n > 0 {
      RecordGrowsByOne(next, m, n);
      var rounds := After(next, Opening(m), n).rounds;
      assert rounds[..n] == rounds;
    }
  }

  // ----- one round in place -----

  method Learn(w: Exp3Weights, arm: nat, reward: int, gamma: int)
    requires w.Valid() && arm < |w.weights| && Distribution(w.weights, gamma)[arm] > 0
    modifies w
    ensures w.Value() == Reinforced(old(w.Value()), arm, reward, gamma)
  {
    var probs := w.Probabilities(gamma);
    w.Update(arm, reward, probs[arm]);
  }

  method PlayRound(m: PayoffMatrix, gamma: int, atk: Exp3Weights, def: Exp3Weights, round: nat, hash: (nat, nat) -> int,
                   ghost rounds: seq<RoundOutcome>)
    returns (x: RoundOutcome)
    requires atk != def && round == |rounds| && Seated(m, Table(atk.Value(), def.Value(), rounds))
    modifies atk, def
    ensures Table(atk.Value(), def.Value(), rounds + [x]) == Next(m, gamma, hash, old(Table(atk.Value(), def.Value(), rounds)))
  {
    var i := atk.Select(hash(round, 0), gamma);
    var j := def.Select(hash(round, 1), gamma);
    var a, d := m.attackers[i], m.defenders[j];
    var e := FindPayoff(m, a, d);
    var atkPay, defPay := 0, 0;
    if e.Some? {
      atkPay, defPay := e.value.attackerPayoff, e.value.defenderPayoff;
    }
    Learn(atk, i, atkPay, gamma);
    Learn(def, j, defPay, gamma);
    x := RoundOutcome(round, a, d, atkPay, defPay);
  }

  // The same round, seen as the step of a rule of play.
  method PlayNext(m: PayoffMatrix, gamma: int, atk: Exp3Weights, def: Exp3Weights, round: nat, hash: (nat, nat) -> int,
                  ghost next: Table -> Table, ghost rounds: seq<RoundOutcome>)
    returns (x: RoundOutcome)
    requires Plays(next, m, gamma, hash)
    requires atk != def && round == |rounds| && Seated(m, Table(atk.Value(), def.Value(), rounds))
    modifies atk, def
    ensures Table(atk.Value(), def.Value(), rounds + [x]) == next(old(Table(atk.Value(), def.Value(), rounds)))
  {
    x := PlayRound(m, gamma, atk, def, round, hash, rounds);
  }

  datatype TournamentResult = TournamentResult(
    roundsPlayed: nat,
    attackerPayoff: int,
    defenderPayoff: int,
    attackerAverageRegret: int,
    defenderAverageRegret: int,
    attackerCounts: map<StrategyId, nat>,
    defenderCounts: map<StrategyId, nat>,
    recommendedMix: map<StrategyId, int>,
    trajectory: Option<TrajectoryLedger>)

  // Every round began with budget left.
  predicate Affordable(c: TournamentConfig, rounds: seq<RoundOutcome>) {
    forall r :: 0 <= r < |rounds| ==> Spent(rounds[..r]) < c.explorationBudget
  }

  // The rounds were played one after the other until the configured number or the budget was used up.
  predicate StopsAfter(c: TournamentConfig, rounds: seq<RoundOutcome>) {
    && |rounds| <= c.rounds && Affordable(c, rounds)
    && (|rounds| == c.rounds || Spent(rounds) >= c.explorationBudget)
  }

  /** The configuration, the matrix and the draws leave one possible end. */
  lemma StopIsUnique(c: TournamentConfig, m: PayoffMatrix, next: Table -> Table, n: nat, k: nat)
    requires Proper(next, m) && Playable(m)
    requires StopsAfter(c, After(next, Opening(m), n).rounds) && StopsAfter(c, After(next, Opening(m), k).rounds)
    ensures n == k
  {
    RecordIsAppended(next, m, Max(n, k), Min(n, k));
    RecordIsAppended(next, m, Min(n, k), 0);
  }

  function Average(total: int, rounds: nat): int {
    if rounds > 0 then TruncDiv(total, rounds) else 0
  }

  /** An average is the total shared among the rounds, rounded toward zero; no rounds have the average zero. */
  lemma AverageIsShared(total: int, rounds: nat)
    ensures rounds == 0 ==> Average(total, rounds) == 0
    ensures rounds > 0 && total >= 0 ==> Average(total, rounds) * rounds <= total < (Average(total, rounds) + 1) * rounds
    ensures rounds > 0 ==> Average(0 - total, rounds) == 0 - Average(total, rounds)
  {
    if rounds > 0 {
      TruncatesTowardZero(total, rounds);
    }
  }

  // The game so far: the table is that of the pure game, every round was affordable, and the books are right.
  ghost predicate Underway(c: TournamentConfig, m: PayoffMatrix, next: Table -> Table, t: Table, b: Books)
    requires m.attackers != [] && m.defenders != []
  {
    && t == After(next, Opening(m), |t.rounds|) && Seated(m, t) && |t.rounds| <= c.rounds
    && Recorded(m, t.rounds) && Affordable(c, t.rounds) && BooksOf(b, m, t.rounds)
    && (b.trajectory.Some? <==> c.trackTrajectory)
  }

  lemma UnderwayNext(c: TournamentConfig, m: PayoffMatrix, next: Table -> Table, t: Table, b: Books, t': Table, x: RoundOutcome)
    requires Playable(m) && Proper(next, m) && Underway(c, m, next, t, b) && b.spent < c.explorationBudget
    requires |t.rounds| < c.rounds && t' == next(t) && t'.rounds == t.rounds + [x]
    ensures t' == After(next, Opening(m), |t'.rounds|) && Seated(m, t') && Recorded(m, t'.rounds) && Affordable(c, t'.rounds)
    ensures Truthful(m, x)
  {
    PlayersStaySeated(next, m, |t'.rounds|);
    RoundsAreTruthful(next, m, |t'.rounds|);
    LastRecorded(m, t.rounds, x);
    AffordableOneMore(c, t.rounds, x);
  }

  // One round of play and bookkeeping.
  method PlayAndRecord(c: TournamentConfig, m: PayoffMatrix, atk: Exp3Weights, def: Exp3Weights, b: Books, round: nat,
                       hash: (nat, nat) -> int, ghost next: Table -> Table, ghost rounds: seq<RoundOutcome>)
    returns (x: RoundOutcome, b': Books)
    requires ValidGame(c, m) && Proper(next, m) && Plays(next, m, c.gamma, hash)
    requires atk != def && round == |rounds| < c.rounds && b.spent < c.explorationBudget
    requires Underway(c, m, next, Table(atk.Value(), def.Value(), rounds), b)
    modifies atk, def
    ensures Underway(c, m, next, Table(atk.Value(), def.Value(), rounds + [x]), b')
  {
    ghost var t := Table(atk.Value(), def.Value(), rounds);
    x := PlayNext(m, c.gamma, atk, def, round, hash, next, rounds);
    UnderwayNext(c, m, next, t, b, Table(atk.Value(), def.Value(), rounds + [x]), x);
    b' := Record(b, m, x, rounds);
  }

  // The round loop.
  method PlayOn(c: TournamentConfig, m: PayoffMatrix, atk: Exp3Weights, def: Exp3Weights, start: Books,
                hash: (nat, nat) -> int, ghost next: Table -> Table)
    returns (b: Books, ghost rounds: seq<RoundOutcome>)
    requires ValidGame(c, m) && Proper(next, m) && Plays(next, m, c.gamma, hash)
    requires atk != def && Underway(c, m, next, Table(atk.Value(), def.Value(), []), start)
    modifies atk, def
    ensures Underway(c, m, next, Table(atk.Value(), def.Value(), rounds), b)
    ensures |rounds| == c.rounds || b.spent >= c.explorationBudget
  {
    b, rounds := start, [];
    var round := 0;
    while round < c.rounds
      invariant round == |rounds| && Underway(c, m, next, Table(atk.Value(), def.Value(), rounds), b)
    {
      if b.spent >= c.explorationBudget {
        break;
      }
      var x;
      x, b := PlayAndRecord(c, m, atk, def, b, round, hash, next, rounds);
      rounds := rounds + [x];
      round := round + 1;
    }
  }

  // The whole game, up to the point where the result is assembled.
  method PlayRounds(c: TournamentConfig, m: PayoffMatrix, hash: (nat, nat) -> int, ghost next: Table -> Table)
    returns (b: Books, atkCounts: seq<nat>, defCounts: seq<nat>, mix: seq<int>, ghost t: Table)
    requires ValidGame(c, m) && Proper(next, m) && Plays(next, m, c.gamma, hash)
    ensures Underway(c, m, next, t, b) && (|t.rounds| == c.rounds || b.spent >= c.explorationBudget)
    ensures atkCounts == t.attacker.counts && defCounts == t.defender.counts && mix == Distribution(t.defender.weights, c.gamma)
  {
    var atk := new Exp3Weights(|m.attackers|);
    var def := new Exp3Weights(|m.defenders|);
    b := Books(0, 0, 0, seq(|m.attackers|, _ => 0), seq(|m.defenders|, _ => 0),
               if c.trackTrajectory then Some(TrajectoryLedger([], [], [])) else None);
    NoRounds(b, c, m);
    ghost var rounds;
    b, rounds := PlayOn(c, m, atk, def, b, hash, next);
    t := Table(atk.Value(), def.Value(), rounds);
    mix := def.Probabilities(c.gamma);
    atkCounts, defCounts := atk.counts, def.counts;
  }

  lemma LastRecorded(m: PayoffMatrix, rounds: seq<RoundOutcome>, x: RoundOutcome)
    requires Recorded(m, rounds + [x])
    ensures Truthful(m, x)
  {
    assert (rounds + [x])[|rounds|] == x;
  }

  lemma AffordableOneMore(c: TournamentConfig, rounds: seq<RoundOutcome>, x: RoundOutcome)
    requires Affordable(c, rounds) && Spent(rounds) < c.explorationBudget
    ensures Affordable(c, rounds + [x])
  {
    forall r | 0 <= r < |rounds| + 1 ensures Spent((rounds + [x])[..r]) < c.explorationBudget {
      assert (rounds + [x])[..r] == rounds[..r];
      assert r == |rounds| ==> rounds[..r] == rounds;
    }
  }

  lemma NoRounds(b: Books, c: TournamentConfig, m: PayoffMatrix)
    requires m.attackers != [] && m.defenders != []
    requires b == Books(0, 0, 0, seq(|m.attackers|, _ => 0), seq(|m.defenders|, _ => 0),
                        if c.trackTrajectory then Some(TrajectoryLedger([], [], [])) else None)
    ensures BooksOf(b, m, [])
  {
    assert b.bestAtk == AllSatFixed(m, Attacker, []) && b.bestDef == AllSatFixed(m, Defender, []);
  }

  // Values by strategy name; the last strategy of a name wins.
  function Named<T>(names: seq<StrategyId>, values: seq<T>): map<StrategyId, T>
    requires |names| == |values|
  {
    if names == [] then map[]
    else
      var n := |names| - 1;
      Named(names[..n], values[..n])[names[n] := values[n]]
  }

  /** With distinct names nothing is lost. */
  lemma {:induction false} NamedIsFaithful<T>(names: seq<StrategyId>, values: seq<T>, i: nat)
    requires |names| == |values| && i < |names|
    requires forall i, j :: 0 <= i < j < |names| ==> names[i] != names[j]
    ensures names[i] in Named(names, values) && Named(names, values)[names[i]] == values[i]
  {
    var n := |names| - 1;
    if i < n {
      NamedIsFaithful(names[..n], values[..n], i);
    }
  }

  method ByName<T>(names: seq<StrategyId>, values: seq<T>) returns (r: map<StrategyId, T>)
    requires |names| == |values|
    ensures r == Named(names, values)
  {
    r := map[];
    var i := 0;
    while i < |names|
      invariant 0 <= i <= |names| && r == Named(names[..i], values[..i])
    {
      assert names[..i + 1][..i] == names[..i] && values[..i + 1][..i] == values[..i];
      r := r[names[i] := values[i]];
      i := i + 1;
    }
    assert names[..i] == names && values[..i] == values;
  }

  /** What a tournament that ends with table t reports. */
  predicate Reports(c: TournamentConfig, m: PayoffMatrix, t: Table, result: TournamentResult) {
    && Seated(m, t)
    && StopsAfter(c, t.rounds)
    && result.roundsPlayed == (if c.trackTrajectory || Spent(t.rounds) < c.explorationBudget then |t.rounds| else 0)
    && result.attackerPayoff == SatTotal(Attacker, t.rounds) && result.defenderPayoff == SatTotal(Defender, t.rounds)
    && result.attackerAverageRegret == Average(FinalRegret(m, Attacker, t.rounds), result.roundsPlayed)
    && result.defenderAverageRegret == Average(FinalRegret(m, Defender, t.rounds), result.roundsPlayed)
    && Recorded(m, t.rounds) && Sum(t.attacker.counts) == Sum(t.defender.counts) == |t.rounds|
    && result.attackerCounts == Named(m.attackers, t.attacker.counts)
    && result.defenderCounts == Named(m.defenders, t.defender.counts)
    && result.recommendedMix == Named(m.defenders, Distribution(t.defender.weights, c.gamma))
    && if c.trackTrajectory then result.trajectory.Some? && LedgerOf(result.trajectory.value, m, t.rounds)
       else result.trajectory.None?
  }

  method AverageRegret(ghost m: PayoffMatrix, ghost role: PlayerRole, best: seq<int>, total: int,
                       ghost rounds: seq<RoundOutcome>, played: nat)
    returns (average: int)
    requires Strategies(m, role) != [] && best == AllSatFixed(m, role, rounds) && total == SatTotal(role, rounds)
    ensures average == Average(FinalRegret(m, role, rounds), played)
  {
    average := Average(Clamp(Largest(best) - total, I64_MIN, I64_MAX), played);
  }

  method Assemble(c: TournamentConfig, m: PayoffMatrix, b: Books, atkCounts: seq<nat>, defCounts: seq<nat>, mix: seq<int>,
                  ghost t: Table)
    returns (result: TournamentResult)
    requires Seated(m, t) && StopsAfter(c, t.rounds) && BooksOf(b, m, t.rounds) && (b.trajectory.Some? <==> c.trackTrajectory)
    requires Recorded(m, t.rounds) && Sum(t.attacker.counts) == Sum(t.defender.counts) == |t.rounds|
    requires atkCounts == t.attacker.counts && defCounts == t.defender.counts
    requires mix == Distribution(t.defender.weights, c.gamma)
    ensures Reports(c, m, t, result)
  {
    var played := if b.trajectory.Some? then |b.trajectory.value.rounds|
                  else Min(c.rounds, if b.spent >= c.explorationBudget then 0 else c.rounds);
    assert played == if c.trackTrajectory || Spent(t.rounds) < c.explorationBudget then |t.rounds| else 0;
    var atkAverage := AverageRegret(m, Attacker, b.bestAtk, b.atkTotal, t.rounds, played);
    var defAverage := AverageRegret(m, Defender, b.bestDef, b.defTotal, t.rounds, played);
    var atkFrequency := ByName(m.attackers, atkCounts);
    var defFrequency := ByName(m.defenders, defCounts);
    var recommended := ByName(m.defenders, mix);
    result := TournamentResult(played, b.atkTotal, b.defTotal, atkAverage, defAverage,
                               atkFrequency, defFrequency, recommended, b.trajectory);
  }

  method RunWith(c: TournamentConfig, m: PayoffMatrix, hash: (nat, nat) -> int, ghost next: Table -> Table)
    returns (result: TournamentResult, ghost n: nat)
    requires ValidGame(c, m) && Proper(next, m) && Plays(next, m, c.gamma, hash)
    ensures Reports(c, m, After(next, Opening(m), n), result)
  {
    var b, atkCounts, defCounts, mix;
    ghost var t;
    b, atkCounts, defCounts, mix, t := PlayRounds(c, m, hash, next);
    n := |t.rounds|;
    CountsAddUp(next, m, n);
    result := Assemble(c, m, b, atkCounts, defCounts, mix, t);
  }

  /** Runs the tournament; hash stands for the deterministic draw of a round and a player. The n rounds played are those of
      the pure definition up to the round where the budget or the configured number is used up. */
  method Run(c: TournamentConfig, m: PayoffMatrix, hash: (nat, nat) -> int) returns (result: TournamentResult)
    requires ValidGame(c, m)
    ensures exists n: nat :: Reports(c, m, After(Playing(m, c.gamma, hash), Opening(m), n), result)
  {
    PlayingIsProper(m, c.gamma, hash);
    ghost var n;
    result, n := RunWith(c, m, hash, Playing(m, c.gamma, hash));
  }

  /** For payoffs whose sums over the configured rounds fit 64 bits, the report is exact. */
  lemma ReportIsExact(c: TournamentConfig, m: PayoffMatrix, t: Table, result: TournamentResult)
    requires Reports(c, m, t, result) && Summable(m, c.rounds)
    ensures result.attackerPayoff == Total(Attacker, t.rounds) && result.defenderPayoff == Total(Defender, t.rounds)
    ensures result.attackerAverageRegret == Average(Hindsight(m, Attacker, t.rounds), result.roundsPlayed)
    ensures result.defenderAverageRegret == Average(Hindsight(m, Defender, t.rounds), result.roundsPlayed)
    ensures result.trajectory.Some? ==> ExactLedger(result.trajectory.value, m, t.rounds)
  {
    BooksAreExact(m, Attacker, t.rounds, c.rounds);
    BooksAreExact(m, Defender, t.rounds, c.rounds);
    if result.trajectory.Some? {
      LedgerIsExact(result.trajectory.value, m, t.rounds, c.rounds);
    }
  }

  /** The reported number of rounds is wrong exactly for an untracked tournament that used up its budget by playing. */
  lemma UnderreportsIff(c: TournamentConfig, m: PayoffMatrix, t: Table, result: TournamentResult)
    requires Reports(c, m, t, result)
    ensures result.roundsPlayed != |t.rounds| <==>
            !c.trackTrajectory && Spent(t.rounds) >= c.explorationBudget && t.rounds != []
  {
  }

  function TinyGame(): PayoffMatrix {
    PayoffMatrix(["a"], ["d"], [PayoffEntry("a", "d", 1, -1)])
  }

  function TinyBudget(): TournamentConfig {
    TournamentConfig(5, 500_000, 1, false)
  }

  lemma TinyGameIsValid()
    ensures ValidGame(TinyBudget(), TinyGame()) && Summable(TinyGame(), TinyBudget().rounds)
    ensures Pay(TinyGame(), Attacker, "a", "d") == 1
  {
    var entries := TinyGame().entries;
    assert entries[..0] == [] && Peak(entries) == 1;
  }

  /** It happens, whatever is drawn: one strategy each, a payoff of one and a budget of one stop the game after its first
      round, and the result of a run reports none. */
  lemma UnderreportingHappens(hash: (nat, nat) -> int, n: nat, result: TournamentResult)
    requires Reports(TinyBudget(), TinyGame(), After(Playing(TinyGame(), TinyBudget().gamma, hash), Opening(TinyGame()), n), result)
    ensures n == 1 && result.roundsPlayed == 0
  {
    PlayingIsProper(TinyGame(), TinyBudget().gamma, hash);
    TinyGameReportsNothing(Playing(TinyGame(), TinyBudget().gamma, hash), n, result);
  }

  lemma TinyGameReportsNothing(next: Table -> Table, n: nat, result: TournamentResult)
    requires Proper(next, TinyGame()) && Reports(TinyBudget(), TinyGame(), After(next, Opening(TinyGame()), n), result)
    ensures n == 1 && result.roundsPlayed == 0
  {
    TinyGameStops(next);
    StopIsUnique(TinyBudget(), TinyGame(), next, n, 1);
  }

  lemma TinyGameStops(next: Table -> Table)
    requires Proper(next, TinyGame())
    ensures var rounds := After(next, Opening(TinyGame()), 1).rounds;
            StopsAfter(TinyBudget(), rounds) && Spent(rounds) == 1
  {
    var m := TinyGame();
    RoundsAreTruthful(next, m, 1);
    PlayersStaySeated(next, m, 1);
    TinyRoundsCostOne(After(next, Opening(m), 1).rounds);
  }

  lemma TinyRoundsCostOne(rounds: seq<RoundOutcome>)
    requires |rounds| == 1 && Recorded(TinyGame(), rounds)
    ensures StopsAfter(TinyBudget(), rounds) && Spent(rounds) == 1
  {
    TinyGameIsValid();
    assert Truthful(TinyGame(), rounds[0]) && rounds[..0] == [];
    assert rounds[0].attackerPayoff == 1;
  }

  lemma {:induction false} NoCounts(n: nat)
    ensures Sum(seq(n, _ => 0)) == 0
  {
    if n > 0 {
      NoCounts(n - 1);
      assert seq(n, _ => 0)[..n - 1] == seq(n - 1, _ => 0);
    }
  }
}
