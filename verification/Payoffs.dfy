/** Payoff matrices, recorded rounds, and regret as it is defined. */
module Payoffs {
  import opened Machine
  import opened Sequences

  type StrategyId = string

  datatype PayoffEntry = PayoffEntry(attacker: StrategyId, defender: StrategyId, attackerPayoff: int, defenderPayoff: int)

  datatype PayoffMatrix = PayoffMatrix(
    attackers: seq<StrategyId>,
    defenders: seq<StrategyId>,
    entries: seq<PayoffEntry>)

  datatype PlayerRole = Attacker | Defender

  datatype RoundOutcome = RoundOutcome(
    round: nat,
    attacker: StrategyId,
    defender: StrategyId,
    attackerPayoff: int,
    defenderPayoff: int)

  // ----- payoffs -----

  predicate Matches(e: PayoffEntry, a: StrategyId, d: StrategyId) {
    e.attacker == a && e.defender == d
  }

  // The first entry for the pair.
  function Lookup(entries: seq<PayoffEntry>, a: StrategyId, d: StrategyId): Option<PayoffEntry> {
    if entries == [] then None
    else
      var before, last := Lookup(entries[..|entries| - 1], a, d), entries[|entries| - 1];
      if before.Some? then before else if Matches(last, a, d) then Some(last) else None
  }

  function PayoffTo(role: PlayerRole, e: PayoffEntry): int {
    if role == Attacker then e.attackerPayoff else e.defenderPayoff
  }

  // What the player in this role earns with its own strategy against the other's; a pair without an entry pays nothing.
  function Pay(m: PayoffMatrix, role: PlayerRole, own: StrategyId, other: StrategyId): int {
    var e := if role == Attacker then Lookup(m.entries, own, other) else Lookup(m.entries, other, own);
    if e.Some? then PayoffTo(role, e.value) else 0
  }

  function Strategies(m: PayoffMatrix, role: PlayerRole): seq<StrategyId> {
    if role == Attacker then m.attackers else m.defenders
  }

  function Own(role: PlayerRole, x: RoundOutcome): StrategyId {
    if role == Attacker then x.attacker else x.defender
  }

  function Opponent(role: PlayerRole, x: RoundOutcome): StrategyId {
    if role == Attacker then x.defender else x.attacker
  }

  function Earned(role: PlayerRole, x: RoundOutcome): int {
    if role == Attacker then x.attackerPayoff else x.defenderPayoff
  }

  method FindPayoff(m: PayoffMatrix, a: StrategyId, d: StrategyId) returns (e: Option<PayoffEntry>)
    ensures e == Lookup(m.entries, a, d)
  {
    var i := 0;
    while i < |m.entries|
      invariant 0 <= i <= |m.entries| && Lookup(m.entries[..i], a, d).None?
    {
      assert m.entries[..i + 1][..i] == m.entries[..i];
      if Matches(m.entries[i], a, d) {
        LookupStays(m.entries, i + 1, a, d);
        return Some(m.entries[i]);
      }
      i := i + 1;
    }
    assert m.entries[..i] == m.entries;
    return None;
  }

  lemma {:induction false} LookupStays(entries: seq<PayoffEntry>, i: nat, a: StrategyId, d: StrategyId)
    requires i <= |entries| && Lookup(entries[..i], a, d).Some?
    ensures Lookup(entries, a, d) == Lookup(entries[..i], a, d)
    decreases |entries|
  {
    if i == |entries| {
      assert entries[..i] == entries;
    } else {
      var n := |entries| - 1;
      assert entries[..n][..i] == entries[..i];
      LookupStays(entries[..n], i, a, d);
    }
  }

  // ----- regret, from the recorded rounds alone -----

  // A recorded round pays both players what the matrix says.
  predicate Truthful(m: PayoffMatrix, x: RoundOutcome) {
    && x.attacker in m.attackers && x.defender in m.defenders
    && x.attackerPayoff == Pay(m, Attacker, x.attacker, x.defender)
    && x.defenderPayoff == Pay(m, Defender, x.defender, x.attacker)
  }

  // The record lists the rounds under their own numbers, and each pays what the matrix says.
  predicate Recorded(m: PayoffMatrix, rounds: seq<RoundOutcome>) {
    forall r :: 0 <= r < |rounds| ==> rounds[r].round == r && Truthful(m, rounds[r])
  }

  function Earnings(role: PlayerRole, rounds: seq<RoundOutcome>): (xs: seq<int>)
    ensures |xs| == |rounds| && forall r :: 0 <= r < |xs| ==> xs[r] == Earned(role, rounds[r])
  {
    seq(|rounds|, r requires 0 <= r < |rounds| => Earned(role, rounds[r]))
  }

  // What s would have earned against each recorded opponent.
  function Alternatives(m: PayoffMatrix, role: PlayerRole, s: StrategyId, rounds: seq<RoundOutcome>): (xs: seq<int>)
    ensures |xs| == |rounds| && forall r :: 0 <= r < |xs| ==> xs[r] == Pay(m, role, s, Opponent(role, rounds[r]))
  {
    seq(|rounds|, r requires 0 <= r < |rounds| => Pay(m, role, s, Opponent(role, rounds[r])))
  }

  function Total(role: PlayerRole, rounds: seq<RoundOutcome>): int {
    Sum(Earnings(role, rounds))
  }

  // What always playing s would have earned against the recorded opponents.
  function Fixed(m: PayoffMatrix, role: PlayerRole, s: StrategyId, rounds: seq<RoundOutcome>): int {
    Sum(Alternatives(m, role, s, rounds))
  }

  function AllFixed(m: PayoffMatrix, role: PlayerRole, rounds: seq<RoundOutcome>): (r: seq<int>)
    ensures |r| == |Strategies(m, role)|
    ensures forall i :: 0 <= i < |r| ==> r[i] == Fixed(m, role, Strategies(m, role)[i], rounds)
  {
    var ss := Strategies(m, role);
    seq(|ss|, i requires 0 <= i < |ss| => Fixed(m, role, ss[i], rounds))
  }

  function Largest(s: seq<int>): (x: int)
    requires s != []
    ensures x in s && forall i :: 0 <= i < |s| ==> s[i] <= x
  {
    if |s| == 1 then s[0] else Max(Largest(s[..|s| - 1]), s[|s| - 1])
  }

  // How much better the best fixed strategy in hindsight would have done.
  function Hindsight(m: PayoffMatrix, role: PlayerRole, rounds: seq<RoundOutcome>): int
    requires Strategies(m, role) != []
  {
    Largest(AllFixed(m, role, rounds)) - Total(role, rounds)
  }

  function Regret(m: PayoffMatrix, role: PlayerRole, rounds: seq<RoundOutcome>): int
    requires Strategies(m, role) != []
  {
    Max(Hindsight(m, role, rounds), 0)
  }

  // ----- the spread of one round -----

  lemma LargestMoves(a: seq<int>, b: seq<int>, lo: int, hi: int)
    requires |a| == |b| > 0 && forall i :: 0 <= i < |a| ==> lo <= b[i] - a[i] <= hi
    ensures lo <= Largest(b) - Largest(a) <= hi
  {
    var i :| 0 <= i < |a| && a[i] == Largest(a);
    var j :| 0 <= j < |b| && b[j] == Largest(b);
    assert b[i] - a[i] >= lo && b[j] - a[j] <= hi;
  }

  lemma EarningsAppend(role: PlayerRole, rounds: seq<RoundOutcome>, x: RoundOutcome)
    ensures Earnings(role, rounds + [x]) == Earnings(role, rounds) + [Earned(role, x)]
  {
  }

  lemma AlternativesAppend(m: PayoffMatrix, role: PlayerRole, s: StrategyId, rounds: seq<RoundOutcome>, x: RoundOutcome)
    ensures Alternatives(m, role, s, rounds + [x]) == Alternatives(m, role, s, rounds) + [Pay(m, role, s, Opponent(role, x))]
  {
  }

  lemma AppendRound(m: PayoffMatrix, role: PlayerRole, s: StrategyId, rounds: seq<RoundOutcome>, x: RoundOutcome)
    ensures Total(role, rounds + [x]) == Total(role, rounds) + Earned(role, x)
    ensures Fixed(m, role, s, rounds + [x]) == Fixed(m, role, s, rounds) + Pay(m, role, s, Opponent(role, x))
  {
    EarningsAppend(role, rounds, x);
    SumPush(Earnings(role, rounds), Earned(role, x));
    AlternativesAppend(m, role, s, rounds, x);
    SumPush(Alternatives(m, role, s, rounds), Pay(m, role, s, Opponent(role, x)));
  }

  /** One round moves a player's regret by at most the spread of what it could have earned against that opponent. */
  lemma RegretMovesBySpread(m: PayoffMatrix, role: PlayerRole, rounds: seq<RoundOutcome>, x: RoundOutcome, lo: int, hi: int)
    requires Strategies(m, role) != [] && Truthful(m, x)
    requires forall s :: s in Strategies(m, role) ==> lo <= Pay(m, role, s, Opponent(role, x)) <= hi
    ensures -(hi - lo) <= Regret(m, role, rounds + [x]) - Regret(m, role, rounds) <= hi - lo
  {
    BestMovesBySpread(m, role, rounds, x, lo, hi);
    AppendRound(m, role, Own(role, x), rounds, x);
    assert Own(role, x) in Strategies(m, role);
    assert lo <= Earned(role, x) <= hi;
  }

  lemma BestMovesBySpread(m: PayoffMatrix, role: PlayerRole, rounds: seq<RoundOutcome>, x: RoundOutcome, lo: int, hi: int)
    requires Strategies(m, role) != []
    requires forall s :: s in Strategies(m, role) ==> lo <= Pay(m, role, s, Opponent(role, x)) <= hi
    ensures lo <= Largest(AllFixed(m, role, rounds + [x])) - Largest(AllFixed(m, role, rounds)) <= hi
  {
    var ss := Strategies(m, role);
    var a, b := AllFixed(m, role, rounds), AllFixed(m, role, rounds + [x]);
    forall i | 0 <= i < |a| ensures lo <= b[i] - a[i] <= hi {
      AppendRound(m, role, ss[i], rounds, x);
    }
    LargestMoves(a, b, lo, hi);
  }

  // Every payoff of the game to the player in this role.
  predicate PaysWithin(m: PayoffMatrix, role: PlayerRole, lo: int, hi: int) {
    forall own, other :: own in Strategies(m, role) && other in Strategies(m, Other(role)) ==> lo <= Pay(m, role, own, other) <= hi
  }

  function Other(role: PlayerRole): PlayerRole {
    if role == Attacker then Defender else Attacker
  }

  lemma NextRegret(m: PayoffMatrix, role: PlayerRole, rounds: seq<RoundOutcome>, r: nat, lo: int, hi: int)
    requires Strategies(m, role) != [] && PaysWithin(m, role, lo, hi) && Recorded(m, rounds) && r + 1 < |rounds|
    ensures -(hi - lo) <= Regret(m, role, rounds[..r + 2]) - Regret(m, role, rounds[..r + 1]) <= hi - lo
  {
    assert rounds[..r + 2] == rounds[..r + 1] + [rounds[r + 1]];
    assert Truthful(m, rounds[r + 1]);
    RegretMovesBySpread(m, role, rounds[..r + 1], rounds[r + 1], lo, hi);
  }

  // ----- bounds -----

  function Abs(x: int): int {
    if x >= 0 then x else -x
  }

  // The largest payoff in absolute value.
  function Peak(entries: seq<PayoffEntry>): (p: nat)
    ensures forall i :: 0 <= i < |entries| ==> Abs(entries[i].attackerPayoff) <= p && Abs(entries[i].defenderPayoff) <= p
  {
    if entries == [] then 0
    else
      var last := entries[|entries| - 1];
      Max(Peak(entries[..|entries| - 1]), Max(Abs(last.attackerPayoff), Abs(last.defenderPayoff)))
  }

  lemma {:induction false} LookupFindsEntry(entries: seq<PayoffEntry>, a: StrategyId, d: StrategyId)
    ensures Lookup(entries, a, d).Some? ==> Lookup(entries, a, d).value in entries && Matches(Lookup(entries, a, d).value, a, d)
  {
    if entries != [] {
      LookupFindsEntry(entries[..|entries| - 1], a, d);
    }
  }

  lemma PayIsBounded(m: PayoffMatrix, role: PlayerRole, own: StrategyId, other: StrategyId)
    ensures Within(Pay(m, role, own, other), Peak(m.entries))
  {
    if role == Attacker {
      LookupFindsEntry(m.entries, own, other);
    } else {
      LookupFindsEntry(m.entries, other, own);
    }
  }

  predicate Within(x: int, bound: int) {
    -bound <= x <= bound
  }

  lemma SumIsWithin(xs: seq<int>, p: int)
    requires forall i :: 0 <= i < |xs| ==> Within(xs[i], p)
    ensures Within(Sum(xs), |xs| * p)
  {
    SumBounds(xs, -p, p);
    assert |xs| * (-p) == -(|xs| * p);
  }

  /** Every total of n rounds is at most n times the largest payoff. */
  lemma TotalsAreBounded(m: PayoffMatrix, role: PlayerRole, s: StrategyId, rounds: seq<RoundOutcome>)
    requires Recorded(m, rounds)
    ensures Within(Total(role, rounds), |rounds| * Peak(m.entries)) && Within(Fixed(m, role, s, rounds), |rounds| * Peak(m.entries))
  {
    forall r | 0 <= r < |rounds|
      ensures Within(Earnings(role, rounds)[r], Peak(m.entries)) && Within(Alternatives(m, role, s, rounds)[r], Peak(m.entries))
    {
      assert Truthful(m, rounds[r]);
      PayIsBounded(m, role, Own(role, rounds[r]), Opponent(role, rounds[r]));
      PayIsBounded(m, role, s, Opponent(role, rounds[r]));
    }
    SumIsWithin(Earnings(role, rounds), Peak(m.entries));
    SumIsWithin(Alternatives(m, role, s, rounds), Peak(m.entries));
  }

  // ----- which entry pays -----

  /** The first entry of a pair pays both players, each its own part; a pair without an entry pays nothing. */
  lemma FirstEntryPays(m: PayoffMatrix, a: StrategyId, d: StrategyId, i: nat)
    requires i <= |m.entries|
    requires forall j :: 0 <= j < i ==> !(m.entries[j].attacker == a && m.entries[j].defender == d)
    requires i < |m.entries| ==> m.entries[i].attacker == a && m.entries[i].defender == d
    ensures Pay(m, Attacker, a, d) == if i < |m.entries| then m.entries[i].attackerPayoff else 0
    ensures Pay(m, Defender, d, a) == if i < |m.entries| then m.entries[i].defenderPayoff else 0
  {
    NoEntryBefore(m.entries[..i], a, d);
    if i < |m.entries| {
      assert m.entries[..i + 1][..i] == m.entries[..i];
      LookupStays(m.entries, i + 1, a, d);
    } else {
      assert m.entries[..i] == m.entries;
    }
  }

  lemma {:induction false} NoEntryBefore(entries: seq<PayoffEntry>, a: StrategyId, d: StrategyId)
    requires forall j :: 0 <= j < |entries| ==> !Matches(entries[j], a, d)
    ensures Lookup(entries, a, d) == None
  {
    if entries != [] {
      NoEntryBefore(entries[..|entries| - 1], a, d);
    }
  }
}
