/** Splitting a budget over the kinds of proposed experiments. */
module Budget {
  import opened Machine
  import opened Arithmetic
  import opened Sequences
  import opened Oracle

  // The order in which kinds are visited.
  const KINDS: seq<ExperimentKind> :=
    [BoardCellProbe, CorpusAddition, AdversarialProbe, ShiftValidation, CoverageRecovery, HoleFilling, DarkMatterExploration]

  function CountKind(ps: seq<ExperimentProposal>, k: ExperimentKind): (n: nat)
    ensures n <= |ps|
  {
    if ps == [] then 0 else CountKind(ps[..|ps| - 1], k) + if ps[|ps| - 1].kind == k then 1 else 0
  }

  // The kinds that occur, in order.
  function Present(ps: seq<ExperimentProposal>, ks: seq<ExperimentKind>): seq<ExperimentKind> {
    if ks == [] then []
    else
      var before, last := Present(ps, ks[..|ks| - 1]), ks[|ks| - 1];
      if CountKind(ps, last) > 0 then before + [last] else before
  }

  function Counted(ps: seq<ExperimentProposal>, ks: seq<ExperimentKind>): nat {
    if ks == [] then 0 else Counted(ps, ks[..|ks| - 1]) + CountKind(ps, ks[|ks| - 1])
  }

  function Allotted(alloc: map<ExperimentKind, nat>, ks: seq<ExperimentKind>): nat {
    if ks == [] then 0
    else Allotted(alloc, ks[..|ks| - 1]) + if ks[|ks| - 1] in alloc then alloc[ks[|ks| - 1]] else 0
  }

  predicate Distinct(ks: seq<ExperimentKind>) {
    forall i, j :: 0 <= i < j < |ks| ==> ks[i] != ks[j]
  }

  // ----- every proposal is counted once -----

  lemma CountedAppend(ps: seq<ExperimentProposal>, ks: seq<ExperimentKind>, k: ExperimentKind)
    ensures Counted(ps, ks + [k]) == Counted(ps, ks) + CountKind(ps, k)
  {
    assert (ks + [k])[..|ks|] == ks;
  }

  lemma CountedKinds(ps: seq<ExperimentProposal>)
    ensures Counted(ps, KINDS) ==
            CountKind(ps, BoardCellProbe) + CountKind(ps, CorpusAddition) + CountKind(ps, AdversarialProbe)
            + CountKind(ps, ShiftValidation) + CountKind(ps, CoverageRecovery) + CountKind(ps, HoleFilling)
            + CountKind(ps, DarkMatterExploration)
  {
    var a := [BoardCellProbe];
    var b := a + [CorpusAddition];
    var c := b + [AdversarialProbe];
    var d := c + [ShiftValidation];
    var e := d + [CoverageRecovery];
    var f := e + [HoleFilling];
    assert [] + [BoardCellProbe] == a && f + [DarkMatterExploration] == KINDS;
    CountedAppend(ps, [], BoardCellProbe);
    CountedAppend(ps, a, CorpusAddition);
    CountedAppend(ps, b, AdversarialProbe);
    CountedAppend(ps, c, ShiftValidation);
    CountedAppend(ps, d, CoverageRecovery);
    CountedAppend(ps, e, HoleFilling);
    CountedAppend(ps, f, DarkMatterExploration);
  }

  lemma {:induction false} EveryProposalCounted(ps: seq<ExperimentProposal>)
    ensures Counted(ps, KINDS) == |ps|
  {
    CountedKinds(ps);
    if ps != [] {
      EveryProposalCounted(ps[..|ps| - 1]);
      CountedKinds(ps[..|ps| - 1]);
    }
  }

  lemma {:induction false} PresentCounted(ps: seq<ExperimentProposal>, ks: seq<ExperimentKind>)
    ensures Counted(ps, Present(ps, ks)) == Counted(ps, ks)
  {
    if ks != [] {
      var front, last := ks[..|ks| - 1], ks[|ks| - 1];
      PresentCounted(ps, front);
      CountedAppend(ps, Present(ps, front), last);
    }
  }

  lemma {:induction false} PresentIsDistinct(ps: seq<ExperimentProposal>, ks: seq<ExperimentKind>)
    requires Distinct(ks)
    ensures Distinct(Present(ps, ks)) && forall k :: k in Present(ps, ks) ==> k in ks
  {
    if ks != [] {
      var front, last := ks[..|ks| - 1], ks[|ks| - 1];
      PresentIsDistinct(ps, front);
      assert last !in front;
      assert last !in Present(ps, front);
    }
  }

  // ----- allocation -----

  lemma WithinTotal(total: int, handedOut: int, counted: int, n: int)
    requires 0 < n && 0 <= total && counted <= n && handedOut * n <= total * counted
    ensures handedOut <= total
  {
    MulMonotone(counted, n, total);
    assert (total + 1) * n == total * n + n;
    CancelFactor(handedOut, total, n);
  }

  lemma ShareArithmetic(total: int, handedOut: int, counted: int, n: int, c: int, share: int)
    requires 0 < n && 0 <= total && counted + c <= n && handedOut * n <= total * counted && share * n <= total * c
    ensures (handedOut + share) * n <= total * (counted + c) && handedOut + share <= total
  {
    assert (handedOut + share) * n == handedOut * n + share * n;
    assert total * (counted + c) == total * counted + total * c;
    WithinTotal(total, handedOut + share, counted + c, n);
  }

  lemma {:induction false} AllottedElsewhere(alloc: map<ExperimentKind, nat>, ks: seq<ExperimentKind>, k: ExperimentKind, v: nat)
    requires k !in ks
    ensures Allotted(alloc[k := v], ks) == Allotted(alloc, ks)
  {
    if ks != [] {
      AllottedElsewhere(alloc, ks[..|ks| - 1], k, v);
    }
  }

  lemma AllotOneMore(alloc: map<ExperimentKind, nat>, ks: seq<ExperimentKind>, i: nat, v: nat)
    requires i < |ks| && Distinct(ks)
    ensures Allotted(alloc[ks[i] := v], ks[..i + 1]) == Allotted(alloc, ks[..i]) + v
  {
    assert ks[..i + 1][..i] == ks[..i];
    AllottedElsewhere(alloc, ks[..i], ks[i], v);
  }

  lemma CountedOneMore(ps: seq<ExperimentProposal>, ks: seq<ExperimentKind>, i: nat)
    requires i < |ks|
    ensures Counted(ps, ks[..i + 1]) == Counted(ps, ks[..i]) + CountKind(ps, ks[i])
  {
    assert ks[..i + 1][..i] == ks[..i];
  }

  lemma {:induction false} CountedPrefix(ps: seq<ExperimentProposal>, ks: seq<ExperimentKind>, i: nat)
    requires i <= |ks|
    ensures Counted(ps, ks[..i]) <= Counted(ps, ks)
    decreases |ks| - i
  {
    if i == |ks| {
      assert ks[..i] == ks;
    } else {
      CountedOneMore(ps, ks, i);
      CountedPrefix(ps, ks, i + 1);
    }
  }

  // The rounded share of one kind, out of a product that may saturate.
  function ShareOf(total: nat, count: nat, n: nat): (s: nat)
    requires n > 0
  {
    QuotientNonNegative(SatMul(total, count), n);
    SatMul(total, count) / n
  }

  lemma ShareBound(total: nat, count: nat, n: nat)
    requires n > 0
    ensures ShareOf(total, count, n) * n <= total * count
  {
    DivMod(SatMul(total, count), n);
  }

  /** A kind's share of the budget is its part of the proposals, rounded down; a product beyond 64 bits saturates first. */
  lemma ShareIsProportional(total: nat, count: nat, n: nat)
    requires n > 0
    ensures ShareOf(total, count, n) * n <= Min(total * count, U64_MAX) < (ShareOf(total, count, n) + 1) * n
  {
    DivMod(SatMul(total, count), n);
  }

  // The shares of the first i kinds.
  function Shares(share: ExperimentKind -> nat, kinds: seq<ExperimentKind>, i: nat): nat
    requires i <= |kinds|
  {
    if i == 0 then 0 else Shares(share, kinds, i - 1) + share(kinds[i - 1])
  }

  lemma {:induction false} SharesBound(share: ExperimentKind -> nat, ps: seq<ExperimentProposal>, kinds: seq<ExperimentKind>,
                                       total: nat, i: nat)
    requires ps != [] && i <= |kinds| && Counted(ps, kinds) <= |ps|
    requires forall k :: share(k) * |ps| <= total * CountKind(ps, k)
    ensures Shares(share, kinds, i) * |ps| <= total * Counted(ps, kinds[..i])
    ensures Shares(share, kinds, i) <= total
  {
    if i > 0 {
      SharesBound(share, ps, kinds, total, i - 1);
      var k := kinds[i - 1];
      CountedOneMore(ps, kinds, i - 1);
      CountedPrefix(ps, kinds, i);
      ShareArithmetic(total, Shares(share, kinds, i - 1), Counted(ps, kinds[..i - 1]), |ps|, CountKind(ps, k), share(k));
    }
  }

  lemma SharesWithin(share: ExperimentKind -> nat, ps: seq<ExperimentProposal>, kinds: seq<ExperimentKind>, total: nat, i: nat)
    requires ps != [] && i <= |kinds| && Counted(ps, kinds) <= |ps|
    requires forall k :: share(k) == ShareOf(total, CountKind(ps, k), |ps|)
    ensures Shares(share, kinds, i) <= total
  {
    forall k ensures share(k) * |ps| <= total * CountKind(ps, k) {
      ShareBound(total, CountKind(ps, k), |ps|);
    }
    SharesBound(share, ps, kinds, total, i);
  }

  lemma {:induction false} CountKindIsPlaces(ps: seq<ExperimentProposal>, k: ExperimentKind)
    ensures CountKind(ps, k) == |Places(ps, (p: ExperimentProposal) => p.kind == k)|
  {
    if ps != [] {
      PlacesOfFront(ps, (p: ExperimentProposal) => p.kind == k);
      CountKindIsPlaces(ps[..|ps| - 1], k);
    }
  }

  function Position(k: ExperimentKind): nat {
    match k
    case BoardCellProbe => 0
    case CorpusAddition => 1
    case AdversarialProbe => 2
    case ShiftValidation => 3
    case CoverageRecovery => 4
    case HoleFilling => 5
    case DarkMatterExploration => 6
  }

  predicate InOrder(ks: seq<ExperimentKind>) {
    forall i, j :: 0 <= i < j < |ks| ==> Position(ks[i]) < Position(ks[j])
  }

  /** Exactly the kinds that are proposed get a share, in declaration order: the last of them takes the remainder. */
  lemma PresentKindsInOrder(ps: seq<ExperimentProposal>, k: ExperimentKind)
    ensures InOrder(Present(ps, KINDS))
    ensures k in Present(ps, KINDS) <==> exists i :: 0 <= i < |ps| && ps[i].kind == k
  {
    KindsInOrder();
    PresentIsInOrder(ps, KINDS);
    PresentIffCounted(ps, KINDS, k);
    ProposedIffCounted(ps, k);
  }

  lemma KindsInOrder()
    ensures InOrder(KINDS) && forall k :: k in KINDS
  {
    forall k ensures k in KINDS {
      assert KINDS[Position(k)] == k;
    }
  }

  lemma ProposedIffCounted(ps: seq<ExperimentProposal>, k: ExperimentKind)
    ensures CountKind(ps, k) > 0 <==> exists i :: 0 <= i < |ps| && ps[i].kind == k
  {
    CountKindIsPlaces(ps, k);
    var places := Places(ps, (p: ExperimentProposal) => p.kind == k);
    if i :| 0 <= i < |ps| && ps[i].kind == k {
      assert i in places;
    }
    if CountKind(ps, k) > 0 {
      var i :| i in places;
    }
  }

  lemma {:induction false} PresentIffCounted(ps: seq<ExperimentProposal>, ks: seq<ExperimentKind>, k: ExperimentKind)
    ensures k in Present(ps, ks) <==> k in ks && CountKind(ps, k) > 0
  {
    if ks != [] {
      var n := |ks| - 1;
      PresentIffCounted(ps, ks[..n], k);
      assert ks == ks[..n] + [ks[n]];
    }
  }

  lemma {:induction false} PresentIsInOrder(ps: seq<ExperimentProposal>, ks: seq<ExperimentKind>)
    requires InOrder(ks)
    ensures InOrder(Present(ps, ks))
  {
    if ks != [] {
      var n := |ks| - 1;
      var front := Present(ps, ks[..n]);
      PresentIsInOrder(ps, ks[..n]);
      forall i | 0 <= i < |front| ensures Position(front[i]) < Position(ks[n]) {
        PresentIffCounted(ps, ks[..n], front[i]);
        assert front[i] in ks[..n];
      }
    }
  }

  lemma KindsAreDistinct()
    ensures Distinct(KINDS)
  {
  }

  lemma PresentCoversAll(ps: seq<ExperimentProposal>, ks: seq<ExperimentKind>)
    requires Distinct(ks) && Counted(ps, ks) == |ps|
    ensures Counted(ps, Present(ps, ks)) == |ps| && Distinct(Present(ps, ks))
    ensures ps == [] <==> Present(ps, ks) == []
  {
    PresentCounted(ps, ks);
    PresentIsDistinct(ps, ks);
    if ps == [] {
      NothingPresent(ks);
    }
  }

  lemma OneMoreKind(kinds: seq<ExperimentKind>, i: nat)
    requires i < |kinds|
    ensures forall k :: k in kinds[..i + 1] <==> k in kinds[..i] || k == kinds[i]
  {
    assert kinds[..i + 1] == kinds[..i] + [kinds[i]];
  }

  // The first i kinds, and only they, have their shares.
  predicate Served(share: ExperimentKind -> nat, kinds: seq<ExperimentKind>, alloc: map<ExperimentKind, nat>, i: nat)
    requires i <= |kinds|
  {
    && (forall k :: k in alloc <==> k in kinds[..i])
    && (forall j :: 0 <= j < i ==> kinds[j] in alloc && alloc[kinds[j]] == share(kinds[j]))
    && Allotted(alloc, kinds[..i]) == Shares(share, kinds, i)
  }

  lemma ServeOneMore(share: ExperimentKind -> nat, kinds: seq<ExperimentKind>, alloc: map<ExperimentKind, nat>, i: nat)
    requires i < |kinds| && Distinct(kinds) && Served(share, kinds, alloc, i)
    ensures Served(share, kinds, alloc[kinds[i] := share(kinds[i])], i + 1)
  {
    AllotOneMore(alloc, kinds, i, share(kinds[i]));
    OneMoreKind(kinds, i);
  }

  lemma ServeTheLast(share: ExperimentKind -> nat, kinds: seq<ExperimentKind>, alloc: map<ExperimentKind, nat>, rest: nat)
    requires kinds != [] && Distinct(kinds) && Served(share, kinds, alloc, |kinds| - 1)
    ensures var all := alloc[kinds[|kinds| - 1] := rest];
            && Allotted(all, kinds) == Shares(share, kinds, |kinds| - 1) + rest
            && (forall k :: k in all <==> k in kinds)
            && (forall i :: 0 <= i < |kinds| - 1 ==> all[kinds[i]] == share(kinds[i]))
  {
    var last := |kinds| - 1;
    assert kinds[..last + 1] == kinds;
    AllotOneMore(alloc, kinds, last, rest);
    OneMoreKind(kinds, last);
    forall i | 0 <= i < last ensures kinds[i] != kinds[last] && kinds[i] in alloc {
    }
  }

  // Everybody but the last kind gets its rounded share, the last kind the remainder.
  method HandOut(share: ExperimentKind -> nat, kinds: seq<ExperimentKind>, total: nat) returns (alloc: map<ExperimentKind, nat>)
    requires kinds != [] && Distinct(kinds) && total <= U64_MAX
    requires forall i :: 0 <= i <= |kinds| ==> Shares(share, kinds, i) <= total
    ensures Allotted(alloc, kinds) == total
    ensures forall k :: k in alloc <==> k in kinds
    ensures forall i :: 0 <= i < |kinds| - 1 ==> alloc[kinds[i]] == share(kinds[i])
  {
    alloc := map[];
    var handedOut := 0;
    var i := 0;
    while i < |kinds| - 1
      invariant 0 <= i < |kinds| && Served(share, kinds, alloc, i)
      invariant handedOut == Shares(share, kinds, i)
    {
      ServeOneMore(share, kinds, alloc, i);
      assert Shares(share, kinds, i + 1) <= total;
      alloc := alloc[kinds[i] := share(kinds[i])];
      handedOut := SatAdd(handedOut, share(kinds[i]));
      i := i + 1;
    }
    ServeTheLast(share, kinds, alloc, SatSub(total, handedOut));
    alloc := alloc[kinds[i] := SatSub(total, handedOut)];
  }

  /** The shares of the kinds that occur add up to exactly the budget, whatever is lost to rounding or saturation. */
  method AllocateBudgetByKind(ps: seq<ExperimentProposal>, total: u64) returns (alloc: map<ExperimentKind, nat>)
    ensures ps == [] ==> alloc == map[]
    ensures ps != [] ==> Allotted(alloc, Present(ps, KINDS)) == total
    ensures forall k :: k in alloc <==> k in Present(ps, KINDS)
    ensures ps != [] ==>
              var kinds := Present(ps, KINDS);
              forall i :: 0 <= i < |kinds| - 1 ==> alloc[kinds[i]] == ShareOf(total, CountKind(ps, kinds[i]), |ps|)
  {
    KindsAreDistinct();
    EveryProposalCounted(ps);
    PresentCoversAll(ps, KINDS);
    if |ps| == 0 {
      return map[];
    }
    var kinds := Present(ps, KINDS);
    var share := k => ShareOf(total, CountKind(ps, k), |ps|);
    forall i | 0 <= i <= |kinds| ensures Shares(share, kinds, i) <= total {
      SharesWithin(share, ps, kinds, total, i);
    }
    alloc := HandOut(share, kinds, total);
  }

  lemma {:induction false} NothingPresent(ks: seq<ExperimentKind>)
    ensures Present([], ks) == []
  {
    if ks != [] {
      NothingPresent(ks[..|ks| - 1]);
    }
  }
}
