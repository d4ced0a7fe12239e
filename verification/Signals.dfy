/** Diminishing-returns combination of acquisition signal strengths. */
module Signals {
  import opened Machine
  import opened Arithmetic
  import opened Sequences

  predicate Descending(s: seq<nat>) {
    forall i, j :: 0 <= i < j < |s| ==> s[i] >= s[j]
  }

  function InsertDescending(v: nat, s: seq<nat>): (r: seq<nat>)
    requires Descending(s)
    ensures |r| == |s| + 1 && r[0] == (if s == [] then v else Max(v, s[0]))
    ensures Descending(r)
    ensures forall i :: 0 <= i < |s| ==> r[i] >= s[i]
  {
    if s == [] || v >= s[0] then [v] + s else [s[0]] + InsertDescending(v, s[1..])
  }

  function SortDescending(s: seq<nat>): (r: seq<nat>)
    ensures |r| == |s| && Descending(r)
  {
    if s == [] then [] else InsertDescending(s[0], SortDescending(s[1..]))
  }

  // The divisor in front of position i: doubled, saturating, once per earlier signal.
  function Divisor(i: nat): (d: nat)
    ensures 0 < d <= U64_MAX
  {
    if i == 0 then 1 else Min(Divisor(i - 1) * 2, U64_MAX)
  }

  function Share(s: nat, i: nat): (t: nat)
    ensures i == 0 ==> t == s
  {
    QuotientNonNegative(s, Divisor(i));
    s / Divisor(i)
  }

  function Terms(s: seq<nat>): (ts: seq<nat>)
    ensures |ts| == |s| && forall i :: 0 <= i < |s| ==> ts[i] == Share(s[i], i)
  {
    seq(|s|, i requires 0 <= i < |s| => Share(s[i], i))
  }

  // The saturated value of an unbounded sum.
  function Combine(strengths: seq<nat>): nat {
    SumIsNonNegative(Terms(SortDescending(strengths)));
    Min(Sum(Terms(SortDescending(strengths))), U64_MAX)
  }

  method CombineSignalStrengths(strengths: seq<u64>) returns (total: nat)
    ensures total == Combine(strengths)
  {
    if strengths == [] {
      return 0;
    }
    var sorted := SortDescending(strengths);
    ghost var ts := Terms(sorted);
    FirstIsLargest(strengths);
    total := sorted[0];
    SumAppend(ts, 0);
    var divisor := 2;
    var i := 1;
    while i < |sorted|
      invariant 1 <= i <= |sorted|
      invariant divisor == Divisor(i)
      invariant total == Min(Sum(ts[..i]), U64_MAX)
    {
      SumAppend(ts, i);
      QuotientNonNegative(sorted[i], divisor);
      var share := sorted[i] / divisor;
      assert share == ts[i];
      total := SatAdd(total, share);
      divisor := SatMul(divisor, 2);
      i := i + 1;
    }
    assert ts[..i] == ts;
  }

  // ----- sorting -----

  lemma {:induction false} InsertKeepsElements(v: nat, s: seq<nat>)
    requires Descending(s)
    ensures multiset(InsertDescending(v, s)) == multiset(s) + multiset{v}
  {
    if s != [] && v < s[0] {
      InsertKeepsElements(v, s[1..]);
      TailElements(s);
    }
  }

  lemma {:induction false} SortKeepsElements(s: seq<nat>)
    ensures multiset(SortDescending(s)) == multiset(s)
  {
    if s != [] {
      SortKeepsElements(s[1..]);
      InsertKeepsElements(s[0], SortDescending(s[1..]));
      assert s == [s[0]] + s[1..];
    }
  }

  lemma FirstIsLargest(s: seq<nat>)
    requires s != []
    ensures SortDescending(s)[0] in s
    ensures forall x :: x in s ==> x <= SortDescending(s)[0]
  {
    SortKeepsElements(s);
    var r := SortDescending(s);
    assert r[0] in multiset(s);
    forall x | x in s ensures x <= r[0] {
      assert x in multiset(r);
    }
  }

  lemma {:induction false} DescendingUnique(a: seq<nat>, b: seq<nat>)
    requires Descending(a) && Descending(b) && multiset(a) == multiset(b)
    ensures a == b
  {
    if a == [] {
      assert |multiset(b)| == 0;
    } else {
      assert |multiset(a)| == |a| && |multiset(b)| == |b|;
      assert a[0] in multiset(b) && b[0] in multiset(a);
      assert a[0] == b[0];
      TailElements(a);
      TailElements(b);
      DescendingUnique(a[1..], b[1..]);
    }
  }

  /** The composite does not depend on the order of the signals. */
  lemma CombineIgnoresOrder(a: seq<nat>, b: seq<nat>)
    requires multiset(a) == multiset(b)
    ensures Combine(a) == Combine(b)
  {
    SortKeepsElements(a);
    SortKeepsElements(b);
    DescendingUnique(SortDescending(a), SortDescending(b));
  }

  // ----- bounds -----

  lemma DivisorHalves(m: nat, i: nat)
    requires m < U64_MAX
    ensures 2 * Share(m, i + 1) <= Share(m, i)
  {
    var d := Divisor(i);
    if d * 2 <= U64_MAX {
      HalvedQuotient(m, d);
    } else {
      QuotientIs(m, Divisor(i + 1), 0);
    }
  }

  // Telescoping: what the later positions add is at most what the first one loses by halving.
  lemma {:induction false} SumTelescopes(ts: seq<nat>, h: seq<nat>)
    requires |ts| == |h| > 0
    requires forall i :: 0 <= i < |ts| ==> ts[i] <= h[i]
    requires forall i :: 0 < i < |h| ==> 2 * h[i] <= h[i - 1]
    ensures Sum(ts) + h[|h| - 1] <= 2 * h[0]
  {
    var k := |ts| - 1;
    if k == 0 {
      assert ts[..0] == [];
    } else {
      SumTelescopes(ts[..k], h[..k]);
    }
  }

  lemma {:induction false} SumDominates(a: seq<nat>, b: seq<nat>)
    requires |a| <= |b| && forall i :: 0 <= i < |a| ==> a[i] <= b[i]
    ensures Sum(a) <= Sum(b)
    decreases |b|
  {
    if |b| > 0 {
      var k := |b| - 1;
      if |a| == |b| {
        SumDominates(a[..k], b[..k]);
      } else {
        SumDominates(a, b[..k]);
      }
    }
  }

  lemma TermsDominate(a: seq<nat>, b: seq<nat>)
    requires |a| <= |b| && forall i :: 0 <= i < |a| ==> a[i] <= b[i]
    ensures forall i :: 0 <= i < |a| ==> Terms(a)[i] <= Terms(b)[i]
  {
    forall i | 0 <= i < |a| ensures Terms(a)[i] <= Terms(b)[i] {
      QuotientMonotone(a[i], b[i], Divisor(i));
    }
  }

  lemma FirstTermOnly(ts: seq<nat>)
    requires ts != []
    ensures Sum(ts) >= ts[0]
  {
    SumAppend(ts, 0);
    SumDominates(ts[..1], ts);
  }

  // A list bounded by m adds up to at most twice m.
  lemma TermsTelescope(s: seq<nat>, m: nat)
    requires s != [] && m < U64_MAX && forall i :: 0 <= i < |s| ==> s[i] <= m
    ensures Sum(Terms(s)) <= 2 * m
  {
    var flat := seq(|s|, i => m);
    var h := Terms(flat);
    TermsDominate(s, flat);
    forall i | 0 < i < |h| ensures 2 * h[i] <= h[i - 1] {
      DivisorHalves(m, i - 1);
    }
    SumTelescopes(Terms(s), h);
  }

  lemma SortedBounds(s: seq<nat>)
    requires s != [] && Descending(s)
    ensures s[0] <= Sum(Terms(s)) && (s[0] < U64_MAX ==> Sum(Terms(s)) <= 2 * s[0])
  {
    FirstTermOnly(Terms(s));
    if s[0] < U64_MAX {
      TermsTelescope(s, s[0]);
    }
  }

  /** The composite lies between the strongest signal and twice the strongest signal. */
  lemma CombineBounds(strengths: seq<u64>, m: u64)
    requires m in strengths && forall x :: x in strengths ==> x <= m
    ensures m <= Combine(strengths) <= Min(2 * (m as int), U64_MAX)
  {
    FirstIsLargest(strengths);
    SortedBounds(SortDescending(strengths));
  }

  // ----- diminishing returns -----

  function Pow2(i: nat): (p: nat)
    ensures p > 0
  {
    if i == 0 then 1 else 2 * Pow2(i - 1)
  }

  lemma PowersOfTwo()
    ensures Pow2(63) == 0x8000_0000_0000_0000
  {
    assert Pow2(8) == 0x100;
    assert Pow2(16) == 0x1_0000;
    assert Pow2(24) == 0x100_0000;
    assert Pow2(32) == 0x1_0000_0000;
    assert Pow2(40) == 0x100_0000_0000;
    assert Pow2(48) == 0x1_0000_0000_0000;
    assert Pow2(56) == 0x100_0000_0000_0000;
  }

  lemma {:induction false} PowersGrow(i: nat, j: nat)
    requires i <= j
    ensures Pow2(i) <= Pow2(j)
  {
    if i < j {
      PowersGrow(i, j - 1);
    }
  }

  /** The divisor doubles from position to position until it saturates at position 64. */
  lemma {:induction false} DivisorIsAPower(i: nat)
    ensures Divisor(i) == if i < 64 then Pow2(i) else U64_MAX
  {
    if i > 0 {
      DivisorIsAPower(i - 1);
      PowersOfTwo();
      if i < 64 {
        PowersGrow(i, 63);
      }
    }
  }

  // t is s over 2^i, rounded down; from position 64 on it is one for the largest 64-bit number and zero for all others.
  predicate IsTerm(t: int, s: int, i: nat) {
    if i < 64 then t * Pow2(i) <= s < (t + 1) * Pow2(i) else t == if s == U64_MAX then 1 else 0
  }

  lemma TermIsShare(t: int, s: u64, i: nat)
    ensures IsTerm(t, s, i) <==> t == Share(s, i)
  {
    DivisorIsAPower(i);
    if i < 64 {
      DivMod(s, Pow2(i));
      if IsTerm(t, s, i) {
        QuotientIs(s, Pow2(i), t);
      }
    } else {
      QuotientIs(s, U64_MAX, if s == U64_MAX then 1 else 0);
    }
  }

  lemma TermsAreUnique(sorted: seq<u64>, ts: seq<int>)
    requires |ts| == |sorted| && forall i :: 0 <= i < |ts| ==> IsTerm(ts[i], sorted[i], i)
    ensures ts == Terms(sorted)
  {
    forall i | 0 <= i < |ts| ensures ts[i] == Share(sorted[i], i) {
      TermIsShare(ts[i], sorted[i], i);
    }
  }

  /** The strongest signal counts in full, the next by half, the next by a quarter, and so on, each rounded down; from the
      65th on only the largest strength of all still counts one. */
  lemma SignalsCountByHalves(strengths: seq<u64>, sorted: seq<u64>, ts: seq<int>)
    requires multiset(sorted) == multiset(strengths) && Descending(sorted)
    requires |ts| == |sorted| && forall i :: 0 <= i < |ts| ==> IsTerm(ts[i], sorted[i], i)
    ensures Combine(strengths) == Min(Sum(ts), U64_MAX)
  {
    SortKeepsElements(strengths);
    DescendingUnique(SortDescending(strengths), sorted);
    TermsAreUnique(sorted, ts);
  }

  // ----- monotonicity -----

  lemma RemoveOne(b: seq<nat>, v: nat) returns (c: seq<nat>)
    requires v in b
    ensures multiset(b) == multiset(c) + multiset{v} && |c| == |b| - 1
  {
    var i :| 0 <= i < |b| && b[i] == v;
    c := b[..i] + b[i + 1..];
    assert b == b[..i] + [v] + b[i + 1..];
  }

  lemma OneMoreSignal(c: seq<nat>, v: nat, b: seq<nat>)
    requires multiset(b) == multiset(c) + multiset{v}
    ensures Combine(c) <= Combine(b)
  {
    var s := SortDescending(c);
    var t := InsertDescending(v, s);
    assert t == SortDescending(b) by {
      SortKeepsElements(c);
      SortKeepsElements(b);
      InsertKeepsElements(v, s);
      DescendingUnique(t, SortDescending(b));
    }
    TermsDominate(s, t);
    SumDominates(Terms(s), Terms(t));
  }

  /** More evidence never weakens the composite, wherever the further signals fall in the sorted order. */
  lemma {:induction false} CombineMonotone(a: seq<nat>, b: seq<nat>)
    requires multiset(a) <= multiset(b)
    ensures Combine(a) <= Combine(b)
    decreases |b|
  {
    var extra := multiset(b) - multiset(a);
    if extra == multiset{} {
      assert multiset(a) == multiset(b);
      CombineIgnoresOrder(a, b);
    } else {
      var v :| v in extra;
      var c := RemoveOne(b, v);
      CombineMonotone(a, c);
      OneMoreSignal(c, v, b);
    }
  }
}
