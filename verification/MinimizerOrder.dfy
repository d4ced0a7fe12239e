/** Which deletions the minimizer tries, and in which order. */
module MinimizerOrder {
  import opened Machine
  import opened Arithmetic
  import opened Sequences
  import opened Campaign
  import opened Minimizer

  // ----- which windows are tried, and in which order -----

  function Pow2(j: nat): (p: nat)
    ensures p > 0
  {
    if j == 0 then 1 else 2 * Pow2(j - 1)
  }

  lemma HalveAgain(w: nat, j: nat)
    ensures (w / 2) / Pow2(j) == w / Pow2(j + 1) >= 0
  {
    DivMod(w / 2, Pow2(j));
    DivMod(w, 2 * Pow2(j));
    QuotientNonNegative(w / 2, Pow2(j));
    QuotientNonNegative(w, 2 * Pow2(j));
    HalvedTwice(w, Pow2(j), (w / 2) / Pow2(j));
  }

  lemma HalfIsPositive(n: nat, j: nat)
    requires (n / 2) / Pow2(j) > 0
    ensures n / 2 > 0
  {
    if n / 2 == 0 {
      QuotientIs(0, Pow2(j), 0);
    }
  }

  lemma HalvedTwice(w: int, p: int, q: int)
    requires 0 <= w && 0 < p && q * p <= w / 2 < (q + 1) * p
    ensures w / (2 * p) == q
  {
    assert q * (2 * p) <= w < (q + 1) * (2 * p);
    QuotientIs(w, 2 * p, q);
  }

  lemma {:induction false} QuietAt(f: AdversarialCampaign -> bool, c: AdversarialCampaign, w: nat, start: nat, k: nat)
    requires w > 0 && Quiet(f, c, w, start) && start + k * w < |c.steps|
    ensures !Removable(f, c, w, start + k * w)
    decreases k
  {
    if k > 0 {
      assert start + k * w == (start + w) + (k - 1) * w && (k - 1) * w >= 0;
      QuietAt(f, c, w, start + w, k - 1);
    }
  }

  lemma {:induction false} StubbornAt(f: AdversarialCampaign -> bool, c: AdversarialCampaign, w: nat, j: nat)
    requires w > 0 && w / Pow2(j) > 0 && Stubborn(f, c, w)
    ensures Quiet(f, c, w / Pow2(j), 0)
    decreases j
  {
    if j == 0 {
      assert w / 1 == w;
    } else {
      HalveAgain(w, j - 1);
      HalfIsPositive(w, j - 1);
      StubbornAt(f, c, w / 2, j - 1);
    }
  }

  /** A minimizer that removes nothing has tried half of the steps, a quarter, and so on down to single steps, at every
      multiple of each width, and none of these deletions kept the failure. */
  lemma EveryWindowWasTried(f: AdversarialCampaign -> bool, c: AdversarialCampaign, m: AdversarialCampaign,
                            proof: MinimizationProof, j: nat, k: nat)
    requires Minimized(f, c, m, proof) && proof.removedSteps == 0 && (|c.steps| / 2) / Pow2(j) > 0
    requires k * ((|c.steps| / 2) / Pow2(j)) < |c.steps|
    ensures var w := (|c.steps| / 2) / Pow2(j);
            var start, end := k * w, Min(k * w + w, |c.steps|);
            !f(c.(steps := Renumber(c.steps[..start] + c.steps[end..]), campaignId := c.campaignId + "-min"))
  {
    HalfIsPositive(|c.steps|, j);
    var w := (|c.steps| / 2) / Pow2(j);
    StubbornAt(f, c, InitialChunk(c), j);
    assert k * w >= 0;
    QuietAt(f, c, w, 0, k);
    assert w <= |c.steps| / 2 by { DivMod(|c.steps| / 2, Pow2(j)); AtMost(w, Pow2(j), |c.steps| / 2); }
    assert Tried(c, w, k * w);
  }

  lemma AtMost(q: int, p: int, n: int)
    requires 0 <= q && 1 <= p && q * p <= n
    ensures q <= n
  {
    MulMonotone(1, p, q);
  }

  /** The first window is half of the steps: if that deletion keeps the failure, something is removed. */
  lemma FirstHalfIsTried(f: AdversarialCampaign -> bool, c: AdversarialCampaign, m: AdversarialCampaign, proof: MinimizationProof)
    requires Minimized(f, c, m, proof) && |c.steps| >= 2 && f(Candidate(c, 0, |c.steps| / 2))
    ensures proof.removedSteps > 0
  {
    assert !Quiet(f, c, InitialChunk(c), 0);
  }

  // No window of width w can be deleted at from, from + w, and so on before to.
  predicate Clear(f: AdversarialCampaign -> bool, c: AdversarialCampaign, w: nat, from: nat, to: nat)
    requires w > 0
    decreases if from < to then to - from else 0
  {
    from < to ==> !Removable(f, c, w, from) && Clear(f, c, w, from + w, to)
  }

  lemma {:induction false} ClearIsSkipped(f: AdversarialCampaign -> bool, c: AdversarialCampaign, w: nat, from: nat, k: nat)
    requires w > 0 && from + k * w < |c.steps| && Clear(f, c, w, from, from + k * w)
    ensures Swept(f, c, w, from) == Swept(f, c, w, from + k * w)
    decreases k
  {
    if k > 0 {
      assert from + k * w == (from + w) + (k - 1) * w && k * w > 0;
      ClearIsSkipped(f, c, w, from + w, k - 1);
    }
  }

  /** Within a round the first window that can be deleted goes first, and the round goes on at its place. */
  lemma FirstRemovableGoesFirst(f: AdversarialCampaign -> bool, c: AdversarialCampaign, w: nat, k: nat)
    requires w > 0 && k * w < |c.steps| && Clear(f, c, w, 0, k * w) && Removable(f, c, w, k * w)
    ensures Swept(f, c, w, 0) == Swept(f, Candidate(c, k * w, Min(k * w + w, |c.steps|)), w, k * w)
  {
    ClearIsSkipped(f, c, w, 0, k);
  }

  // ----- the predicate that never rejects -----

  function LastPayload(c: AdversarialCampaign): Payload
    requires c.steps != []
  {
    Payloads(c.steps)[|c.steps| - 1]
  }

  lemma {:induction false} SweepKeepsLast(f: AdversarialCampaign -> bool, c: AdversarialCampaign, w: nat)
    requires w > 0 && c.steps != [] && forall d :: f(d)
    ensures Swept(f, c, w, 0).steps != [] && LastPayload(Swept(f, c, w, 0)) == LastPayload(c)
    decreases |c.steps|
  {
    if w < |c.steps| {
      var d := Candidate(c, 0, w);
      SweepKeepsLast(f, d, w);
      assert LastPayload(d) == LastPayload(c);
      assert Removable(f, c, w, 0);
    }
  }

  lemma {:induction false} ShrinkingKeepsLast(f: AdversarialCampaign -> bool, c: AdversarialCampaign, w: nat)
    requires w > 0 && c.steps != [] && forall d :: f(d)
    ensures Shrunk(f, c, w).0.steps != [] && LastPayload(Shrunk(f, c, w).0) == LastPayload(c)
    decreases |c.steps|, w
  {
    SweepKeepsLast(f, c, w);
    var d := Swept(f, c, w, 0);
    if |d.steps| < |c.steps| {
      ShrinkingKeepsLast(f, d, w);
    } else if w > 1 {
      ShrinkingKeepsLast(f, c, w / 2);
    }
  }

  /** A predicate that never rejects leaves exactly the last step: deletions start at the front. */
  lemma TheLastStepRemains(f: AdversarialCampaign -> bool, c: AdversarialCampaign, m: AdversarialCampaign, proof: MinimizationProof)
    requires Minimized(f, c, m, proof) && (m, proof.rounds) == Shrunk(f, c, InitialChunk(c)) && forall d :: f(d)
    requires ValidCampaign(c)
    ensures m.steps == [c.steps[|c.steps| - 1].(stepId := 0)]
  {
    AlwaysFailingLeavesOneStep(f, c, m, proof);
    ShrinkingKeepsLast(f, c, InitialChunk(c));
    assert m.steps[0].stepId == 0;
    assert Payloads(m.steps)[0] == Payloads(c.steps)[|c.steps| - 1];
  }

  /** Four steps under the predicate that never rejects: two deletions in four rounds, of widths 2, 2, 1 and 1. */
  lemma FourStepsInFourRounds(f: AdversarialCampaign -> bool, c: AdversarialCampaign)
    requires |c.steps| == 4 && forall d :: f(d)
    ensures Shrunk(f, c, InitialChunk(c)) ==
            (c.(steps := [c.steps[3].(stepId := 0)], campaignId := c.campaignId + "-min" + "-min"), 4)
  {
    var d := Candidate(c, 0, 2);
    var e := Candidate(d, 0, 1);
    assert Removable(f, c, 2, 0) && Removable(f, d, 1, 0);
    assert Swept(f, c, 2, 0) == Swept(f, d, 2, 0) == d;
    assert Swept(f, d, 1, 0) == Swept(f, e, 1, 0) == e;
    assert Shrunk(f, e, 1) == (e, 1);
    assert Shrunk(f, d, 1) == (e, 2);
    assert Shrunk(f, d, 2) == (e, 3);
    assert e.steps == [c.steps[3].(stepId := 0)];
  }
}
