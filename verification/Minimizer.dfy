/** The delta-debugging minimizer of failing campaigns. */
module Minimizer {
  import opened Machine
  import opened Sequences
  import opened Campaign

  datatype MinimizationProof = MinimizationProof(rounds: nat, removedSteps: nat, isFixedPoint: bool)

  // A step without its number, which minimization rewrites.
  datatype Payload = Payload(dimension: AttackDimension, production: string, kind: AttackStepKind)

  function Payloads(steps: seq<AttackStep>): (p: seq<Payload>)
    ensures |p| == |steps|
    ensures forall i :: 0 <= i < |p| ==> p[i] == Payload(steps[i].dimension, steps[i].productionLabel, steps[i].kind)
  {
    seq(|steps|, i requires 0 <= i < |steps| => Payload(steps[i].dimension, steps[i].productionLabel, steps[i].kind))
  }

  // ----- subsequences -----

  // pos lists, in increasing order, where each element of s is found in t
  predicate Embeds<T(==)>(pos: seq<nat>, s: seq<T>, t: seq<T>) {
    && |pos| == |s|
    && (forall i :: 0 <= i < |pos| ==> pos[i] < |t| && s[i] == t[pos[i]])
    && (forall i, j :: 0 <= i < j < |pos| ==> pos[i] < pos[j])
  }

  ghost predicate Subsequence<T(!new)>(s: seq<T>, t: seq<T>) {
    exists pos: seq<nat> :: Embeds(pos, s, t)
  }

  // An increasing list of fewer than n positions below n leaves one out.
  lemma {:induction false} MissedPosition(pos: seq<nat>, n: nat) returns (k: nat)
    requires |pos| < n
    requires forall i, j :: 0 <= i < j < |pos| ==> pos[i] < pos[j]
    requires forall i :: 0 <= i < |pos| ==> pos[i] < n
    ensures k < n && k !in pos
  {
    if |pos| == 0 || pos[|pos| - 1] != n - 1 {
      k := n - 1;
      forall i | 0 <= i < |pos| ensures pos[i] != k {
        assert pos[i] <= pos[|pos| - 1];
      }
    } else {
      var last := |pos| - 1;
      assert forall i :: 0 <= i < last ==> pos[i] < pos[last];
      k := MissedPosition(pos[..last], n - 1);
      assert pos == pos[..last] + [pos[last]];
    }
  }

  // A proper subsequence survives the deletion of one well-chosen element.
  lemma SubsequenceOfDeletion<T(!new)>(s: seq<T>, t: seq<T>) returns (k: nat)
    requires Subsequence(s, t) && |s| < |t|
    ensures k < |t| && Subsequence(s, Omit(t, k))
  {
    var pos: seq<nat> :| Embeds(pos, s, t);
    k := MissedPosition(pos, |t|);
    EmbedsAround(pos, s, t, k);
    assert Embeds(Shifted(pos, k), s, Omit(t, k));
  }

  function Shifted(pos: seq<nat>, k: nat): (r: seq<nat>)
    ensures |r| == |pos| && forall i :: 0 <= i < |r| ==> r[i] == if pos[i] <= k then pos[i] else pos[i] - 1
  {
    seq(|pos|, i requires 0 <= i < |pos| => if pos[i] <= k then pos[i] else pos[i] - 1)
  }

  lemma EmbedsAround<T>(pos: seq<nat>, s: seq<T>, t: seq<T>, k: nat)
    requires Embeds(pos, s, t) && k < |t| && k !in pos
    ensures Embeds(Shifted(pos, k), s, Omit(t, k))
  {
    forall i | 0 <= i < |pos| ensures pos[i] != k {
      assert pos[i] in pos;
    }
  }

  // ----- the loop -----

  // The campaign tried after deleting the window [start, end).
  function Candidate(c: AdversarialCampaign, start: nat, end: nat): AdversarialCampaign
    requires start <= end <= |c.steps|
  {
    c.(steps := Renumber(Without(c.steps, start, end)), campaignId := c.campaignId + "-min")
  }

  function StepDeleted(c: AdversarialCampaign, k: nat): AdversarialCampaign
    requires k < |c.steps|
  {
    Candidate(c, k, k + 1)
  }

  predicate OneMinimal(f: AdversarialCampaign -> bool, c: AdversarialCampaign) {
    |c.steps| > 1 ==> forall k :: 0 <= k < |c.steps| ==> !f(StepDeleted(c, k))
  }

  function Log2(n: nat): nat
    requires n > 0
  {
    if n == 1 then 0 else 1 + Log2(n / 2)
  }

  function InitialChunk(c: AdversarialCampaign): nat {
    Max(|c.steps| / 2, 1)
  }

  function Suffixed(id: string, k: nat): string {
    if k == 0 then id else Suffixed(id, k - 1) + "-min"
  }

  function WindowEnd(c: AdversarialCampaign, w: nat, start: nat): nat {
    Min(start + w, |c.steps|)
  }

  // A window is tried unless it is the whole campaign.
  predicate Tried(c: AdversarialCampaign, w: nat, start: nat) {
    start < |c.steps| && WindowEnd(c, w, start) - start < |c.steps|
  }

  // From start on, no window of width w can be deleted without losing the failure.
  predicate Quiet(f: AdversarialCampaign -> bool, c: AdversarialCampaign, w: nat, start: nat)
    requires w > 0
    decreases |c.steps| - start
  {
    start < |c.steps| ==>
      && (Tried(c, w, start) ==> !f(Candidate(c, start, WindowEnd(c, w, start))))
      && Quiet(f, c, w, start + w)
  }

  // No aligned window of width w, w/2, w/4, ..., 1 can be deleted.
  predicate Stubborn(f: AdversarialCampaign -> bool, c: AdversarialCampaign, w: nat)
    requires w > 0
  {
    Quiet(f, c, w, 0) && (w > 1 ==> Stubborn(f, c, w / 2))
  }

  /** What the minimizer promises about a result m obtained from the failing campaign c. */
  ghost predicate Minimized(f: AdversarialCampaign -> bool, c: AdversarialCampaign,
                            m: AdversarialCampaign, proof: MinimizationProof)
  {
    && ValidCampaign(m) && f(m)
    && Subsequence(Payloads(m.steps), Payloads(c.steps))
    && proof.removedSteps + |m.steps| == |c.steps|
    && OneMinimal(f, m)
    && proof.isFixedPoint
    && proof.rounds <= proof.removedSteps + Log2(InitialChunk(c)) + 1
    && (exists k: nat :: k <= proof.removedSteps && m == c.(steps := m.steps, campaignId := Suffixed(c.campaignId, k)))
    && (proof.removedSteps == 0 <==> Stubborn(f, c, InitialChunk(c)))
  }

  // ----- the deletions, in the order they are made -----

  predicate Removable(f: AdversarialCampaign -> bool, c: AdversarialCampaign, w: nat, start: nat) {
    Tried(c, w, start) && f(Candidate(c, start, WindowEnd(c, w, start)))
  }

  // The campaign after one round from position start: a deletion is followed by another try at the same position.
  function Swept(f: AdversarialCampaign -> bool, c: AdversarialCampaign, w: nat, start: nat): (r: AdversarialCampaign)
    requires w > 0
    ensures |r.steps| <= |c.steps| && (|r.steps| == |c.steps| ==> r == c)
    decreases |c.steps| - start
  {
    if start >= |c.steps| then c
    else if Removable(f, c, w, start) then Swept(f, Candidate(c, start, WindowEnd(c, w, start)), w, start)
    else Swept(f, c, w, start + w)
  }

  lemma {:induction false} UnsweptIffQuiet(f: AdversarialCampaign -> bool, c: AdversarialCampaign, w: nat, start: nat)
    requires w > 0
    ensures |Swept(f, c, w, start).steps| == |c.steps| <==> Quiet(f, c, w, start)
    decreases |c.steps| - start
  {
    if start < |c.steps| && !Removable(f, c, w, start) {
      UnsweptIffQuiet(f, c, w, start + w);
    }
  }

  lemma {:induction false} QuietSteps(f: AdversarialCampaign -> bool, c: AdversarialCampaign, start: nat, k: nat)
    requires |c.steps| > 1 && Quiet(f, c, 1, start) && start <= k < |c.steps|
    ensures !f(StepDeleted(c, k))
    decreases k - start
  {
    if start < k {
      QuietSteps(f, c, start + 1, k);
    }
  }

  lemma QuietIsOneMinimal(f: AdversarialCampaign -> bool, c: AdversarialCampaign)
    requires Quiet(f, c, 1, 0)
    ensures OneMinimal(f, c)
  {
    if |c.steps| > 1 {
      forall k | 0 <= k < |c.steps| ensures !f(StepDeleted(c, k)) {
        QuietSteps(f, c, 0, k);
      }
    }
  }

  lemma SweptFacts(f: AdversarialCampaign -> bool, c: AdversarialCampaign, w: nat)
    requires w > 0
    ensures |Swept(f, c, w, 0).steps| == |c.steps| <==> Quiet(f, c, w, 0)
    ensures Quiet(f, c, 1, 0) ==> OneMinimal(f, c)
  {
    UnsweptIffQuiet(f, c, w, 0);
    if Quiet(f, c, 1, 0) {
      QuietIsOneMinimal(f, c);
    }
  }

  // What repeated rounds leave of the campaign, and how many there are: the width is halved after a round without deletion.
  function Shrunk(f: AdversarialCampaign -> bool, c: AdversarialCampaign, w: nat): (AdversarialCampaign, nat)
    requires w > 0
    decreases |c.steps|, w
  {
    var d := Swept(f, c, w, 0);
    if |d.steps| < |c.steps| then var (m, n) := Shrunk(f, d, w); (m, n + 1)
    else if w == 1 then (c, 1)
    else var (m, n) := Shrunk(f, c, w / 2); (m, n + 1)
  }

  lemma {:induction false} ShrunkFacts(f: AdversarialCampaign -> bool, c: AdversarialCampaign, w: nat)
    requires w > 0
    ensures var (m, n) := Shrunk(f, c, w);
            && OneMinimal(f, m) && |m.steps| <= |c.steps|
            && n + |m.steps| <= |c.steps| + Log2(w) + 1
            && (|m.steps| == |c.steps| <==> Stubborn(f, c, w))
    decreases |c.steps|, w
  {
    var d := Swept(f, c, w, 0);
    UnsweptIffQuiet(f, c, w, 0);
    if |d.steps| < |c.steps| {
      ShrunkFacts(f, d, w);
    } else if w == 1 {
      QuietIsOneMinimal(f, c);
    } else {
      ShrunkFacts(f, c, w / 2);
    }
  }

  lemma CandidateIsValid(c: AdversarialCampaign, start: nat, end: nat)
    requires ValidCampaign(c) && start < end <= |c.steps| && end - start < |c.steps|
    ensures ValidCampaign(Candidate(c, start, end))
  {
    var d := Candidate(c, start, end);
    assert |c.steps| <= TWO_32 by {
      assert c.steps[|c.steps| - 1].stepId == |c.steps| - 1;
    }
    var i :| 0 <= i < |c.campaignId| && !IsWhitespace(c.campaignId[i]);
    assert d.campaignId[i] == c.campaignId[i];
    forall i | 0 <= i < |d.steps| ensures d.steps[i].stepId == i && !IsBlank(d.steps[i].productionLabel) {
      var j := if i < start then i else i + (end - start);
      assert Without(c.steps, start, end)[i] == c.steps[j];
    }
  }

  lemma CandidateEmbeds(c: AdversarialCampaign, start: nat, end: nat, pos: seq<nat>, t: seq<Payload>)
    requires start < end <= |c.steps| && Embeds(pos, Payloads(c.steps), t)
    ensures Embeds(Without(pos, start, end), Payloads(Candidate(c, start, end).steps), t)
  {
    var kept := Without(pos, start, end);
    var s := Payloads(Candidate(c, start, end).steps);
    forall i | 0 <= i < |kept| ensures kept[i] < |t| && s[i] == t[kept[i]] {
      var j := if i < start then i else i + (end - start);
      assert kept[i] == pos[j] && s[i] == Payloads(c.steps)[j];
    }
  }

  // What the loops keep: a valid failing campaign made of steps of the original, found at pos.
  predicate Progress(f: AdversarialCampaign -> bool, c: AdversarialCampaign, m: AdversarialCampaign, pos: seq<nat>,
                     removed: nat, accepted: nat)
  {
    && ValidCampaign(m) && f(m)
    && Embeds(pos, Payloads(m.steps), Payloads(c.steps))
    && removed + |m.steps| == |c.steps| && accepted <= removed
    && m == c.(steps := m.steps, campaignId := Suffixed(c.campaignId, accepted))
  }

  lemma ProgressOnAcceptance(f: AdversarialCampaign -> bool, c: AdversarialCampaign, m: AdversarialCampaign, pos: seq<nat>,
                             removed: nat, accepted: nat, start: nat, end: nat)
    requires Progress(f, c, m, pos, removed, accepted) && start < end <= |m.steps| && end - start < |m.steps|
    requires f(Candidate(m, start, end))
    ensures Progress(f, c, Candidate(m, start, end), Without(pos, start, end), removed + (end - start), accepted + 1)
  {
    CandidateIsValid(m, start, end);
    CandidateEmbeds(m, start, end, pos, Payloads(c.steps));
  }

  lemma {:induction false} SweepProgresses(f: AdversarialCampaign -> bool, c: AdversarialCampaign, m: AdversarialCampaign, w: nat,
                                           start: nat, pos: seq<nat>, removed: nat, accepted: nat)
    returns (pos': seq<nat>, removed': nat, accepted': nat)
    requires w > 0 && Progress(f, c, m, pos, removed, accepted)
    ensures Progress(f, c, Swept(f, m, w, start), pos', removed', accepted')
    decreases |m.steps| - start
  {
    if start >= |m.steps| {
      return pos, removed, accepted;
    }
    if Removable(f, m, w, start) {
      var end := WindowEnd(m, w, start);
      ProgressOnAcceptance(f, c, m, pos, removed, accepted, start, end);
      pos', removed', accepted' := SweepProgresses(f, c, Candidate(m, start, end), w, start, Without(pos, start, end),
                                                   removed + (end - start), accepted + 1);
    } else {
      pos', removed', accepted' := SweepProgresses(f, c, m, w, start + w, pos, removed, accepted);
    }
  }

  lemma {:induction false} ShrinkingProgresses(f: AdversarialCampaign -> bool, c: AdversarialCampaign, m: AdversarialCampaign, w: nat,
                                               pos: seq<nat>, removed: nat, accepted: nat)
    returns (pos': seq<nat>, removed': nat, accepted': nat)
    requires w > 0 && Progress(f, c, m, pos, removed, accepted)
    ensures Progress(f, c, Shrunk(f, m, w).0, pos', removed', accepted')
    decreases |m.steps|, w
  {
    var d := Swept(f, m, w, 0);
    if |d.steps| < |m.steps| {
      pos', removed', accepted' := SweepProgresses(f, c, m, w, 0, pos, removed, accepted);
      pos', removed', accepted' := ShrinkingProgresses(f, c, d, w, pos', removed', accepted');
    } else if w == 1 {
      return pos, removed, accepted;
    } else {
      pos', removed', accepted' := ShrinkingProgresses(f, c, m, w / 2, pos, removed, accepted);
    }
  }

  lemma ShrunkIsMinimized(f: AdversarialCampaign -> bool, c: AdversarialCampaign, m: AdversarialCampaign, proof: MinimizationProof)
    requires ValidCampaign(c) && f(c) && proof.isFixedPoint && (m, proof.rounds) == Shrunk(f, c, InitialChunk(c))
    requires proof.removedSteps + |m.steps| == |c.steps|
    ensures Minimized(f, c, m, proof)
  {
    var all: seq<nat> := seq(|c.steps|, i => i);
    assert Progress(f, c, c, all, 0, 0);
    var pos, removed, accepted := ShrinkingProgresses(f, c, c, InitialChunk(c), all, 0, 0);
    ShrunkFacts(f, c, InitialChunk(c));
  }

  // One round: every window of the given width is tried, and a deletion that keeps the failure is taken at once.
  method Sweep(stillFails: AdversarialCampaign -> bool, before: AdversarialCampaign, chunk: nat, removedBefore: nat)
    returns (current: AdversarialCampaign, removedSteps: nat, changed: bool)
    requires chunk > 0
    ensures current == Swept(stillFails, before, chunk, 0)
    ensures removedSteps + |current.steps| == removedBefore + |before.steps|
    ensures changed <==> |current.steps| < |before.steps|
    ensures !changed <==> Quiet(stillFails, before, chunk, 0)
    ensures !changed && chunk == 1 ==> OneMinimal(stillFails, current)
  {
    SweptFacts(stillFails, before, chunk);
    current, removedSteps, changed := before, removedBefore, false;
    var start := 0;
    while start < |current.steps|
      invariant removedSteps + |current.steps| == removedBefore + |before.steps|
      invariant |current.steps| <= |before.steps| && (changed <==> |current.steps| < |before.steps|)
      invariant Swept(stillFails, current, chunk, start) == Swept(stillFails, before, chunk, 0)
      decreases |current.steps| - start
    {
      if |current.steps| <= 1 {
        break;
      }
      var candidate := TryWindow(stillFails, current, start, chunk);
      if candidate.Some? {
        removedSteps := removedSteps + (|current.steps| - |candidate.value.steps|);
        current := candidate.value;
        changed := true;
      } else {
        start := start + chunk;
      }
    }
  }

  // The campaign without the window at start, if it has steps and still fails.
  method TryWindow(stillFails: AdversarialCampaign -> bool, current: AdversarialCampaign, start: nat, chunk: nat)
    returns (r: Option<AdversarialCampaign>)
    requires chunk > 0 && start < |current.steps|
    ensures r == if Removable(stillFails, current, chunk, start) then Some(Candidate(current, start, WindowEnd(current, chunk, start)))
                 else None
  {
    var end := Min(start + chunk, |current.steps|);
    var rest := Without(current.steps, start, end);
    if |rest| == 0 {
      return None;
    }
    var renumbered := Reindex(rest);
    var candidate := current.(steps := renumbered, campaignId := current.campaignId + "-min");
    assert candidate == Candidate(current, start, end);
    if !stillFails(candidate) {
      return None;
    }
    return Some(candidate);
  }

  method MinimizeWith(campaign: AdversarialCampaign, stillFails: AdversarialCampaign -> bool)
    returns (r: Result<(AdversarialCampaign, MinimizationProof), CampaignError>)
    ensures r.Success? <==> ValidCampaign(campaign) && stillFails(campaign)
    ensures r.Failure? ==> r.error == InvalidCampaign
    ensures r.Success? ==> Minimized(stillFails, campaign, r.value.0, r.value.1)
    ensures r.Success? ==> (r.value.0, r.value.1.rounds) == Shrunk(stillFails, campaign, InitialChunk(campaign))
  {
    if !ValidCampaign(campaign) {
      return Failure(InvalidCampaign);
    }
    if !stillFails(campaign) {
      return Failure(InvalidCampaign);
    }
    var current := campaign;
    var rounds: nat, removedSteps: nat := 0, 0;
    var chunk := Max(|current.steps| / 2, 1);
    while chunk > 0
      invariant removedSteps + |current.steps| == |campaign.steps|
      invariant chunk > 0 && Remaining(stillFails, campaign, current, chunk, rounds)
      decreases |current.steps|, chunk
    {
      var changed;
      rounds := rounds + 1;
      current, removedSteps, changed := Sweep(stillFails, current, chunk, removedSteps);
      if !changed {
        if chunk == 1 {
          break;
        }
        chunk := chunk / 2;
      }
    }
    var proof := MinimizationProof(rounds, removedSteps, true);
    ShrunkIsMinimized(stillFails, campaign, current, proof);
    return Success((current, proof));
  }

  // What is still to be done leads to the same end, counting the rounds already made.
  predicate Remaining(f: AdversarialCampaign -> bool, c: AdversarialCampaign, m: AdversarialCampaign, w: nat, rounds: nat)
    requires w > 0
  {
    var (end, n) := Shrunk(f, m, w);
    Shrunk(f, c, InitialChunk(c)) == (end, rounds + n)
  }

  // ----- consequences of 1-minimality -----

  /** f looks only at what the steps do, through p, and adding steps keeps a failure. */
  ghost predicate MonotoneBy(f: AdversarialCampaign -> bool, p: seq<Payload> -> bool) {
    && (forall c :: f(c) == p(Payloads(c.steps)))
    && (forall s, t :: Subsequence(s, t) && p(s) ==> p(t))
  }

  /** For a monotone failure the result is globally minimal: no proper non-empty subsequence of it fails. */
  lemma GloballyMinimal(f: AdversarialCampaign -> bool, p: seq<Payload> -> bool, c: AdversarialCampaign,
                        m: AdversarialCampaign, proof: MinimizationProof, s: seq<Payload>)
    requires MonotoneBy(f, p) && Minimized(f, c, m, proof)
    requires Subsequence(s, Payloads(m.steps)) && 0 < |s| < |m.steps|
    ensures !p(s)
  {
    OneMinimalIsEnough(f, p, m, s);
  }

  lemma OneMinimalIsEnough(f: AdversarialCampaign -> bool, p: seq<Payload> -> bool, m: AdversarialCampaign, s: seq<Payload>)
    requires MonotoneBy(f, p) && OneMinimal(f, m)
    requires Subsequence(s, Payloads(m.steps)) && 0 < |s| < |m.steps|
    ensures !p(s)
  {
    var k := SubsequenceOfDeletion(s, Payloads(m.steps));
    assert Payloads(StepDeleted(m, k).steps) == Omit(Payloads(m.steps), k);
    assert !f(StepDeleted(m, k));
  }

  /** Minimizing a minimized campaign again keeps every step. */
  lemma MinimizingTwice(f: AdversarialCampaign -> bool, p: seq<Payload> -> bool, c: AdversarialCampaign,
                        m: AdversarialCampaign, proof: MinimizationProof,
                        m2: AdversarialCampaign, proof2: MinimizationProof)
    requires MonotoneBy(f, p) && Minimized(f, c, m, proof) && Minimized(f, m, m2, proof2)
    ensures m2.steps == m.steps && proof2.removedSteps == 0
  {
    if |m2.steps| < |m.steps| {
      GloballyMinimal(f, p, c, m, proof, Payloads(m2.steps));
      assert false;
    }
    SameLengthSameSteps(m2.steps, m.steps);
  }

  // A subsequence as long as the whole is the whole, up to numbering.
  lemma SameLengthSameSteps(s: seq<AttackStep>, t: seq<AttackStep>)
    requires Subsequence(Payloads(s), Payloads(t)) && |s| == |t| && ValidSteps(s) && ValidSteps(t)
    ensures s == t
  {
    var pos: seq<nat> :| Embeds(pos, Payloads(s), Payloads(t));
    IdentityEmbedding(pos, |t|);
    forall i | 0 <= i < |t| ensures s[i] == t[i] {
      assert Payloads(s)[i] == Payloads(t)[pos[i]];
      assert s[i].stepId == i == t[i].stepId;
    }
  }

  lemma {:induction false} IdentityEmbedding(pos: seq<nat>, n: nat)
    requires |pos| == n
    requires forall i, j :: 0 <= i < j < |pos| ==> pos[i] < pos[j]
    requires forall i :: 0 <= i < |pos| ==> pos[i] < n
    ensures forall i :: 0 <= i < |pos| ==> pos[i] == i
  {
    if n > 0 {
      assert forall i :: 0 <= i < n - 1 ==> pos[i] < pos[n - 1];
      IdentityEmbedding(pos[..n - 1], n - 1);
      assert forall i :: 0 <= i < n - 1 ==> pos[..n - 1][i] == pos[i];
      assert n > 1 ==> pos[n - 2] < pos[n - 1];
    }
  }

  /** A predicate that never rejects a candidate, as the one `run_cycle` passes, leaves one step. */
  lemma AlwaysFailingLeavesOneStep(f: AdversarialCampaign -> bool, c: AdversarialCampaign, m: AdversarialCampaign,
                                   proof: MinimizationProof)
    requires Minimized(f, c, m, proof) && forall d :: f(d)
    ensures |m.steps| == 1 && proof.removedSteps == |c.steps| - 1
  {
    var d := StepDeleted(m, 0);
    assert |m.steps| > 1 ==> !f(d);
  }

  /** The minimizer hands a campaign back unchanged exactly when no window it tries can be deleted. */
  lemma UnchangedIff(f: AdversarialCampaign -> bool, c: AdversarialCampaign, m: AdversarialCampaign, proof: MinimizationProof)
    requires ValidCampaign(c) && Minimized(f, c, m, proof)
    ensures m == c <==> Stubborn(f, c, InitialChunk(c))
  {
    if Stubborn(f, c, InitialChunk(c)) {
      SameLengthSameSteps(m.steps, c.steps);
    }
  }

  lemma SingleStepsOnly(c: AdversarialCampaign, start: nat)
    requires |c.steps| == 3
    ensures Quiet(NotTwoSteps, c, 1, start)
    decreases |c.steps| - start
  {
    if start < 3 {
      SingleStepsOnly(c, start + 1);
    }
  }

  predicate NotTwoSteps(c: AdversarialCampaign) {
    |c.steps| != 2
  }

  /** Without monotonicity only 1-minimality holds: a failure hidden at exactly two steps makes the minimizer return every
      three-step campaign as it is, although its first step alone fails. */
  lemma NotGloballyMinimal(c: AdversarialCampaign, m: AdversarialCampaign, proof: MinimizationProof)
    requires ValidCampaign(c) && |c.steps| == 3 && Minimized(NotTwoSteps, c, m, proof)
    ensures m == c && proof.removedSteps == 0
    ensures var first := c.(steps := c.steps[..1]);
            ValidCampaign(first) && NotTwoSteps(first) && Subsequence(Payloads(first.steps), Payloads(m.steps))
  {
    SingleStepsOnly(c, 0);
    assert Stubborn(NotTwoSteps, c, 1);
    UnchangedIff(NotTwoSteps, c, m, proof);
    assert Embeds([0], Payloads(c.steps[..1]), Payloads(c.steps));
  }
}
