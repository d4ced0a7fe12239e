/** The xorshift64* generator. */
module Rng {
  import opened Machine
  import opened Campaign

  function NextState(x: bv64): bv64 {
    var a := x ^ (x >> 12);
    var b := a ^ (a << 25);
    b ^ (b >> 27)
  }

  // The multiplication wraps.
  function Output(state: bv64): bv64 {
    state * 0x2545F4914F6CDD1D
  }

  function PreviousState(y: bv64): bv64 {
    var b := y ^ (y >> 27) ^ (y >> 54);
    var a := b ^ (b << 25) ^ (b << 50);
    a ^ (a >> 12) ^ (a >> 24) ^ (a >> 36) ^ (a >> 48) ^ (a >> 60)
  }

  // The step spelled out, so that the shifted copies cancel.
  lemma ShiftsCancel(x: bv64)
    ensures PreviousState(var a := x ^ (x >> 12); var b := a ^ (a << 25); b ^ (b >> 27)) == x
  {
  }

  /** Every state has at most one predecessor, so the generator never merges two streams. */
  lemma StepCanBeUndone(x: bv64)
    ensures PreviousState(NextState(x)) == x
  {
    ShiftsCancel(x);
  }

  /** A generator seeded with a non-zero state never reaches state zero. */
  lemma NeverZero(x: bv64)
    requires x != 0
    ensures NextState(x) != 0
  {
    StepCanBeUndone(x);
    assert PreviousState(0) == 0;
  }

  // The number drawn in a state.
  function Drawn(state: bv64): nat {
    Output(state) as nat
  }

  /** The odd multiplier maps no non-zero state to zero. */
  lemma DrawnIsPositive(state: bv64)
    requires state != 0
    ensures 0 < Drawn(state) < TWO_64
  {
    OddMultiplier(state);
    AsNumber(Output(state));
  }

  lemma OddMultiplier(x: bv64)
    requires x != 0
    ensures Output(x) != 0
  {
  }

  lemma AsNumber(x: bv64)
    ensures (x == 0 <==> x as nat == 0) && x as nat < TWO_64
  {
  }

  const TWO_64: int := 0x1_0000_0000_0000_0000

  /** The first three states and numbers after state 2. */
  lemma FirstDraws()
    ensures NextState(2) == 0x400_0002 && NextState(0x400_0002) == 0x8_0080_0100_5002
    ensures NextState(0x8_0080_0100_5002) == 0x1A_0080_0440_5007
    ensures Drawn(0x400_0002) == 10_360_984_590_412_790_330 && Drawn(0x8_0080_0100_5002) == 6_313_850_216_121_551_418
    ensures Drawn(0x1A_0080_0440_5007) == 8_523_403_104_418_470_859
  {
    assert Output(0x400_0002) == 0x8FC9_9C97_12D9_BA3A && Output(0x8_0080_0100_5002) == 0x579F_4D51_C0F2_CA3A;
    assert Output(0x1A_0080_0440_5007) == 0x7649_35F6_EC53_1BCB;
  }

  class DeterministicRng {
    var state: bv64

    ghost predicate Valid()
      reads this
    {
      state != 0
    }

    constructor (seed: bv64)
      requires seed != 0
      ensures Valid() && state == seed
    {
      state := seed;
    }

    method NextU64() returns (v: nat)
      requires Valid()
      modifies this
      ensures Valid() && state == NextState(old(state))
      ensures v == Drawn(state)
    {
      NeverZero(state);
      state := NextState(state);
      v := Drawn(state);
    }

    method ChooseIndex(len: nat) returns (i: nat)
      requires Valid()
      modifies this
      ensures Valid()
      ensures if len == 0 then i == 0 && state == old(state)
              else i < len && state == NextState(old(state)) && i == Drawn(state) % len
    {
      if len == 0 {
        return 0;
      }
      var v := NextU64();
      i := v % len;
    }

    method RangeU64(start: nat, end: nat) returns (v: nat)
      requires Valid()
      modifies this
      ensures Valid()
      ensures if end <= start then v == start && state == old(state)
              else start <= v < end && state == NextState(old(state)) && v == start + Drawn(state) % (end - start)
    {
      if end <= start {
        return start;
      }
      var x := NextU64();
      v := start + x % (end - start);
    }
  }

  /** Every seed but zero makes a generator. */
  method Seeded(seed: bv64) returns (r: Result<DeterministicRng, CampaignError>)
    ensures r.Success? <==> seed != 0
    ensures r.Success? ==> fresh(r.value) && r.value.Valid() && r.value.state == seed
    ensures r.Failure? ==> r.error == InvalidSeed
  {
    if seed == 0 {
      return Failure(InvalidSeed);
    }
    var rng := new DeterministicRng(seed);
    return Success(rng);
  }
}
