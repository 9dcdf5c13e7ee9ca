/**
 * The kernel's PCG random generator: a 32-bit linear congruential state step
 * with a per-stream odd increment, and the RXS-M-XS output permutation of
 * O'Neill's PCG family.
 *
 * GLSL `uint` arithmetic wraps modulo 2^32. The state step is modelled on
 * integers reduced by `Wrap`; the output permutation, which is made of shifts
 * and exclusive ors, is computed on `bv32`.
 */
module Pcg {
  import opened Bytes

  const Modulus: int := 0x1_0000_0000

  /** Reduction of an integer to a 32-bit unsigned word, as a GLSL `uint` result wraps. */
  function Wrap(x: int): (w: uint32)
    ensures w as int == x % Modulus
    ensures 0 <= x < Modulus ==> w as int == x
  {
    (x % Modulus) as uint32
  }

  /** The struct PCGState: the generator's state word and its stream increment. */
  datatype PcgState = PcgState(state: uint32, inc: uint32)

  const Multiplier: int := 747796405
  const OutputMultiplier: bv32 := 277803737

  /** The state word one pcg_hash step leaves behind: state * 747796405 + inc, wrapped. */
  function StepState(state: uint32, inc: uint32): uint32
  {
    Wrap(state as int * Multiplier + inc as int)
  }

  /** The data-dependent shift of the first xorshift: (x >> 28) + 4 lies between 4 and 19. */
  function ShiftAmount(x: bv32): (k: bv32)
    ensures 4 <= k <= 19
  {
    (x >> 28) + 4
  }

  /** The first, data-dependent xorshift of RXS-M-XS. */
  function RandomXorshift(x: bv32): bv32
  {
    (x >> ShiftAmount(x)) ^ x
  }

  /** The final xorshift by 22 bits. */
  function Xorshift22(word: bv32): bv32
  {
    (word >> 22) ^ word
  }

  /** The output word pcg_hash returns for a given prior state: RXS-M-XS of that state. */
  function Permute(prior: uint32): uint32
  {
    Xorshift22(RandomXorshift(prior as bv32) * OutputMultiplier) as uint32
  }

  /** One pcg_hash step on the whole struct, as a function. */
  function LcgStep(s: PcgState): PcgState
  {
    PcgState(StepState(s.state, s.inc), s.inc)
  }

  /**
   * pcg_hash: remembers the prior state, advances the state by one LCG
   * step, and returns the permutation of the prior state. The increment
   * is left alone.
   */
  method PcgHash(rng: PcgState) returns (next: PcgState, word: uint32)
    ensures next.state as int == (rng.state as int * Multiplier + rng.inc as int) % Modulus
    ensures next.inc == rng.inc
    ensures next == LcgStep(rng)
    ensures word == Permute(rng.state)
  {
    var oldstate := rng.state;
    next := rng.(state := StepState(oldstate, rng.inc));
    word := Permute(oldstate);
  }

  /** The stream increment (sequence << 1) | 1: bit 31 of the sequence falls off, bit 0 is set. */
  function Increment(sequence: uint32): (inc: uint32)
    ensures inc as int % 2 == 1
  {
    Wrap(sequence as int * 2) + 1
  }

  /** The state initPCG produces, in closed form: ((inc + seed) * 747796405 + inc) mod 2^32. */
  function Seeded(seed: uint32, sequence: uint32): (s: PcgState)
    ensures s.inc == Increment(sequence)
    ensures s.state as int == ((s.inc as int + seed as int) * Multiplier + s.inc as int) % Modulus
  {
    var inc := Increment(sequence);
    PcgState(Wrap((inc as int + seed as int) * Multiplier + inc as int), inc)
  }

  /** Wrapping an intermediate result does not change the final wrapped value. */
  lemma WrapMulAdd(x: int, m: int, b: int)
    ensures Wrap(Wrap(x) as int * m + b) == Wrap(x * m + b)
  {
    var q := x / Modulus;
    assert x == q * Modulus + Wrap(x) as int;
    assert x * m + b == (Wrap(x) as int * m + b) + (q * m) * Modulus;
    ModMultiple(Wrap(x) as int * m + b, q * m);
  }

  lemma ModMultiple(a: int, k: int)
    ensures (a + k * Modulus) % Modulus == a % Modulus
  {
  }

  /**
   * initPCG: zero the state, set the increment, step, add the seed, step.
   * The result does not depend on what rng held before, and the increment
   * is odd.
   */
  method InitPcg(rng: PcgState, seed: uint32, sequence: uint32) returns (next: PcgState)
    ensures next == Seeded(seed, sequence)
    ensures next.inc as int % 2 == 1
  {
    next := rng.(state := 0);
    next := next.(inc := Increment(sequence));
    var discarded;
    next, discarded := PcgHash(next);
    next := next.(state := Wrap(next.state as int + seed as int));
    next, discarded := PcgHash(next);
    WrapMulAdd(next.inc as int + seed as int, Multiplier, next.inc as int);
  }

  /** The state after n calls of pcg_hash. */
  function Advance(s: PcgState, n: nat): (t: PcgState)
    ensures t.inc == s.inc
  {
    if n == 0 then s else LcgStep(Advance(s, n - 1))
  }

  lemma {:induction false} AdvanceAdds(s: PcgState, m: nat, n: nat)
    ensures Advance(Advance(s, m), n) == Advance(s, m + n)
  {
    if n > 0 {
      AdvanceAdds(s, m, n - 1);
    }
  }

  /** Sequence numbers that agree on their low 31 bits select the same stream and the same start. */
  lemma SequenceBit31Lost(seed: uint32, s1: uint32, s2: uint32)
    requires s1 as int % 0x8000_0000 == s2 as int % 0x8000_0000
    ensures Increment(s1) == Increment(s2)
    ensures Seeded(seed, s1) == Seeded(seed, s2)
  {
    DoubledLow31(s1);
    DoubledLow31(s2);
  }

  /** The shift left by one keeps the low 31 bits, doubled. */
  lemma DoubledLow31(s: uint32)
    ensures Wrap(s as int * 2) as int == s as int % 0x8000_0000 * 2
  {
    var high := s as int / 0x8000_0000;
    assert s as int * 2 == s as int % 0x8000_0000 * 2 + high * Modulus;
    ModMultiple(s as int % 0x8000_0000 * 2, high);
  }

  /** Different streams: sequence numbers below 2^31 give different increments. */
  lemma IncrementInjectiveBelowBit31(s1: uint32, s2: uint32)
    requires s1 as int < 0x8000_0000 && s2 as int < 0x8000_0000
    requires Increment(s1) == Increment(s2)
    ensures s1 == s2
  {
    DoubledLow31(s1);
    DoubledLow31(s2);
  }

  const MultiplierInverse: int := 3425435293

  /** The state step undone: the LCG step is a bijection on the states of one stream. */
  function LcgUnstep(s: PcgState): PcgState
  {
    PcgState(Wrap((s.state as int - s.inc as int) * MultiplierInverse), s.inc)
  }

  lemma LcgStepInvertible(s: PcgState)
    ensures LcgUnstep(LcgStep(s)) == s
  {
    var x := s.state as int;
    var sum := x * Multiplier + s.inc as int;
    var q := sum / Modulus;
    assert LcgStep(s).state as int == sum - q * Modulus;
    assert Multiplier * MultiplierInverse == 1 + 596402259 * Modulus;
    assert (LcgStep(s).state as int - s.inc as int) * MultiplierInverse
        == x + (x * 596402259 - q * MultiplierInverse) * Modulus;
    ModMultiple(x, x * 596402259 - q * MultiplierInverse);
  }
}
