/** The generator of the `lfsr` character device: a 128-bit Fibonacci
    linear-feedback shift register that shifts right, emits its low bit and
    feeds the XOR of taps 0, 2, 27 and 29 back into bit 127.

    Everything here is a pure function of the register value; the device
    module owns the single register and advances it through `Step`.
 */
module Lfsr {

  /** A bit position of the register, 0 (least significant) to 127. */
  type Index = bv7

  /** The top bit position, where feedback enters. */
  const Top: Index := 127

  /** The feedback taps, as bit positions of the pre-step register. */
  const TapA: Index := 0
  const TapB: Index := 2
  const TapC: Index := 27
  const TapD: Index := 29

  /** Bit `i` of a 128-bit register. */
  function Bit(s: bv128, i: Index): bv1
  {
    ((s >> i) & 1) as bv1
  }

  /** Bit `i` of a 64-bit seed. */
  function SeedBit(x: bv64, i: bv6): bv1
  {
    ((x >> i) & 1) as bv1
  }

  /** The feedback bit injected at the top of the register on a step. */
  function Feedback(s: bv128): bv1
  {
    Bit(s, TapA) ^ Bit(s, TapB) ^ Bit(s, TapC) ^ Bit(s, TapD)
  }

  /** What one step produces: the next register value and the emitted bit. */
  datatype Stepped = Stepped(next: bv128, out: bv1)

  /** One step of the register, computed with the same shifts, XORs and the
      final `<< 127` truncation as the device. The contract says that the
      truncation keeps exactly the feedback bit: the new register is the old
      one shifted right with the single bit `Feedback(s)` on top. */
  function Step(s: bv128): (r: Stepped)
    ensures r.out == Bit(s, 0)
    ensures r.next == (s >> 1) | ((Feedback(s) as bv128) << 127)
    ensures s != 0 ==> r.next != 0
  {
    var out := (s & 1) as bv1;
    var next := (s >> 1) | ((s ^ (s >> 2) ^ (s >> 27) ^ (s >> 29)) << 127);
    Stepped(next, out)
  }

  /** The register after `n` steps. */
  function Run(s: bv128, n: nat): bv128
    decreases n
  {
    if n == 0 then s else Run(Step(s).next, n - 1)
  }

  /** The `n`-th emitted bit (counting from 0) of a register started at `s`. */
  function Output(s: bv128, n: nat): bv1
  {
    Step(Run(s, n)).out
  }

  /** The register value installed at module load: the 64-bit seed in the
      low half and bit 127 forced high. */
  function Seed(seed: bv64): (s: bv128)
    ensures Bit(s, Top) == 1
    ensures forall i: bv6 :: Bit(s, i as Index) == SeedBit(seed, i)
    ensures forall i: Index :: 64 <= i < Top ==> Bit(s, i) == 0
    ensures s != 0
  {
    (1 as bv128 << 127) | (seed as bv128)
  }

  /** The seed read back from the low half of a register. */
  function LowHalf(s: bv128): bv64
  {
    (s & 0xFFFF_FFFF_FFFF_FFFF) as bv64
  }

  /** Seeding loses nothing: the seed can be read back from the register. */
  lemma SeedRoundTrip(seed: bv64)
    ensures LowHalf(Seed(seed)) == seed
  {
  }

  /** Distinct seeds give distinct initial registers. */
  lemma SeedInjective(x: bv64, y: bv64)
    requires Seed(x) == Seed(y)
    ensures x == y
  {
    SeedRoundTrip(x);
    SeedRoundTrip(y);
  }

  /** Bit by bit: a step moves bit `i + 1` down to bit `i`. */
  lemma StepShiftsBits(s: bv128)
    ensures forall i: Index :: i < Top ==> Bit(Step(s).next, i) == Bit(s, i + 1)
  {
    forall i: Index | i < Top
      ensures Bit(Step(s).next, i) == Bit(s, i + 1)
    {
      ShiftFillBit(s, Feedback(s), i);
    }
  }

  /** Shifting right by one and filling bit 127 moves bit `i + 1` to bit `i`
      for every lower position. */
  lemma ShiftFillBit(x: bv128, f: bv1, i: Index)
    requires i < Top
    ensures Bit((x >> 1) | ((f as bv128) << 127), i) == Bit(x, i + 1)
  {
  }

  /** A step moves bit `i + 1` down to bit `i`. */
  lemma StepShiftsBit(s: bv128, i: Index)
    requires i < Top
    ensures Bit(Step(s).next, i) == Bit(s, i + 1)
  {
    ShiftFillBit(s, Feedback(s), i);
  }

  /** Bit by bit: the top bit after a step is the XOR of the four taps. */
  lemma StepFeedsTop(s: bv128)
    ensures Bit(Step(s).next, Top) == Bit(s, 0) ^ Bit(s, 2) ^ Bit(s, 27) ^ Bit(s, 29)
  {
  }

  /** Running `a` steps and then `b` more is running `a + b` steps. */
  lemma {:induction false} RunAdd(s: bv128, a: nat, b: nat)
    ensures Run(Run(s, a), b) == Run(s, a + b)
    decreases a
  {
    if a > 0 {
      RunAdd(Step(s).next, a - 1, b);
    }
  }

  /** The all-zero register is never reached from a non-zero one. */
  lemma {:induction false} RunNonZero(s: bv128, n: nat)
    requires s != 0
    ensures Run(s, n) != 0
    decreases n
  {
    if n > 0 {
      RunNonZero(Step(s).next, n - 1);
    }
  }

  /** Every register reachable from a seeded start is non-zero. */
  lemma SeededRunNonZero(seed: bv64, n: nat)
    ensures Run(Seed(seed), n) != 0
  {
    RunNonZero(Seed(seed), n);
  }

  /** Because the register shifts right and emits its low bit, the first 128
      emitted bits are the bits of the starting register, lowest first. */
  lemma {:induction false} OutputIsStartBit(s: bv128, i: Index)
    ensures Output(s, i as int) == Bit(s, i)
    decreases i as int
  {
    if i > 0 {
      var t := Step(s).next;
      OutputIsStartBit(t, i - 1);
      assert (i - 1) as int == i as int - 1;
      assert Run(s, i as int) == Run(t, (i - 1) as int);
      StepShiftsBit(s, i - 1);
    }
  }

  /** The bits emitted after one step are the later bits of the original
      stream. */
  lemma OutputAfterStep(s: bv128)
    ensures forall n: nat :: Output(Step(s).next, n) == Output(s, n + 1)
  {
    forall n: nat
      ensures Output(Step(s).next, n) == Output(s, n + 1)
    {
      assert Run(s, n + 1) == Run(Step(s).next, n);
    }
  }

  /** Emitted bits do not depend on how the step count is split. */
  lemma OutputShift(s: bv128, a: nat, n: nat)
    ensures Output(Run(s, a), n) == Output(s, a + n)
  {
    RunAdd(s, a, n);
  }
}
