/** The `lfsr` character device around the generator: one register owned by
    the device, a read that packs eight generated bits into one byte and
    hands it to the caller, and a write that is always refused.

    Return values are those of the kernel's `ssize_t` results: a byte count
    on success, a negated error number on failure.
 */
module LfsrDevice {
  import opened Lfsr

  /** Linux's "bad address" error number; the device negates it. */
  const EFAULT: int := 14

  /** Number of bytes a read delivers, whatever length was asked for. */
  const BytesPerRead: nat := 1

  /** Number of generator steps that make one byte. */
  const StepsPerByte: nat := 8

  /** Bit `j` of a byte, for `j` from 0 (least significant) to 7. */
  function ByteBit(b: bv8, j: bv8): bv1
    requires j < 8
  {
    ((b >> j) & 1) as bv1
  }

  /** ORing a bit shifted left by `i` into a byte sets bit `i` and changes no
      other bit. */
  lemma OrIntoBit(acc: bv8, i: bv8, b: bv1)
    requires i < 8
    ensures ByteBit(acc | ((b as bv8) << i), i) == ByteBit(acc, i) | b
    ensures forall j: bv8 :: j < 8 && j != i ==> ByteBit(acc | ((b as bv8) << i), j) == ByteBit(acc, j)
  {
  }

  /** Two bytes that agree on every bit are equal. */
  lemma ByteBitsEqual(a: bv8, b: bv8)
    requires forall j: bv8 :: j < 8 ==> ByteBit(a, j) == ByteBit(b, j)
    ensures a == b
  {
    assert ByteBit(a, 0) == ByteBit(b, 0) && ByteBit(a, 1) == ByteBit(b, 1);
    assert ByteBit(a, 2) == ByteBit(b, 2) && ByteBit(a, 3) == ByteBit(b, 3);
    assert ByteBit(a, 4) == ByteBit(b, 4) && ByteBit(a, 5) == ByteBit(b, 5);
    assert ByteBit(a, 6) == ByteBit(b, 6) && ByteBit(a, 7) == ByteBit(b, 7);
  }

  /** The state of the byte-assembly loop of a read started on register `s`,
      after `i` iterations: the register has advanced `i` steps, bits below
      `i` of the accumulator hold the first `i` outputs and the others are
      still zero. */
  ghost predicate Assembling(s: bv128, i: bv8, next: bv128, acc: bv8)
  {
    && i <= 8
    && next == Run(s, i as int)
    && (forall j: bv8 :: j < i ==> ByteBit(acc, j) == Output(s, j as int))
    && (forall j: bv8 :: i <= j < 8 ==> ByteBit(acc, j) == 0)
  }

  /** What assembling a byte leaves behind: the advanced register and the byte. */
  datatype Assembled = Assembled(state: bv128, byte: bv8)

  /** One iteration of the loop: step the generator and OR its output into
      bit `i` of the accumulator. */
  function AssembleOnce(next: bv128, i: bv8, acc: bv8): Assembled
    requires i < 8
  {
    var st := Step(next);
    Assembled(st.next, acc | ((st.out as bv8) << i))
  }

  /** The register side of an iteration: one more step of the run, whose
      output is the bit the iteration records. */
  lemma RunOneMore(s: bv128, i: bv8, next: bv128)
    requires i < 8
    requires next == Run(s, i as int)
    ensures Step(next).next == Run(s, (i + 1) as int)
    ensures Step(next).out == Output(s, i as int)
  {
    RunAdd(s, i as int, 1);
    assert (i + 1) as int == i as int + 1;
  }

  /** The accumulator side of an iteration: ORing the output `b` of step `i`
      into bit `i` extends the filled bits by one and keeps the rest zero. */
  lemma FillBit(s: bv128, i: bv8, acc: bv8, b: bv1, acc': bv8)
    requires i < 8
    requires forall j: bv8 :: j < i ==> ByteBit(acc, j) == Output(s, j as int)
    requires forall j: bv8 :: i <= j < 8 ==> ByteBit(acc, j) == 0
    requires b == Output(s, i as int)
    requires acc' == acc | ((b as bv8) << i)
    ensures forall j: bv8 :: j < i + 1 ==> ByteBit(acc', j) == Output(s, j as int)
    ensures forall j: bv8 :: i + 1 <= j < 8 ==> ByteBit(acc', j) == 0
  {
    OrIntoBit(acc, i, b);
    forall j: bv8 | j < i + 1
      ensures ByteBit(acc', j) == Output(s, j as int)
    {
      if j != i {
        assert ByteBit(acc', j) == ByteBit(acc, j);
      }
    }
  }

  /** An iteration keeps the loop's description true, one bit further on. */
  lemma AssembleOnceAdvances(s: bv128, i: bv8, next: bv128, acc: bv8)
    requires i < 8
    requires Assembling(s, i, next, acc)
    ensures Assembling(s, i + 1, AssembleOnce(next, i, acc).state, AssembleOnce(next, i, acc).byte)
  {
    var st := Step(next);
    RunOneMore(s, i, next);
    FillBit(s, i, acc, st.out, AssembleOnce(next, i, acc).byte);
  }

  /** The byte-assembly loop of a read, entered after `i` iterations: the
      remaining iterations finish the byte, so the register ends `8` steps
      past the start and every bit of the byte is the output of the step
      with its index. */
  function Assemble(ghost s: bv128, i: bv8, next: bv128, acc: bv8): (r: Assembled)
    requires Assembling(s, i, next, acc)
    ensures r.state == Run(s, StepsPerByte)
    ensures forall j: bv8 :: j < 8 ==> ByteBit(r.byte, j) == Output(s, j as int)
    decreases 8 - i
  {
    if i == 8 then
      Assembled(next, acc)
    else
      var a := AssembleOnce(next, i, acc);
      AssembleOnceAdvances(s, i, next, acc);
      Assemble(s, i + 1, a.state, a.byte)
  }

  /** The byte a read produces from register `s`, starting from a zeroed
      accumulator, and the register it leaves. */
  function NextByte(s: bv128): (r: Assembled)
    ensures r.state == Run(s, StepsPerByte)
    ensures forall j: bv8 :: j < 8 ==> ByteBit(r.byte, j) == Output(s, j as int)
  {
    Assemble(s, 0, s, 0)
  }

  /** The outcome of a read: its return value, the bytes that reached the
      caller's buffer, and the register afterwards. */
  datatype ReadResult = ReadResult(ret: int, delivered: seq<bv8>, state: bv128)

  /** A read of `len` bytes from register `s`, where `copied` says whether the
      copy to the caller's buffer succeeded. The length is ignored: exactly
      one byte is generated, eight steps are taken, and on success the call
      reports one byte; a failed copy reports `-EFAULT` and delivers nothing,
      but the register has still advanced. */
  function Read(s: bv128, len: nat, copied: bool): (r: ReadResult)
    ensures r.state == Run(s, StepsPerByte)
    ensures r.ret == 1 <==> copied
    ensures r.ret == -EFAULT <==> !copied
    ensures copied ==> |r.delivered| == r.ret == BytesPerRead
    ensures copied ==> forall j: bv8 :: j < 8 ==> ByteBit(r.delivered[0], j) == Output(s, j as int)
    ensures !copied ==> r.delivered == []
  {
    var a := NextByte(s);
    if copied then ReadResult(1, [a.byte], a.state) else ReadResult(-EFAULT, [], a.state)
  }

  /** The requested length plays no part: a read of zero bytes and a read
      of a million bytes generate, deliver and advance alike. */
  lemma ReadIgnoresLength(s: bv128, len1: nat, len2: nat, copied: bool)
    ensures Read(s, len1, copied) == Read(s, len2, copied)
  {
  }

  /** The same read written as the device's loop, on a local copy of the
      register; it agrees with `Read`. */
  method ReadLoop(s: bv128, len: nat, copied: bool) returns (ret: int, delivered: seq<bv8>, next: bv128)
    ensures next == Run(s, StepsPerByte)
    ensures ret == (if copied then 1 else -EFAULT)
    ensures copied ==> |delivered| == 1
    ensures copied ==> forall j: bv8 :: j < 8 ==> ByteBit(delivered[0], j) == Output(s, j as int)
    ensures !copied ==> delivered == []
    ensures ReadResult(ret, delivered, next) == Read(s, len, copied)
  {
    var c: bv8 := 0;
    var i: bv8 := 0;
    next := s;
    while i < 8
      invariant Assembling(s, i, next, c)
    {
      var a := AssembleOnce(next, i, c);
      AssembleOnceAdvances(s, i, next, c);
      c, next, i := a.byte, a.state, i + 1;
    }
    if copied {
      ret, delivered := 1, [c];
      ByteBitsEqual(c, NextByte(s).byte);
    } else {
      ret, delivered := -EFAULT, [];
    }
  }

  /** The outcome of a write: its return value and the register afterwards. */
  datatype WriteResult = WriteResult(ret: int, state: bv128)

  /** A write of `len` bytes from `buffer`: always refused with `-EFAULT`,
      whatever the payload, and the register is left alone. */
  function Write(s: bv128, buffer: seq<bv8>, len: nat): (r: WriteResult)
    ensures r.ret == -EFAULT
    ensures r.state == s
  {
    WriteResult(-EFAULT, s)
  }

  /** A refused write does not disturb the stream: a read after it sees
      exactly what it would have seen without it. */
  lemma WriteThenRead(s: bv128, buffer: seq<bv8>, wlen: nat, rlen: nat, copied: bool)
    ensures Read(Write(s, buffer, wlen).state, rlen, copied) == Read(s, rlen, copied)
  {
  }

  /** Since the register shifts right and emits its low bit, the byte a
      read produces is the low byte of the register it starts from; the
      first read after loading therefore returns the low byte of the seed. */
  lemma NextByteIsLowByte(s: bv128)
    ensures NextByte(s).byte == (s & 0xFF) as bv8
  {
    var b := NextByte(s).byte;
    forall j: bv8 | j < 8
      ensures ByteBit(b, j) == ByteBit((s & 0xFF) as bv8, j)
    {
      assert (j as Index) as int == j as int;
      OutputIsStartBit(s, j as Index);
      LowByteBit(s, j);
    }
    ByteBitsEqual(b, (s & 0xFF) as bv8);
  }

  /** Bit `j` of the low byte of a register is bit `j` of the register. */
  lemma LowByteBit(s: bv128, j: bv8)
    requires j < 8
    ensures ByteBit((s & 0xFF) as bv8, j) == Bit(s, j as Index)
  {
  }

  /** The bytes of `k` successive reads that all copy successfully, starting
      from register `s`. */
  function Reads(s: bv128, k: nat): seq<bv8>
    decreases k
  {
    if k == 0 then [] else Read(s, 1, true).delivered + Reads(Read(s, 1, true).state, k - 1)
  }

  /** The first of `k` successful reads delivers the next byte and leaves
      the rest to the advanced register. */
  lemma ReadsUnfold(s: bv128, k: nat)
    requires k > 0
    ensures Reads(s, k) == [NextByte(s).byte] + Reads(Run(s, StepsPerByte), k - 1)
  {
  }

  /** The register `8 * (m - 1)` steps after the first byte is the one
      `8 * m` steps after the start. */
  lemma RunAfterFirstByte(s: bv128, m: nat)
    requires m > 0
    ensures Run(Run(s, StepsPerByte), StepsPerByte * (m - 1)) == Run(s, StepsPerByte * m)
  {
    assert StepsPerByte * m == StepsPerByte + StepsPerByte * (m - 1);
    RunAdd(s, StepsPerByte, StepsPerByte * (m - 1));
  }

  /** The `m`-th of successive reads assembles its byte from the register
      as it stands `8 * m` steps after the first read began. */
  lemma {:induction false} ReadsAreConsecutive(s: bv128, k: nat)
    ensures |Reads(s, k)| == k
    ensures forall m :: 0 <= m < k ==> Reads(s, k)[m] == NextByte(Run(s, StepsPerByte * m)).byte
    decreases k
  {
    if k > 0 {
      var t := Run(s, StepsPerByte);
      var rest := Reads(t, k - 1);
      ReadsAreConsecutive(t, k - 1);
      ReadsUnfold(s, k);
      forall m | 0 < m < k
        ensures Reads(s, k)[m] == NextByte(Run(s, StepsPerByte * m)).byte
      {
        assert Reads(s, k)[m] == rest[m - 1];
        RunAfterFirstByte(s, m);
      }
    }
  }

  /** Successive reads cut the generator's bit stream into bytes: bit `j` of
      the `m`-th byte is bit `8 * m + j` of the stream, so nothing is skipped
      or repeated between reads. */
  lemma ReadsFollowStream(s: bv128, k: nat, m: nat, j: bv8)
    requires m < k && j < 8
    ensures |Reads(s, k)| == k
    ensures ByteBit(Reads(s, k)[m], j) == Output(s, StepsPerByte * m + j as int)
  {
    ReadsAreConsecutive(s, k);
    OutputShift(s, StepsPerByte * m, j as int);
  }

  /** The first eight reads after loading hand back the seed, low byte
      first: bit `j` of read `m` is bit `8 * m + j` of the seed. */
  lemma SeededReadsAreSeedBytes(seed: bv64, m: bv8, j: bv8)
    requires m < 8 && j < 8
    ensures |Reads(Seed(seed), 8)| == 8
    ensures ByteBit(Reads(Seed(seed), 8)[m as int], j) == SeedBit(seed, (8 * m + j) as bv6)
  {
    var i := (8 * m + j) as bv6;
    assert (i as Index) as int == StepsPerByte * (m as int) + j as int;
    ReadsFollowStream(Seed(seed), 8, m as int, j);
    OutputIsStartBit(Seed(seed), i as Index);
  }

  /** Reads nine to sixteen after loading see the register's forced-zero
      bits 64..126 and then its top bit: seven bytes `0x00`, then bit 7 of
      the sixteenth byte set and its other bits clear. */
  lemma SeededReadsAfterSeed(seed: bv64, m: bv8, j: bv8)
    requires 8 <= m < 16 && j < 8
    ensures |Reads(Seed(seed), 16)| == 16
    ensures ByteBit(Reads(Seed(seed), 16)[m as int], j) == if m == 15 && j == 7 then 1 else 0
  {
    var i := (8 * m + j) as Index;
    HighStreamIndex(m, j);
    ReadsFollowStream(Seed(seed), 16, m as int, j);
    OutputIsStartBit(Seed(seed), i);
  }

  /** Bit `j` of read `m`, for reads nine to sixteen, sits at register
      position `8 * m + j`, which lies in 64..127 and is 127 only for the
      last bit of the sixteenth read. */
  lemma HighStreamIndex(m: bv8, j: bv8)
    requires 8 <= m < 16 && j < 8
    ensures ((8 * m + j) as Index) as int == StepsPerByte * (m as int) + j as int
    ensures 64 <= (8 * m + j) as Index
    ensures (8 * m + j) as Index == Top <==> m == 15 && j == 7
  {
  }

  /** The register after a series of reads whose copies succeed or fail as
      `copies` says. */
  function ReadStates(s: bv128, copies: seq<bool>): bv128
    decreases |copies|
  {
    if |copies| == 0 then s else ReadStates(Read(s, 0, copies[0]).state, copies[1..])
  }

  /** After `k` reads, whether or not their copies succeed, the register
      has advanced exactly `8 * k` steps. */
  lemma {:induction false} ReadsAdvance(s: bv128, copies: seq<bool>)
    ensures ReadStates(s, copies) == Run(s, StepsPerByte * |copies|)
    decreases |copies|
  {
    if |copies| > 0 {
      var t := Read(s, 0, copies[0]).state;
      ReadsAdvance(t, copies[1..]);
      RunAdd(s, StepsPerByte, StepsPerByte * (|copies| - 1));
    }
  }

  /** The device: the single generator register, seeded once at load and
      advanced only by reads. */
  class Device {
    var state: bv128

    /** The register is never all-zero. */
    ghost predicate Valid()
      reads this
    {
      state != 0
    }

    /** Module load: install the seed with the top bit forced high. */
    constructor Load(seed: bv64)
      ensures state == Seed(seed)
      ensures Valid()
    {
      state := Seed(seed);
    }

    /** A read through the device: one byte, eight steps, `len` ignored. */
    method DevRead(len: nat, copied: bool) returns (ret: int, delivered: seq<bv8>)
      requires Valid()
      modifies this
      ensures Valid()
      ensures ReadResult(ret, delivered, state) == Read(old(state), len, copied)
    {
      var next;
      ret, delivered, next := ReadLoop(state, len, copied);
      RunNonZero(state, StepsPerByte);
      state := next;
    }

    /** A write through the device: refused, register untouched. */
    method DevWrite(buffer: seq<bv8>, len: nat) returns (ret: int)
      ensures ret == Write(state, buffer, len).ret
    {
      ret := -EFAULT;
    }
  }
}
