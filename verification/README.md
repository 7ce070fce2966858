# LFSR character device, modelled in Dafny

A Dafny model of the `lfsr` Linux kernel module. The module is a character
device backed by a 128-bit linear-feedback shift register (LFSR). On load,
the register is seeded with 64 random bits and its top bit is forced to 1.
Each generator step emits the register's low bit, shifts the register right
by one, and puts the XOR of bits 0, 2, 27 and 29 into bit 127. A read
assembles one byte from eight steps, least-significant bit first, and copies
it to the caller. A write is always refused.

- `lfsr.dfy`, module `Lfsr`: the generator. It has the step (`Step`),
  iterated steps (`Run`), the emitted bit stream (`Output`) and the seed
  expression (`Seed`). Registers are `bv128` and seeds are `bv64`. Register
  bit positions are `bv7` values, so every position 0..127 is a valid index.
- `device.dfy`, module `LfsrDevice`: the device around the generator. It has
  the byte-assembly loop of a read, as a recursive function (`Assemble`) and
  as a loop (`ReadLoop`). It also has the read result (`Read`), the write
  result (`Write`), and a `Device` class that owns the single register.

Reads and writes return the kernel's `ssize_t` convention: `1` for one byte
delivered, `-EFAULT` (`-14`) on failure.

A read ignores its length argument. It always generates one byte and takes
eight steps, even for a length of 0, and returns 1 on success. A write
returns `-EFAULT`. The register shifts right and taps low positions (0, 2,
27, 29), and output bit *i* of a byte goes into bit *i*.

A consequence worth knowing (`NextByteIsLowByte`): the register shifts right
and emits its low bit, so the byte a read returns is the low byte of the
register at the start of the read. The first eight reads after loading
therefore return the seed, low byte first (`SeededReadsAreSeedBytes`). Every
bit of reads nine to fifteen is 0 and read sixteen has only bit 7 set
(`0x00` seven times, then `0x80`): those bits are the register's
forced-zero bits 64..126 and its forced-one bit 127 (`SeededReadsAfterSeed`).

## Model

| member | source | states |
|---|---|---|
| Lfsr.Step | lfsr.c:71-75 | The emitted bit is bit 0 of the register before the step. The new register is the old one shifted right by one, and its only bit from the XOR term is bit 127: old bit 0 XOR 2 XOR 27 XOR 29. A non-zero register stays non-zero. |
| Lfsr.StepShiftsBits | lfsr.c:73 | For every position 0..126, bit *i* after a step equals bit *i+1* before it. |
| Lfsr.StepShiftsBit | lfsr.c:73 | The same shift property, for one given position below 127. |
| Lfsr.StepFeedsTop | lfsr.c:73 | Bit 127 after a step is bit 0 XOR bit 2 XOR bit 27 XOR bit 29 of the register before it. |
| Lfsr.Seed | lfsr.c:27-28 | The loaded register has bit 127 set. Bits 0..63 are the seed's bits and bits 64..126 are zero, so the register is non-zero. |
| Lfsr.SeedRoundTrip | lfsr.c:28 | The seed can be read back from the low 64 bits of the loaded register. |
| Lfsr.SeedInjective | lfsr.c:28 | Different seeds give different loaded registers. |
| Lfsr.RunAdd | lfsr.c:71-75 | Running *a* steps and then *b* more equals running *a + b* steps. |
| Lfsr.RunNonZero | lfsr.c:73 | From a non-zero register, no number of steps reaches the all-zero register. |
| Lfsr.SeededRunNonZero | lfsr.c:28 | Every register reachable from any seeded start is non-zero. |
| Lfsr.OutputIsStartBit | lfsr.c:72-73 | For *i* < 128, the *i*-th emitted bit is bit *i* of the starting register. |
| Lfsr.OutputAfterStep | lfsr.c:71-75 | The bits emitted after one step are the original stream, one position later. |
| Lfsr.OutputShift | lfsr.c:71-75 | Bit *n* of the stream from the register *a* steps on is bit *a + n* of the original stream. |
| LfsrDevice.AssembleOnceAdvances | lfsr.c:63-64 | One loop iteration steps the register once and ORs its output into bit *i* of the accumulator. Bits below *i* hold earlier outputs and bits above stay zero. |
| LfsrDevice.Assemble | lfsr.c:62-64 | Starting the byte loop from any iteration with a consistent accumulator, the register ends 8 steps past the read's start. Bit *j* of the byte is the *j*-th output. |
| LfsrDevice.NextByte | lfsr.c:61-64 | From a zeroed accumulator, bit *j* of the assembled byte is the *j*-th step output for *j* = 0..7, and the register has advanced exactly 8 steps. |
| LfsrDevice.Read | lfsr.c:60-69 | The register advances 8 steps whether or not the copy succeeds. The read returns 1 exactly when the copy succeeds and -EFAULT exactly when it fails. On success the single delivered byte carries the 8 outputs, least-significant bit first; on failure nothing is delivered. |
| LfsrDevice.ReadIgnoresLength | lfsr.c:60-69 | Two reads from the same register with any two lengths, including 0, give identical results. |
| LfsrDevice.ReadLoop | lfsr.c:60-69 | The loop form of the read, with counter 0..7 that ORs `out << i` into `c`, computes the same return value, delivered byte and final register as `Read`. |
| LfsrDevice.Write | lfsr.c:50-53 | A write returns -EFAULT for any buffer and length, and leaves the register unchanged. |
| LfsrDevice.WriteThenRead | lfsr.c:50-53 | A read after a refused write gives exactly what the read would have given without the write. |
| LfsrDevice.NextByteIsLowByte | lfsr.c:60-75 | The byte a read assembles equals the low 8 bits of the register at the start of the read. |
| LfsrDevice.ReadsAreConsecutive | lfsr.c:60-69 | In *k* successful reads, the *m*-th read's byte is the byte assembled from the register 8·*m* steps after the first read began. |
| LfsrDevice.ReadsFollowStream | lfsr.c:60-69 | Bit *j* of the *m*-th byte of successive reads is bit 8·*m* + *j* of the generator's stream. No bit is skipped or repeated between reads. |
| LfsrDevice.SeededReadsAreSeedBytes | lfsr.c:27-28 | Bit *j* of the *m*-th of the first eight successful reads after loading is bit 8·*m* + *j* of the seed. |
| LfsrDevice.SeededReadsAfterSeed | lfsr.c:28 | For successful reads nine to sixteen after loading, every bit is 0 except bit 7 of the sixteenth read, which is 1. |
| LfsrDevice.ReadsAdvance | lfsr.c:60-69 | After any sequence of reads, successful or failed, the register has advanced exactly 8 steps per read. |
| LfsrDevice.Device.Load | lfsr.c:26-28 | After load the device's register is `Seed(seed)`, so it is non-zero (`Valid`). |
| LfsrDevice.Device.DevRead | lfsr.c:60-69 | A read through the device object has the result of `Read` on the register it held, and it keeps the register non-zero. |
| LfsrDevice.Device.DevWrite | lfsr.c:50-53 | A write through the device object returns -EFAULT and does not modify the register. |

## Left out

- `get_random_u64` (lfsr.c:27) is an external entropy source. The seed is a `bv64` parameter of `Seed` and `Device.Load`.
- `copy_to_user` (lfsr.c:66) is a foreign call. Its outcome is the `copied` flag of a read: `true` when it reports 0 bytes left uncopied. A failed copy delivers nothing.
- Device registration is kernel plumbing and is not modelled. This covers `register_chrdev` and its negative-major error path (lfsr.c:29-37), `unregister_chrdev` and `lfsr_exit` (lfsr.c:40-43), and `module_init`/`module_exit` (lfsr.c:77-78).
- `printk` logging, `dev_open` and `dev_release` (lfsr.c:45-48, 55-58) only log and return 0. They have no effect on the register.
- The register is one unsynchronised global (lfsr.c:24). Concurrent reads are not modelled: the `Device` object is a single sequential owner.
- The reader's `loff_t` offset and `struct file` arguments are never used by the code and are not modelled.
- `char c` (lfsr.c:62) is a plain `char`, whose signedness depends on the compiler and kernel build. The model uses the `bv8` with the same bit pattern, which is what `copy_to_user` copies.
