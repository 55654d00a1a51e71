# fastcrc: a verified model of the table-driven CRC-32 engine

fastcrc computes 32-bit cyclic redundancy checks. One generic engine does the work. It is
parameterised by a record: the polynomial, the register preset, the output XOR mask, and two
reflection flags. The crate fixes two instances of that record:

- CRC-32/ISO-HDLC (the IEEE 802.3 frame check sequence, clause 3.2.9);
- CRC-32C (Castagnoli), the iSCSI digest of section 12.1 of RFC 3720.

Each instance has a digest object and a one-shot helper.

The model has three modules, one per source file:

- `CrcCore` (`crccore.dfy`, for `fastcrc/src/core.rs`):
  - the `Algorithm32` parameter record, as a datatype;
  - `reflect_bits` as the method `ReflectBits`, proved against the bit-reversal function `Reflect`;
  - `build_table` as `BuildTable`, which fills a fresh 256-word array in place. It is proved against `Table`, whose entry `i` is eight rounds of one-bit polynomial division seeded with `i`;
  - the reflected and standard byte loops (`UpdateReflected`, `UpdateStandard`), proved against the folds `FoldReflected` and `FoldStandard`;
  - `finalize_value` (`FinalizeValue`);
  - the engine `Crc32Engine`, a class with the parameters and the table as constants and one mutable register `state`.
- `Crc32` (`crc32.dfy`, for `fastcrc/src/crc32.rs`):
  - the `CRC32` record;
  - the `Crc32` digest, which delegates to an inner engine;
  - the one-shot helper `Crc32Of`;
  - the known answer for "123456789".
- `Crc32c` (`crc32c.dfy`, for `fastcrc/src/crc32c.rs`):
  - the same pieces for `CRC32C`;
  - the digest fed in fixed-size pieces (`StreamInChunks`);
  - the three catalogue vectors.

Registers and table words are `bv32` and bytes are `bv8`. The truncating casts and the left
shifts that drop high bits in the source therefore need no extra modelling. The reflection
width and the loop counter of `reflect_bits` are `bv8`, like the source's `u8`.

The known-answer lemmas compute the checksum byte by byte. Each byte gets one lemma that names
the table entry it selects. A trace lemma (`FoldReflectedTrace`) then chains those steps into
the fold. The 43-byte string is handled in five blocks of at most nine bytes, which are joined
with the streaming lemma `FoldReflectedAppend`.

## Model

| member | source | states |
|---|---|---|
| CrcCore.ReflectBits | fastcrc/src/core.rs:194-206 | the loop returns `Reflect(value, width)`: bit `j` of the result is bit `width-1-j` of `value` for `j < width`, and 0 above `width` |
| CrcCore.ReflectBit | fastcrc/src/core.rs:194-206 | the characterisation of bit reversal, for every bit position and every width |
| CrcCore.ReflectFits | fastcrc/src/core.rs:194-206 | for `width <= 32`, the reversed value fits in `width` bits |
| CrcCore.ReflectInvolution | fastcrc/src/core.rs:194-206 | reflecting twice at width `w <= 32` returns any `v < 2^w` unchanged |
| CrcCore.ReflectInjective | fastcrc/src/core.rs:142 | the 32-bit reversal used by finalisation maps distinct registers to distinct values |
| CrcCore.ReflectExamples | fastcrc/src/core.rs:216-219 | reversing 0b1001 over 4 bits gives 0b1001, and reversing 0b0011 gives 0b1100 |
| CrcCore.RoundReflectedCases | fastcrc/src/core.rs:170-174 | one reflected division round: shift right, and XOR in the divisor exactly when the low bit was set |
| CrcCore.RoundStandardCases | fastcrc/src/core.rs:182-186 | one standard division round: shift left, and XOR in the polynomial exactly when the top bit was set |
| CrcCore.DivideReflected | fastcrc/src/core.rs:168-176 | the inner loop computes eight reflected rounds of its seed |
| CrcCore.DivideStandard | fastcrc/src/core.rs:180-188 | the inner loop computes eight standard rounds of its seed |
| CrcCore.BuildTable | fastcrc/src/core.rs:163-192 | returns a fresh 256-word array whose entry `i` is eight division rounds: seeded with `i` against the reflected polynomial in the reflected branch, and seeded with `i << 24` against the polynomial in the standard branch |
| CrcCore.Table | fastcrc/src/core.rs:164 | the table has 256 entries |
| CrcCore.RoundsZero | fastcrc/src/core.rs:168-188 | division of a zero register stays zero for any number of rounds |
| CrcCore.TableZero | fastcrc/src/core.rs:163-192 | entry 0 of the table is 0 in both branches |
| CrcCore.UpdateReflected | fastcrc/src/core.rs:147-153 | the right-shifting loop returns the reflected fold of `data` from `state` |
| CrcCore.UpdateStandard | fastcrc/src/core.rs:155-161 | the left-shifting loop returns the standard fold of `data` from `state` |
| CrcCore.FoldReflectedCons | fastcrc/src/core.rs:148-151 | the reflected fold takes the first byte with one table step, then folds the rest |
| CrcCore.FoldStandardCons | fastcrc/src/core.rs:156-159 | the standard fold takes the first byte with one table step, then folds the rest |
| CrcCore.FoldReflectedAppend | fastcrc/src/core.rs:147-153 | folding `a` then `b` with the reflected loop equals folding `a + b` |
| CrcCore.FoldStandardAppend | fastcrc/src/core.rs:155-161 | folding `a` then `b` with the standard loop equals folding `a + b` |
| CrcCore.FoldReflectedTrace | fastcrc/src/core.rs:147-153 | a sequence of registers linked by one table step per byte runs from the fold's start to its result |
| CrcCore.AbsorbedAppend | fastcrc/src/core.rs:77-88 | streaming: absorbing `a` and then `b` leaves the same register as absorbing `a + b`, whichever loop the flags select |
| CrcCore.AbsorbedEmpty | fastcrc/src/core.rs:77-88 | absorbing no bytes leaves the register unchanged |
| CrcCore.FinalizeValueCases | fastcrc/src/core.rs:139-145 | the checksum is the register XOR `xorOut` when the reflection flags agree, and the 32-bit reversal of the register XOR `xorOut` when they differ |
| CrcCore.FinalizeValueInjective | fastcrc/src/core.rs:139-145 | finalisation loses no information: distinct registers give distinct checksums |
| CrcCore.BigEndianRoundTrip | fastcrc/src/core.rs:122 | the four big-endian bytes of a word decode back to the word |
| CrcCore.FinalizeIsComplement | fastcrc/src/core.rs:139-145 | with matching reflection flags and an all-ones output mask (both shipped variants), the checksum is the bitwise complement of the register and is never bit-reversed |
| CrcCore.EmptyChecksum | fastcrc/src/core.rs:69-75 | with matching reflection flags and an output mask equal to the preset, the checksum of no bytes is 0 |
| CrcCore.Crc32Engine.constructor | fastcrc/src/core.rs:69-75 | the new engine keeps `params`, owns a fresh table equal to `Table(polynomial, reflectIn)`, and has its register at `init` |
| CrcCore.Crc32Engine.Absorb | fastcrc/src/core.rs:77-83 | changes only the register, which becomes the chosen loop's fold of `data`; the table keeps its contents |
| CrcCore.Crc32Engine.Update | fastcrc/src/core.rs:86-88 | the same as `Absorb` |
| CrcCore.Crc32Engine.Reset | fastcrc/src/core.rs:91-93 | the register returns to `init`, nothing else changes, and the engine stays consistent with its parameters |
| CrcCore.Crc32Engine.FinalizeU32 | fastcrc/src/core.rs:96-98 | returns `FinalizeValue(state, params)` and modifies nothing, so repeated calls agree |
| CrcCore.Crc32Engine.FinalizeInto | fastcrc/src/core.rs:120-124 | writes the four big-endian bytes of the checksum, which decode to the checksum |
| CrcCore.Crc32Engine.FinalizeIntoReset | fastcrc/src/core.rs:126-131 | writes the big-endian bytes of the checksum of the old register, then leaves the register at `init` |
| Crc32.Crc32.constructor | fastcrc/src/crc32.rs:32-37 | a fresh engine with the IEEE parameters, register 0xFFFFFFFF, and the reflected table of 0x04C11DB7 |
| Crc32.Crc32.Update | fastcrc/src/crc32.rs:55-59 | the inner register absorbs `data` with the IEEE table |
| Crc32.Crc32.Reset | fastcrc/src/crc32.rs:61-65 | only the inner register changes, and it becomes 0xFFFFFFFF |
| Crc32.Crc32.FinalizeU32 | fastcrc/src/crc32.rs:40-42 | returns the complement of the inner register and changes nothing |
| Crc32.Crc32.FinalizeInto | fastcrc/src/crc32.rs:67-71 | writes the big-endian bytes of the complemented register |
| Crc32.Crc32.FinalizeIntoReset | fastcrc/src/crc32.rs:73-77 | writes the big-endian checksum of the old register, then restores 0xFFFFFFFF |
| Crc32.Crc32Of | fastcrc/src/crc32.rs:82-86 | the one-shot helper returns `Checksum(CRC32, data)`, the value of a fresh digest after one update |
| Crc32.ReflectedPolynomial | fastcrc/src/core.rs:166 | reversing 0x04C11DB7 over 32 bits gives 0xEDB88320 |
| Crc32.DigitsCheckValue | fastcrc/src/crc32.rs:92-96 | the IEEE checksum of "123456789" is 0xCBF43926 |
| Crc32.EngineKnownChecksum | fastcrc/src/core.rs:222-226 | an engine built from the IEEE parameters and updated with "123456789" reports 0xCBF43926 |
| Crc32c.EmptyVector | fastcrc/src/crc32c.rs:96 | the Castagnoli checksum of no bytes is 0 |
| Crc32c.Crc32c.constructor | fastcrc/src/crc32c.rs:32-37 | a fresh engine with the Castagnoli parameters, register 0xFFFFFFFF, and the reflected table of 0x1EDC6F41 |
| Crc32c.Crc32c.Update | fastcrc/src/crc32c.rs:55-59 | the inner register absorbs `data` with the Castagnoli table |
| Crc32c.Crc32c.Reset | fastcrc/src/crc32c.rs:61-65 | only the inner register changes, and it becomes 0xFFFFFFFF; the table is untouched |
| Crc32c.Crc32c.FinalizeU32 | fastcrc/src/crc32c.rs:40-42 | returns the complement of the inner register and changes nothing |
| Crc32c.Crc32c.FinalizeInto | fastcrc/src/crc32c.rs:67-71 | writes the big-endian bytes of the complemented register |
| Crc32c.Crc32c.FinalizeIntoReset | fastcrc/src/crc32c.rs:73-77 | writes the big-endian checksum of the old register, then restores 0xFFFFFFFF |
| Crc32c.Crc32cOf | fastcrc/src/crc32c.rs:82-86 | the one-shot helper returns `Checksum(CRC32C, data)` |
| Crc32c.StreamInChunks | fastcrc/src/crc32c.rs:108-116 | feeding any data to one digest in pieces of any positive size gives the one-shot checksum |
| Crc32c.ReflectedPolynomial | fastcrc/src/crc32c.rs:22-23 | reversing 0x1EDC6F41 over 32 bits gives 0x82F63B78 |
| Crc32c.DigitsCheckValue | fastcrc/src/crc32c.rs:97 | the Castagnoli checksum of "123456789" is 0xE3069283 |
| Crc32c.FoxCheckValue | fastcrc/src/crc32c.rs:98 | the Castagnoli checksum of "The quick brown fox jumps over the lazy dog" is 0x22620404 |
| Crc32c.StreamingMatchesOneShot | fastcrc/src/crc32c.rs:108-116 | that string fed in 7-byte pieces and the one-shot helper both give 0x22620404 |

## Left out

- The `name` field takes no part in any computation. It is kept in the record but not reasoned about. The `fmt::Debug` output that prints it (`fastcrc/src/core.rs:101-108`) is diagnostic formatting only.
- The wrappers' `update`, `reset`, `finalize_into` and `finalize_into_reset` exist in Rust only as impls of the `digest` crate's `Update`, `Reset`, `FixedOutput` and `FixedOutputReset` traits. They are modelled as plain methods of `Crc32` and `Crc32c`. The rest of that trait plumbing is not modelled: `OutputSizeUser` with `U4`, `HashMarker`, `Default`, and the engine's duplicate `Update`/`Reset` impls (`fastcrc/src/core.rs:114-118`, `fastcrc/src/core.rs:133-137`), which only forward to `absorb` and `Crc32Engine::reset`. The output buffer is modelled as a 4-element byte sequence.
- `#[derive(Clone)]` on `Crc32Engine`, `Crc32` and `Crc32c` is not modelled. The Dafny classes are references, so assigning a digest to a second variable aliases it rather than copying it, and no copy operation is provided.
- `finalize_u32(self)` and `finalize_into(self, ..)` consume the digest in Rust. Here they are read-only queries on a digest that stays usable.
- No shipped variant uses `reflect_in != reflect_out`. That path is modelled exactly as written, with no claim that it matches a published CRC.
- `fastcrc/src/lib.rs` only declares modules and re-exports, and is not part of this model. The throughput benchmarks (`fastcrc/benches/throughput.rs`) only produce timings and are not part of this model either.
- CrcCore.UpdateReflected, CrcCore.UpdateStandard: the table is indexed by the byte `LowByte(r) ^ b` (or `HighByte(r) ^ b`) instead of the `usize` conversion. The values are the same.
- The table-driven loop is not related to a bit-at-a-time CRC over the message polynomial. The model specifies the table loop by the fold the source computes. Its link to polynomial division is stated per entry, not per message.
