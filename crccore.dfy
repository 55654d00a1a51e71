/**
 * The generic table-driven CRC-32 engine: the parameter record of a CRC-32
 * variant, bit reflection, construction of the 256-entry lookup table, the
 * reflected (right-shifting) and standard (left-shifting) byte loops, the
 * finalisation step, and the streaming engine that owns one register.
 *
 * Registers and table words are `bv32`, bytes are `bv8`, so the truncating
 * casts and the left shifts that drop high bits in the Rust code are the
 * bit-vector operations themselves.
 */
module CrcCore {

  /** Parameters of a CRC-32 variant (an immutable value). */
  datatype Algorithm32 = Algorithm32(
    name: string,        // diagnostic label only
    polynomial: bv32,    // generator polynomial, MSB-first, top bit implicit
    init: bv32,          // register value before any byte is absorbed
    xorOut: bv32,        // mask applied after the optional output reflection
    reflectIn: bool,     // bytes are processed least significant bit first
    reflectOut: bool     // the register is reflected before xorOut
  )

  // ---------------------------------------------------------------------------
  // Bits of a register (positions and widths are `bv8`, as the width argument of
  // the reflection routine is a byte in the Rust code)

  /** The width of the register and of every table word, in bits. */
  const RegisterWidth: bv8 := 32

  /** Bit `j` of `x` is set. */
  predicate Bit(x: bv32, j: bv8)
    requires j < 32
  {
    (x >> j) & 1 == 1
  }

  /** A register whose bits from position `k` up are shifted out has no bit set there. */
  lemma ClearAbove(x: bv32, k: bv8, j: bv8)
    requires k <= j < 32 && x >> k == 0
    ensures !Bit(x, j)
  {
  }

  /** One bit position of a right shift: the shift by `k` is the shift by `k + 1`
      moved back up, with bit `k` brought in at the bottom. */
  lemma ShiftStep(a: bv32, b: bv32, k: bv8)
    requires k < 32 && a >> (k + 1) == b >> (k + 1) && Bit(a, k) == Bit(b, k)
    ensures a >> k == b >> k
  {
  }

  /** Two registers that agree on every bit from position `k` up agree after
      shifting both right by `k`. */
  lemma {:induction false} ShiftedEqual(a: bv32, b: bv32, k: bv8)
    requires k <= 32
    requires forall j: bv8 :: k <= j < 32 ==> Bit(a, j) == Bit(b, j)
    ensures a >> k == b >> k
    decreases 32 - k
  {
    if k < 32 {
      ShiftedEqual(a, b, k + 1);
      ShiftStep(a, b, k);
    }
  }

  /** Registers are equal when all 32 of their bits are. */
  lemma BitsEqual(a: bv32, b: bv32)
    requires forall j: bv8 :: j < 32 ==> Bit(a, j) == Bit(b, j)
    ensures a == b
  {
    ShiftedEqual(a, b, 0);
  }

  // ---------------------------------------------------------------------------
  // Bit reflection

  /** The value the reflection loop holds after `w` rounds over `v`: the low
      `w` bits of `v` in reverse order (bits past position 31 read as zero,
      and the earliest bits are pushed out at the top once `w` exceeds 32). */
  function Reflect(v: bv32, w: bv8): bv32
    decreases w
  {
    if w == 0 then 0
    else (Reflect(v, w - 1) << 1) | (if w - 1 < 32 then (v >> (w - 1)) & 1 else 0)
  }

  /** Shifting in one bit at the bottom: where every bit of the result comes from. */
  lemma ShiftInBit(x: bv32, c: bv32, j: bv8)
    requires c <= 1 && j < 32
    ensures Bit((x << 1) | c, j) == if j == 0 then c == 1 else Bit(x, j - 1)
  {
  }

  /** Bit 0 of `Reflect(v, w)` is the last bit the loop brought in. */
  lemma ReflectBitLow(v: bv32, w: bv8)
    requires 0 < w
    ensures Bit(Reflect(v, w), 0) == (w - 1 < 32 && Bit(v, w - 1))
  {
    var c: bv32 := if w - 1 < 32 then (v >> (w - 1)) & 1 else 0;
    ShiftInBit(Reflect(v, w - 1), c, 0);
  }

  /** A higher bit of `Reflect(v, w)` is one bit lower in `Reflect(v, w - 1)`. */
  lemma ReflectBitHigh(v: bv32, w: bv8, j: bv8)
    requires 0 < w && 0 < j < 32
    ensures Bit(Reflect(v, w), j) == Bit(Reflect(v, w - 1), j - 1)
  {
    var c: bv32 := if w - 1 < 32 then (v >> (w - 1)) & 1 else 0;
    ShiftInBit(Reflect(v, w - 1), c, j);
  }

  /** Index arithmetic for one more round of the reflection loop. */
  lemma IndexShift(w: bv8, j: bv8)
    requires 0 < w && 0 < j < 32
    ensures (j - 1 < w - 1) == (j < w)
    ensures w - 1 - 1 - (j - 1) == w - 1 - j
  {}

  /** Bit `j` of `r` is bit `w - 1 - j` of `v` for every position (zero past the width). */
  ghost predicate Mirrors(r: bv32, v: bv32, w: bv8)
  {
    forall j: bv8 :: j < 32 ==> Bit(r, j) == (j < w && w - 1 - j < 32 && Bit(v, w - 1 - j))
  }

  /** One position of the inductive step of `ReflectMirrors`. */
  lemma ReflectBitNext(v: bv32, w: bv8, j: bv8, prev: bv32)
    requires 0 < w && j < 32 && prev == Reflect(v, w - 1) && Mirrors(prev, v, w - 1)
    ensures Bit(Reflect(v, w), j) == (j < w && w - 1 - j < 32 && Bit(v, w - 1 - j))
  {
    if j == 0 {
      ReflectBitLow(v, w);
    } else {
      IndexShift(w, j);
      ReflectBitHigh(v, w, j);
    }
  }

  /** The inductive step of `ReflectMirrors`. */
  lemma MirrorsNext(v: bv32, w: bv8, prev: bv32)
    requires 0 < w && prev == Reflect(v, w - 1) && Mirrors(prev, v, w - 1)
    ensures Mirrors(Reflect(v, w), v, w)
  {
    forall j: bv8 | j < 32
      ensures Bit(Reflect(v, w), j) == (j < w && w - 1 - j < 32 && Bit(v, w - 1 - j))
    {
      ReflectBitNext(v, w, j, prev);
    }
  }

  /** `Reflect(v, w)` holds the low `w` bits of `v` in reverse order, for every width. */
  lemma {:induction false} ReflectMirrors(v: bv32, w: bv8)
    ensures Mirrors(Reflect(v, w), v, w)
    decreases w
  {
    if w > 0 {
      ReflectMirrors(v, w - 1);
      MirrorsNext(v, w, Reflect(v, w - 1));
    }
  }

  /** Bit `j` of `Reflect(v, w)` is bit `w - 1 - j` of `v`. */
  lemma ReflectBit(v: bv32, w: bv8, j: bv8)
    requires j < 32
    ensures Bit(Reflect(v, w), j) == (j < w && w - 1 - j < 32 && Bit(v, w - 1 - j))
  {
    ReflectMirrors(v, w);
  }

  /** Reflection never sets a bit at or above the width. */
  lemma ReflectFits(v: bv32, w: bv8)
    requires w <= 32
    ensures Reflect(v, w) >> w == 0
  {
    forall j: bv8 | w <= j < 32
      ensures Bit(Reflect(v, w), j) == Bit(0, j)
    {
      ReflectBit(v, w, j);
    }
    ShiftedEqual(Reflect(v, w), 0, w);
  }

  /** Index arithmetic for the mirror image of a position below the width. */
  lemma Mirror(w: bv8, j: bv8)
    requires j < w <= 32
    ensures w - 1 - j < w && w - 1 - j < 32 && w - 1 - (w - 1 - j) == j
  {}

  /** A bit below the width comes back to its place after two reflections. */
  lemma ReflectTwiceLow(v: bv32, w: bv8, j: bv8)
    requires j < w <= 32
    ensures Bit(Reflect(Reflect(v, w), w), j) == Bit(v, j)
  {
    var k := w - 1 - j;
    Mirror(w, j);
    ReflectBit(Reflect(v, w), w, j);
    ReflectBit(v, w, k);
  }

  /** A bit at or above the width stays clear after two reflections. */
  lemma ReflectTwiceHigh(v: bv32, w: bv8, j: bv8)
    requires w <= j < 32 && v >> w == 0
    ensures Bit(Reflect(Reflect(v, w), w), j) == Bit(v, j)
  {
    ReflectBit(Reflect(v, w), w, j);
    ClearAbove(v, w, j);
  }

  /** Reflecting twice at the same width gives back any value that fits in the width. */
  lemma ReflectInvolution(v: bv32, w: bv8)
    requires w <= 32 && v >> w == 0
    ensures Reflect(Reflect(v, w), w) == v
  {
    forall j: bv8 | j < 32
      ensures Bit(Reflect(Reflect(v, w), w), j) == Bit(v, j)
    {
      if j < w {
        ReflectTwiceLow(v, w, j);
      } else {
        ReflectTwiceHigh(v, w, j);
      }
    }
    BitsEqual(Reflect(Reflect(v, w), w), v);
  }

  /** Full-width reflection is one-to-one. */
  lemma ReflectInjective(a: bv32, b: bv32)
    requires Reflect(a, RegisterWidth) == Reflect(b, RegisterWidth)
    ensures a == b
  {
    ReflectInvolution(a, RegisterWidth);
    ReflectInvolution(b, RegisterWidth);
  }

  /** Four-bit reflections: a palindrome stays, `0011` becomes `1100`. */
  lemma ReflectExamples()
    ensures Reflect(0x9, 4) == 0x9
    ensures Reflect(0x3, 4) == 0xC
  {
  }

  /** The input still to be consumed after `i` rounds of the reflection loop. */
  function Remaining(value: bv32, i: bv8): bv32
  {
    if i <= 32 then value >> i else 0
  }

  /** One round of the reflection loop: shifting out the low bit of what remains. */
  lemma RemainingStep(value: bv32, i: bv8)
    requires i < 255
    ensures Remaining(value, i) >> 1 == Remaining(value, i + 1)
  {
  }

  /** One round of the reflection loop: the low bit of what remains enters the result. */
  lemma ReflectStep(value: bv32, i: bv8)
    requires i < 255
    ensures Reflect(value, i + 1) ==
      if Remaining(value, i) & 1 != 0 then (Reflect(value, i) << 1) | 1 else Reflect(value, i) << 1
  {
  }

  /** The reflection loop of fastcrc: `width` rounds, each shifting the
      result left and bringing in the low bit of the shrinking input. */
  method ReflectBits(value: bv32, width: bv8) returns (reversed: bv32)
    ensures reversed == Reflect(value, width)
  {
    reversed := 0;
    var v := value;
    var i: bv8 := 0;
    while i < width
      invariant i <= width
      invariant reversed == Reflect(value, i)
      invariant v == Remaining(value, i)
      decreases 255 - i
    {
      ReflectStep(value, i);
      RemainingStep(value, i);
      reversed := reversed << 1;
      if v & 1 != 0 {
        reversed := reversed | 1;
      }
      v := v >> 1;
      i := i + 1;
    }
  }

  // ---------------------------------------------------------------------------
  // Lookup table

  /** One round of polynomial division, reflected direction: shift right and
      subtract (XOR) the divisor when the bit shifted out at the bottom was set.
      `0 - b` for a bit `b` is all ones or all zeros, so the divisor is masked
      in exactly when that bit was set. */
  function RoundReflected(crc: bv32, divisor: bv32): bv32
  {
    (crc >> 1) ^ (divisor & (0 - (crc & 1)))
  }

  /** One round of polynomial division, standard direction: shift left and
      subtract (XOR) the divisor when the bit shifted out at the top was set. */
  function RoundStandard(crc: bv32, divisor: bv32): bv32
  {
    (crc << 1) ^ (divisor & (0 - (crc >> 31)))
  }

  /** The two cases of a reflected round, as the Rust code branches on them. */
  lemma RoundReflectedCases(crc: bv32, divisor: bv32)
    ensures crc & 1 != 0 ==> RoundReflected(crc, divisor) == (crc >> 1) ^ divisor
    ensures crc & 1 == 0 ==> RoundReflected(crc, divisor) == crc >> 1
  {}

  /** The two cases of a standard round, as the Rust code branches on them. */
  lemma RoundStandardCases(crc: bv32, divisor: bv32)
    ensures crc & 0x8000_0000 != 0 ==> RoundStandard(crc, divisor) == (crc << 1) ^ divisor
    ensures crc & 0x8000_0000 == 0 ==> RoundStandard(crc, divisor) == crc << 1
  {}

  function Round(crc: bv32, divisor: bv32, reflect: bool): bv32
  {
    if reflect then RoundReflected(crc, divisor) else RoundStandard(crc, divisor)
  }

  /** `n` rounds of polynomial division starting from `crc`. */
  function Rounds(crc: bv32, divisor: bv32, reflect: bool, n: nat): bv32
  {
    if n == 0 then crc else Round(Rounds(crc, divisor, reflect, n - 1), divisor, reflect)
  }

  /** The divisor the table is built with: the polynomial itself, or its
      32-bit reflection for the right-shifting form. */
  function Divisor(polynomial: bv32, reflect: bool): bv32
  {
    if reflect then Reflect(polynomial, RegisterWidth) else polynomial
  }

  /** The register a table entry starts from: the index itself in the reflected
      form, the index moved into the top byte in the standard form. */
  function Seed(i: bv8, reflect: bool): bv32
  {
    if reflect then i as bv32 else (i as bv32) << 24
  }

  /** Table entry `i`: eight rounds of division of the seed for `i`. */
  function TableEntry(polynomial: bv32, reflect: bool, i: bv8): bv32
  {
    Rounds(Seed(i, reflect), Divisor(polynomial, reflect), reflect, 8)
  }

  /** The 256-entry lookup table for a polynomial and a direction. */
  function Table(polynomial: bv32, reflect: bool): (t: seq<bv32>)
    ensures |t| == 256
  {
    seq(256, k requires 0 <= k < 256 => TableEntry(polynomial, reflect, k as bv8))
  }

  /** The zero register divides to zero, so entry 0 of either table is 0. */
  lemma {:induction false} RoundsZero(divisor: bv32, reflect: bool, n: nat)
    ensures Rounds(0, divisor, reflect, n) == 0
  {
    if n > 0 {
      RoundsZero(divisor, reflect, n - 1);
    }
  }

  /** Entry 0 of either table is 0. */
  lemma TableZero(polynomial: bv32, reflect: bool)
    ensures Table(polynomial, reflect)[0] == 0
  {
    RoundsZero(Divisor(polynomial, reflect), reflect, 8);
  }

  /** The inner loop of the reflected branch of `build_table`: eight rounds of
      right-shifting division of `seed`. */
  method DivideReflected(seed: bv32, divisor: bv32) returns (crc: bv32)
    ensures crc == Rounds(seed, divisor, true, 8)
  {
    crc := seed;
    var round := 0;
    while round < 8
      invariant 0 <= round <= 8
      invariant crc == Rounds(seed, divisor, true, round)
    {
      RoundReflectedCases(crc, divisor);
      if crc & 1 != 0 {
        crc := (crc >> 1) ^ divisor;
      } else {
        crc := crc >> 1;
      }
      round := round + 1;
    }
  }

  /** The inner loop of the standard branch of `build_table`: eight rounds of
      left-shifting division of `seed`. */
  method DivideStandard(seed: bv32, divisor: bv32) returns (crc: bv32)
    ensures crc == Rounds(seed, divisor, false, 8)
  {
    crc := seed;
    var round := 0;
    while round < 8
      invariant 0 <= round <= 8
      invariant crc == Rounds(seed, divisor, false, round)
    {
      RoundStandardCases(crc, divisor);
      if crc & 0x8000_0000 != 0 {
        crc := (crc << 1) ^ divisor;
      } else {
        crc := crc << 1;
      }
      round := round + 1;
    }
  }

  /** `build_table`: fills a fresh 256-word array, one entry per index, each by
      eight rounds of division in the direction `reflect` selects. */
  method BuildTable(polynomial: bv32, reflect: bool) returns (table: array<bv32>)
    ensures fresh(table) && table.Length == 256
    ensures table[..] == Table(polynomial, reflect)
  {
    table := new bv32[256];
    var reflected := 0;
    if reflect {
      reflected := ReflectBits(polynomial, RegisterWidth);
    }
    var i := 0;
    while i < 256
      invariant 0 <= i <= 256
      invariant forall k :: 0 <= k < i ==> table[k] == TableEntry(polynomial, reflect, k as bv8)
    {
      var crc;
      if reflect {
        crc := DivideReflected(i as bv32, reflected);
      } else {
        crc := DivideStandard((i as bv32) << 24, polynomial);
      }
      table[i] := crc;
      i := i + 1;
    }
  }

  // ---------------------------------------------------------------------------
  // Absorbing bytes

  /** The low byte of the register (the truncating cast `state as u8`). */
  function LowByte(x: bv32): bv8
  {
    (x & 0xFF) as bv8
  }

  /** The high byte of the register (`(state >> 24) as u8`). */
  function HighByte(x: bv32): bv8
  {
    (x >> 24) as bv8
  }

  /** One byte through the reflected table loop. */
  function StepReflected(state: bv32, table: seq<bv32>, byte: bv8): bv32
    requires |table| == 256
  {
    (state >> 8) ^ table[LowByte(state) ^ byte]
  }

  /** One byte through the standard table loop; the left shift drops the top byte. */
  function StepStandard(state: bv32, table: seq<bv32>, byte: bv8): bv32
    requires |table| == 256
  {
    (state << 8) ^ table[HighByte(state) ^ byte]
  }

  /** The register after feeding `data`, in order, through the reflected loop. */
  function FoldReflected(state: bv32, table: seq<bv32>, data: seq<bv8>): bv32
    requires |table| == 256
    decreases |data|
  {
    if data == [] then state else FoldReflected(StepReflected(state, table, data[0]), table, data[1..])
  }

  /** The register after feeding `data`, in order, through the standard loop. */
  function FoldStandard(state: bv32, table: seq<bv32>, data: seq<bv8>): bv32
    requires |table| == 256
    decreases |data|
  {
    if data == [] then state else FoldStandard(StepStandard(state, table, data[0]), table, data[1..])
  }

  /** The first byte of non-empty `data` is absorbed first. */
  lemma FoldReflectedCons(state: bv32, table: seq<bv32>, data: seq<bv8>)
    requires |table| == 256 && data != []
    ensures FoldReflected(state, table, data) == FoldReflected(StepReflected(state, table, data[0]), table, data[1..])
  {}

  /** Feeding `a` and then `b` through the reflected loop is feeding `a + b`. */
  lemma {:induction false} FoldReflectedAppend(state: bv32, table: seq<bv32>, a: seq<bv8>, b: seq<bv8>)
    requires |table| == 256
    ensures FoldReflected(FoldReflected(state, table, a), table, b) == FoldReflected(state, table, a + b)
    decreases |a|
  {
    if a == [] {
      assert a + b == b;
    } else {
      assert (a + b)[1..] == a[1..] + b;
      FoldReflectedAppend(StepReflected(state, table, a[0]), table, a[1..], b);
    }
  }

  /** The first byte of non-empty `data` is absorbed first. */
  lemma FoldStandardCons(state: bv32, table: seq<bv32>, data: seq<bv8>)
    requires |table| == 256 && data != []
    ensures FoldStandard(state, table, data) == FoldStandard(StepStandard(state, table, data[0]), table, data[1..])
  {}

  /** Feeding `a` and then `b` through the standard loop is feeding `a + b`. */
  lemma {:induction false} FoldStandardAppend(state: bv32, table: seq<bv32>, a: seq<bv8>, b: seq<bv8>)
    requires |table| == 256
    ensures FoldStandard(FoldStandard(state, table, a), table, b) == FoldStandard(state, table, a + b)
    decreases |a|
  {
    if a == [] {
      assert a + b == b;
    } else {
      assert (a + b)[1..] == a[1..] + b;
      FoldStandardAppend(StepStandard(state, table, a[0]), table, a[1..], b);
    }
  }

  /**
   * The reflected loop is determined by its trace: if `trace` lists the
   * register before each byte and after the last one, the fold ends on the
   * last entry.
   */
  lemma {:induction false} FoldReflectedTrace(t: seq<bv32>, data: seq<bv8>, trace: seq<bv32>)
    requires |t| == 256 && |trace| == |data| + 1
    requires forall i :: 0 <= i < |data| ==> StepReflected(trace[i], t, data[i]) == trace[i + 1]
    ensures FoldReflected(trace[0], t, data) == trace[|data|]
    decreases |data|
  {
    if data != [] {
      FoldReflectedCons(trace[0], t, data);
      FoldReflectedTrace(t, data[1..], trace[1..]);
    }
  }

  /** The fold from position `i` of `data` takes byte `i` first. */
  lemma FoldReflectedNext(r: bv32, t: seq<bv32>, data: seq<bv8>, i: int)
    requires |t| == 256 && 0 <= i < |data|
    ensures FoldReflected(r, t, data[i..]) == FoldReflected(StepReflected(r, t, data[i]), t, data[i + 1..])
  {
    FoldReflectedCons(r, t, data[i..]);
    assert data[i..][1..] == data[i + 1..];
  }

  /** One iteration of the loop over an array advances the fold by one byte. */
  lemma StepReflectedArray(r: bv32, table: array<bv32>, data: seq<bv8>, i: int)
    requires table.Length == 256 && 0 <= i < |data|
    ensures FoldReflected((r >> 8) ^ table[LowByte(r) ^ data[i]], table[..], data[i + 1..]) == FoldReflected(r, table[..], data[i..])
  {
    FoldReflectedNext(r, table[..], data, i);
  }

  /** `update_reflected`: the byte loop over a right-shifting table. */
  method UpdateReflected(state: bv32, table: array<bv32>, data: seq<bv8>) returns (r: bv32)
    requires table.Length == 256
    ensures r == FoldReflected(state, table[..], data)
  {
    r := state;
    var i := 0;
    while i < |data|
      invariant 0 <= i <= |data|
      invariant FoldReflected(r, table[..], data[i..]) == FoldReflected(state, table[..], data)
    {
      StepReflectedArray(r, table, data, i);
      r := (r >> 8) ^ table[LowByte(r) ^ data[i]];
      i := i + 1;
    }
    assert data[i..] == [];
  }

  /** The fold from position `i` of `data` takes byte `i` first. */
  lemma FoldStandardNext(r: bv32, t: seq<bv32>, data: seq<bv8>, i: int)
    requires |t| == 256 && 0 <= i < |data|
    ensures FoldStandard(r, t, data[i..]) == FoldStandard(StepStandard(r, t, data[i]), t, data[i + 1..])
  {
    FoldStandardCons(r, t, data[i..]);
    assert data[i..][1..] == data[i + 1..];
  }

  /** One iteration of the loop over an array advances the fold by one byte. */
  lemma StepStandardArray(r: bv32, table: array<bv32>, data: seq<bv8>, i: int)
    requires table.Length == 256 && 0 <= i < |data|
    ensures FoldStandard((r << 8) ^ table[HighByte(r) ^ data[i]], table[..], data[i + 1..]) == FoldStandard(r, table[..], data[i..])
  {
    FoldStandardNext(r, table[..], data, i);
  }

  /** `update_standard`: the byte loop over a left-shifting table. */
  method UpdateStandard(state: bv32, table: array<bv32>, data: seq<bv8>) returns (r: bv32)
    requires table.Length == 256
    ensures r == FoldStandard(state, table[..], data)
  {
    r := state;
    var i := 0;
    while i < |data|
      invariant 0 <= i <= |data|
      invariant FoldStandard(r, table[..], data[i..]) == FoldStandard(state, table[..], data)
    {
      StepStandardArray(r, table, data, i);
      r := (r << 8) ^ table[HighByte(r) ^ data[i]];
      i := i + 1;
    }
    assert data[i..] == [];
  }

  /**
   * The register after absorbing `data` from `state` with the table that a
   * variant with `params` builds: the loop is chosen by `reflectIn`.
   */
  function Absorbed(params: Algorithm32, state: bv32, data: seq<bv8>): bv32
  {
    if params.reflectIn then FoldReflected(state, Table(params.polynomial, true), data)
    else FoldStandard(state, Table(params.polynomial, false), data)
  }

  /** Streaming: absorbing `a` and then `b` is absorbing `a + b`, in either loop. */
  lemma AbsorbedAppend(params: Algorithm32, state: bv32, a: seq<bv8>, b: seq<bv8>)
    ensures Absorbed(params, Absorbed(params, state, a), b) == Absorbed(params, state, a + b)
  {
    if params.reflectIn {
      FoldReflectedAppend(state, Table(params.polynomial, true), a, b);
    } else {
      FoldStandardAppend(state, Table(params.polynomial, false), a, b);
    }
  }

  /** Absorbing no bytes leaves the register as it was. */
  lemma AbsorbedEmpty(params: Algorithm32, state: bv32)
    ensures Absorbed(params, state, []) == state
  {}

  // ---------------------------------------------------------------------------
  // Finalisation

  /**
   * `finalize_value`: the register, bit-reversed over all 32 bits when the input
   * and output reflection flags differ, then masked with `xorOut`.
   */
  function FinalizeValue(state: bv32, params: Algorithm32): bv32
  {
    (if params.reflectIn != params.reflectOut then Reflect(state, RegisterWidth) else state) ^ params.xorOut
  }

  /** The two shapes of the finalisation, by whether the reflection flags agree. */
  lemma FinalizeValueCases(state: bv32, params: Algorithm32)
    ensures params.reflectIn != params.reflectOut ==> FinalizeValue(state, params) == Reflect(state, RegisterWidth) ^ params.xorOut
    ensures params.reflectIn == params.reflectOut ==> FinalizeValue(state, params) == state ^ params.xorOut
  {}

  /** Distinct registers finalise to distinct checksums. */
  lemma FinalizeValueInjective(a: bv32, b: bv32, params: Algorithm32)
    requires FinalizeValue(a, params) == FinalizeValue(b, params)
    ensures a == b
  {
    FinalizeValueCases(a, params);
    FinalizeValueCases(b, params);
    if params.reflectIn != params.reflectOut {
      ReflectInjective(a, b);
    }
  }

  /** The four bytes of `x`, most significant first (`u32::to_be_bytes`). */
  function ToBigEndian(x: bv32): (bytes: seq<bv8>)
    ensures |bytes| == 4
  {
    [(x >> 24) as bv8, ((x >> 16) & 0xFF) as bv8, ((x >> 8) & 0xFF) as bv8, (x & 0xFF) as bv8]
  }

  /** The word whose big-endian bytes are `bytes` (`u32::from_be_bytes`). */
  function FromBigEndian(bytes: seq<bv8>): bv32
    requires |bytes| == 4
  {
    ((bytes[0] as bv32) << 24) | ((bytes[1] as bv32) << 16) | ((bytes[2] as bv32) << 8) | (bytes[3] as bv32)
  }

  /** The big-endian encoding loses nothing. */
  lemma BigEndianRoundTrip(x: bv32)
    ensures FromBigEndian(ToBigEndian(x)) == x
  {}

  /** The value a fresh engine for `params` reports after one update with `data`. */
  function Checksum(params: Algorithm32, data: seq<bv8>): bv32
  {
    FinalizeValue(Absorbed(params, params.init, data), params)
  }

  /**
   * With matching reflection flags and an all-ones output mask, the checksum is
   * the bitwise complement of the register: nothing is bit-reversed.
   */
  lemma FinalizeIsComplement(state: bv32, params: Algorithm32)
    requires params.reflectIn == params.reflectOut && params.xorOut == 0xFFFF_FFFF
    ensures FinalizeValue(state, params) == !state
  {
    FinalizeValueCases(state, params);
  }

  /**
   * With matching reflection flags and an output mask equal to the preset, the
   * checksum of no bytes is zero.
   */
  lemma EmptyChecksum(params: Algorithm32)
    requires params.reflectIn == params.reflectOut && params.init == params.xorOut
    ensures Checksum(params, []) == 0
  {
    AbsorbedEmpty(params, params.init);
    FinalizeValueCases(params.init, params);
  }

  // ---------------------------------------------------------------------------
  // The streaming engine

  /**
   * A streaming CRC-32 engine for one variant: the parameters and the lookup
   * table are fixed at construction, the register is the only mutable part.
   */
  class Crc32Engine {
    const params: Algorithm32
    const table: array<bv32>
    var state: bv32

    /** The table is the one the parameters call for. */
    ghost predicate Valid()
      reads this, table
    {
      table.Length == 256 && table[..] == Table(params.polynomial, params.reflectIn)
    }

    /** `Crc32Engine::new`: build the table, load the initial register. */
    constructor (params: Algorithm32)
      ensures Valid() && fresh(table)
      ensures this.params == params && state == params.init
    {
      var t := BuildTable(params.polynomial, params.reflectIn);
      this.params := params;
      table := t;
      state := params.init;
    }

    /** `absorb`: run `data` through the loop that `reflectIn` selects. */
    method Absorb(data: seq<bv8>)
      requires Valid()
      modifies this`state
      ensures Valid()
      ensures state == Absorbed(params, old(state), data)
    {
      if params.reflectIn {
        state := UpdateReflected(state, table, data);
      } else {
        state := UpdateStandard(state, table, data);
      }
    }

    /** `update`: absorb more bytes; only the register changes. */
    method Update(data: seq<bv8>)
      requires Valid()
      modifies this`state
      ensures Valid()
      ensures state == Absorbed(params, old(state), data)
    {
      Absorb(data);
    }

    /** `reset`: back to the initial register; parameters and table are constants. */
    method Reset()
      requires Valid()
      modifies this`state
      ensures Valid()
      ensures state == params.init
    {
      state := params.init;
    }

    /** `finalize_u32`: a read-only projection of the register. */
    method FinalizeU32() returns (r: bv32)
      requires Valid()
      ensures r == FinalizeValue(state, params)
    {
      r := FinalizeValue(state, params);
    }

    /** `finalize_into`: the checksum as four big-endian bytes. */
    method FinalizeInto() returns (out: seq<bv8>)
      requires Valid()
      ensures |out| == 4 && FromBigEndian(out) == FinalizeValue(state, params)
      ensures out == ToBigEndian(FinalizeValue(state, params))
    {
      var r := FinalizeU32();
      out := ToBigEndian(r);
      BigEndianRoundTrip(r);
    }

    /** `finalize_into_reset`: emit the checksum, then reset the register. */
    method FinalizeIntoReset() returns (out: seq<bv8>)
      requires Valid()
      modifies this`state
      ensures Valid()
      ensures out == ToBigEndian(FinalizeValue(old(state), params))
      ensures state == params.init
    {
      out := FinalizeInto();
      Reset();
    }
  }
}
