/**
 * The CRC-32C (Castagnoli) variant, the iSCSI digest of section 12.1 of
 * RFC 3720 (CRC-32/ISCSI in the RevEng catalogue): a fixed parameter record,
 * a digest object that delegates to the generic engine, the one-shot helper,
 * and chunked streaming.
 */
module Crc32c {
  import opened CrcCore

  /** Polynomial 0x1EDC6F41, register preset to all ones, output inverted, both reflections on. */
  const CRC32C := Algorithm32("crc32c", 0x1EDC6F41, 0xFFFF_FFFF, 0xFFFF_FFFF, true, true)

  /** The Castagnoli digest: one engine fixed to `CRC32C`. */
  class Crc32c {
    const inner: Crc32Engine

    /** The engine runs the Castagnoli parameters and its table is consistent with them. */
    ghost predicate Valid()
      reads this, inner, inner.table
    {
      inner.Valid() && inner.params == CRC32C
    }

    /** `Crc32c::new`: a fresh engine with the reflected table and an all-ones register. */
    constructor ()
      ensures Valid() && fresh(inner) && fresh(inner.table)
      ensures inner.state == 0xFFFF_FFFF
      ensures inner.table[..] == Table(0x1EDC6F41, true)
    {
      inner := new Crc32Engine(CRC32C);
    }

    /** `update`: absorb more bytes into the inner register. */
    method Update(data: seq<bv8>)
      requires Valid()
      modifies inner`state
      ensures Valid()
      ensures inner.state == Absorbed(CRC32C, old(inner.state), data)
    {
      inner.Update(data);
    }

    /** `reset`: the inner register returns to all ones; the table is a constant. */
    method Reset()
      requires Valid()
      modifies inner`state
      ensures Valid()
      ensures inner.state == 0xFFFF_FFFF
    {
      inner.Reset();
    }

    /** `finalize_u32`: the inverted register, read without changing anything. */
    method FinalizeU32() returns (r: bv32)
      requires Valid()
      ensures r == !inner.state
    {
      r := inner.FinalizeU32();
      FinalizeIsComplement(inner.state, CRC32C);
    }

    /** `finalize_into`: the checksum as four big-endian bytes. */
    method FinalizeInto() returns (out: seq<bv8>)
      requires Valid()
      ensures out == ToBigEndian(!inner.state)
    {
      out := inner.FinalizeInto();
      FinalizeIsComplement(inner.state, CRC32C);
    }

    /** `finalize_into_reset`: emit the big-endian checksum, then restore the preset register. */
    method FinalizeIntoReset() returns (out: seq<bv8>)
      requires Valid()
      modifies inner`state
      ensures Valid()
      ensures out == ToBigEndian(!old(inner.state))
      ensures inner.state == 0xFFFF_FFFF
    {
      FinalizeIsComplement(inner.state, CRC32C);
      out := inner.FinalizeIntoReset();
    }
  }

  /** `crc32c`: a fresh digest, one update, then the checksum. */
  method Crc32cOf(data: seq<bv8>) returns (r: bv32)
    ensures r == Checksum(CRC32C, data)
  {
    var digest := new Crc32c();
    digest.Update(data);
    r := digest.FinalizeU32();
    FinalizeIsComplement(digest.inner.state, CRC32C);
  }

  /**
   * Feeding `data` to one digest in pieces of `size` bytes (the last piece may
   * be shorter) gives the one-shot checksum, whatever the piece size.
   */
  method StreamInChunks(data: seq<bv8>, size: nat) returns (r: bv32)
    requires size > 0
    ensures r == Checksum(CRC32C, data)
  {
    var digest := new Crc32c();
    var i := 0;
    while i < |data|
      invariant 0 <= i <= |data|
      invariant digest.Valid() && fresh(digest.inner)
      invariant digest.inner.state == Absorbed(CRC32C, CRC32C.init, data[..i])
    {
      var end := if |data| - i < size then |data| else i + size;
      AbsorbedAppend(CRC32C, CRC32C.init, data[..i], data[i..end]);
      assert data[..i] + data[i..end] == data[..end];
      digest.Update(data[i..end]);
      i := end;
    }
    assert data[..i] == data;
    r := digest.FinalizeU32();
    FinalizeIsComplement(digest.inner.state, CRC32C);
  }

  // ---------------------------------------------------------------------------
  // Known answers

  /** The reflected Castagnoli polynomial. */
  lemma ReflectedPolynomial()
    ensures Divisor(CRC32C.polynomial, true) == 0x82F6_3B78
  {
    ReflectMirrors(CRC32C.polynomial, RegisterWidth);
    forall j: bv8 | j < 32
      ensures Bit(Reflect(CRC32C.polynomial, RegisterWidth), j) == Bit(0x82F6_3B78, j)
    {
    }
    BitsEqual(Reflect(CRC32C.polynomial, RegisterWidth), 0x82F6_3B78);
  }

  /** The ASCII bytes of "123456789". */
  const Digits: seq<bv8> := [
    0x31, 0x32, 0x33, 0x34, 0x35, 0x36, 0x37, 0x38, 0x39
  ]

  /** The register before each byte of `Digits` and after the last one. */
  const DigitsTrace: seq<bv32> := [
    0xFFFF_FFFF, 0x6F0A_661C, 0x8CAA_3B9F, 0xEF84_D04D, 0x09C5_0B11, 0xE72E_DCCA,
    0xBECA_8E79, 0xEDBD_6815, 0x9F78_7F65, 0x1CF9_6D7C
  ]

  /** Byte 0 of `Digits` (0x31) selects table entry 0xCE. */
  lemma DigitsStep0()
    ensures StepReflected(DigitsTrace[0], Table(CRC32C.polynomial, true), Digits[0]) == DigitsTrace[1]
  {
    assert Digits[0] == 0x31 && DigitsTrace[0] == 0xFFFF_FFFF && DigitsTrace[1] == 0x6F0A_661C;
    ReflectedPolynomial();
    assert Table(CRC32C.polynomial, true)[0xCE] == TableEntry(CRC32C.polynomial, true, 0xCE);
    assert Rounds(0xCE, 0x82F6_3B78, true, 8) == 0x6FF5_99E3;
  }

  /** Byte 1 of `Digits` (0x32) selects table entry 0x2E. */
  lemma DigitsStep1()
    ensures StepReflected(DigitsTrace[1], Table(CRC32C.polynomial, true), Digits[1]) == DigitsTrace[2]
  {
    assert Digits[1] == 0x32 && DigitsTrace[1] == 0x6F0A_661C && DigitsTrace[2] == 0x8CAA_3B9F;
    ReflectedPolynomial();
    assert Table(CRC32C.polynomial, true)[0x2E] == TableEntry(CRC32C.polynomial, true, 0x2E);
    assert Rounds(0x2E, 0x82F6_3B78, true, 8) == 0x8CC5_31F9;
  }

  /** Byte 2 of `Digits` (0x33) selects table entry 0xAC. */
  lemma DigitsStep2()
    ensures StepReflected(DigitsTrace[2], Table(CRC32C.polynomial, true), Digits[2]) == DigitsTrace[3]
  {
    assert Digits[2] == 0x33 && DigitsTrace[2] == 0x8CAA_3B9F && DigitsTrace[3] == 0xEF84_D04D;
    ReflectedPolynomial();
    assert Table(CRC32C.polynomial, true)[0xAC] == TableEntry(CRC32C.polynomial, true, 0xAC);
    assert Rounds(0xAC, 0x82F6_3B78, true, 8) == 0xEF08_7A76;
  }

  /** Byte 3 of `Digits` (0x34) selects table entry 0x79. */
  lemma DigitsStep3()
    ensures StepReflected(DigitsTrace[3], Table(CRC32C.polynomial, true), Digits[3]) == DigitsTrace[4]
  {
    assert Digits[3] == 0x34 && DigitsTrace[3] == 0xEF84_D04D && DigitsTrace[4] == 0x09C5_0B11;
    ReflectedPolynomial();
    assert Table(CRC32C.polynomial, true)[0x79] == TableEntry(CRC32C.polynomial, true, 0x79);
    assert Rounds(0x79, 0x82F6_3B78, true, 8) == 0x092A_8FC1;
  }

  /** Byte 4 of `Digits` (0x35) selects table entry 0x24. */
  lemma DigitsStep4()
    ensures StepReflected(DigitsTrace[4], Table(CRC32C.polynomial, true), Digits[4]) == DigitsTrace[5]
  {
    assert Digits[4] == 0x35 && DigitsTrace[4] == 0x09C5_0B11 && DigitsTrace[5] == 0xE72E_DCCA;
    ReflectedPolynomial();
    assert Table(CRC32C.polynomial, true)[0x24] == TableEntry(CRC32C.polynomial, true, 0x24);
    assert Rounds(0x24, 0x82F6_3B78, true, 8) == 0xE727_19C1;
  }

  /** Byte 5 of `Digits` (0x36) selects table entry 0xFC. */
  lemma DigitsStep5()
    ensures StepReflected(DigitsTrace[5], Table(CRC32C.polynomial, true), Digits[5]) == DigitsTrace[6]
  {
    assert Digits[5] == 0x36 && DigitsTrace[5] == 0xE72E_DCCA && DigitsTrace[6] == 0xBECA_8E79;
    ReflectedPolynomial();
    assert Table(CRC32C.polynomial, true)[0xFC] == TableEntry(CRC32C.polynomial, true, 0xFC);
    assert Rounds(0xFC, 0x82F6_3B78, true, 8) == 0xBE2D_A0A5;
  }

  /** Byte 6 of `Digits` (0x37) selects table entry 0x4E. */
  lemma DigitsStep6()
    ensures StepReflected(DigitsTrace[6], Table(CRC32C.polynomial, true), Digits[6]) == DigitsTrace[7]
  {
    assert Digits[6] == 0x37 && DigitsTrace[6] == 0xBECA_8E79 && DigitsTrace[7] == 0xEDBD_6815;
    ReflectedPolynomial();
    assert Table(CRC32C.polynomial, true)[0x4E] == TableEntry(CRC32C.polynomial, true, 0x4E);
    assert Rounds(0x4E, 0x82F6_3B78, true, 8) == 0xED03_A29B;
  }

  /** Byte 7 of `Digits` (0x38) selects table entry 0x2D. */
  lemma DigitsStep7()
    ensures StepReflected(DigitsTrace[7], Table(CRC32C.polynomial, true), Digits[7]) == DigitsTrace[8]
  {
    assert Digits[7] == 0x38 && DigitsTrace[7] == 0xEDBD_6815 && DigitsTrace[8] == 0x9F78_7F65;
    ReflectedPolynomial();
    assert Table(CRC32C.polynomial, true)[0x2D] == TableEntry(CRC32C.polynomial, true, 0x2D);
    assert Rounds(0x2D, 0x82F6_3B78, true, 8) == 0x9F95_C20D;
  }

  /** Byte 8 of `Digits` (0x39) selects table entry 0x5C. */
  lemma DigitsStep8()
    ensures StepReflected(DigitsTrace[8], Table(CRC32C.polynomial, true), Digits[8]) == DigitsTrace[9]
  {
    assert Digits[8] == 0x39 && DigitsTrace[8] == 0x9F78_7F65 && DigitsTrace[9] == 0x1CF9_6D7C;
    ReflectedPolynomial();
    assert Table(CRC32C.polynomial, true)[0x5C] == TableEntry(CRC32C.polynomial, true, 0x5C);
    assert Rounds(0x5C, 0x82F6_3B78, true, 8) == 0x1C66_1503;
  }

  /** The steps for bytes 0 to 3 of `Digits`. */
  lemma DigitsSteps0(i: int)
    requires 0 <= i < 4
    ensures StepReflected(DigitsTrace[i], Table(CRC32C.polynomial, true), Digits[i]) == DigitsTrace[i + 1]
  {
    if i == 0 {
      DigitsStep0();
    } else if i == 1 {
      DigitsStep1();
    } else if i == 2 {
      DigitsStep2();
    } else if i == 3 {
      DigitsStep3();
    }
  }

  /** The steps for bytes 4 to 7 of `Digits`. */
  lemma DigitsSteps4(i: int)
    requires 4 <= i < 8
    ensures StepReflected(DigitsTrace[i], Table(CRC32C.polynomial, true), Digits[i]) == DigitsTrace[i + 1]
  {
    if i == 4 {
      DigitsStep4();
    } else if i == 5 {
      DigitsStep5();
    } else if i == 6 {
      DigitsStep6();
    } else if i == 7 {
      DigitsStep7();
    }
  }

  /** The steps for bytes 8 to 8 of `Digits`. */
  lemma DigitsSteps8(i: int)
    requires 8 <= i < 9
    ensures StepReflected(DigitsTrace[i], Table(CRC32C.polynomial, true), Digits[i]) == DigitsTrace[i + 1]
  {
    if i == 8 {
      DigitsStep8();
    }
  }

  /** Absorbing `Digits` takes the register from 0xFFFF_FFFF to 0x1CF9_6D7C. */
  lemma DigitsFold()
    ensures FoldReflected(0xFFFF_FFFF, Table(CRC32C.polynomial, true), Digits) == 0x1CF9_6D7C
  {
    forall i | 0 <= i < |Digits|
      ensures StepReflected(DigitsTrace[i], Table(CRC32C.polynomial, true), Digits[i]) == DigitsTrace[i + 1]
    {
      if i < 4 {
        DigitsSteps0(i);
      } else if i < 8 {
        DigitsSteps4(i);
      } else {
        DigitsSteps8(i);
      }
    }
    FoldReflectedTrace(Table(CRC32C.polynomial, true), Digits, DigitsTrace);
    assert DigitsTrace[0] == 0xFFFF_FFFF && DigitsTrace[|Digits|] == 0x1CF9_6D7C;
  }

  /** The checksum of "123456789" is 0xE306_9283. */
  lemma DigitsCheckValue()
    ensures Checksum(CRC32C, Digits) == 0xE306_9283
  {
    DigitsFold();
    FinalizeIsComplement(0x1CF9_6D7C, CRC32C);
  }

  /** Bytes 0 to 8 of "The quick brown fox jumps over the lazy dog" ("The quick"). */
  const Fox0: seq<bv8> := [
    0x54, 0x68, 0x65, 0x20, 0x71, 0x75, 0x69, 0x63, 0x6B
  ]

  /** The register before each byte of `Fox0` and after the last one. */
  const Fox0Trace: seq<bv32> := [
    0xFFFF_FFFF, 0x3B3D_E162, 0x6BD9_15D9, 0xFF3D_640C, 0x6D01_7C6A, 0x89BA_6D28,
    0xEE84_2C6D, 0xC774_1333, 0x51E2_AEC0, 0x3B93_FC33
  ]

  /** Byte 0 of `Fox0` (0x54) selects table entry 0xAB. */
  lemma Fox0Step0()
    ensures StepReflected(Fox0Trace[0], Table(CRC32C.polynomial, true), Fox0[0]) == Fox0Trace[1]
  {
    assert Fox0[0] == 0x54 && Fox0Trace[0] == 0xFFFF_FFFF && Fox0Trace[1] == 0x3B3D_E162;
    ReflectedPolynomial();
    assert Table(CRC32C.polynomial, true)[0xAB] == TableEntry(CRC32C.polynomial, true, 0xAB);
    assert Rounds(0xAB, 0x82F6_3B78, true, 8) == 0x3BC2_1E9D;
  }

  /** Byte 1 of `Fox0` (0x68) selects table entry 0x0A. */
  lemma Fox0Step1()
    ensures StepReflected(Fox0Trace[1], Table(CRC32C.polynomial, true), Fox0[1]) == Fox0Trace[2]
  {
    assert Fox0[1] == 0x68 && Fox0Trace[1] == 0x3B3D_E162 && Fox0Trace[2] == 0x6BD9_15D9;
    ReflectedPolynomial();
    assert Table(CRC32C.polynomial, true)[0x0A] == TableEntry(CRC32C.polynomial, true, 0x0A);
    assert Rounds(0x0A, 0x82F6_3B78, true, 8) == 0x6BE2_2838;
  }

  /** Byte 2 of `Fox0` (0x65) selects table entry 0xBC. */
  lemma Fox0Step2()
    ensures StepReflected(Fox0Trace[2], Table(CRC32C.polynomial, true), Fox0[2]) == Fox0Trace[3]
  {
    assert Fox0[2] == 0x65 && Fox0Trace[2] == 0x6BD9_15D9 && Fox0Trace[3] == 0xFF3D_640C;
    ReflectedPolynomial();
    assert Table(CRC32C.polynomial, true)[0xBC] == TableEntry(CRC32C.polynomial, true, 0xBC);
    assert Rounds(0xBC, 0x82F6_3B78, true, 8) == 0xFF56_BD19;
  }

  /** Byte 3 of `Fox0` (0x20) selects table entry 0x2C. */
  lemma Fox0Step3()
    ensures StepReflected(Fox0Trace[3], Table(CRC32C.polynomial, true), Fox0[3]) == Fox0Trace[4]
  {
    assert Fox0[3] == 0x20 && Fox0Trace[3] == 0xFF3D_640C && Fox0Trace[4] == 0x6D01_7C6A;
    ReflectedPolynomial();
    assert Table(CRC32C.polynomial, true)[0x2C] == TableEntry(CRC32C.polynomial, true, 0x2C);
    assert Rounds(0x2C, 0x82F6_3B78, true, 8) == 0x6DFE_410E;
  }

  /** Byte 4 of `Fox0` (0x71) selects table entry 0x1B. */
  lemma Fox0Step4()
    ensures StepReflected(Fox0Trace[4], Table(CRC32C.polynomial, true), Fox0[4]) == Fox0Trace[5]
  {
    assert Fox0[4] == 0x71 && Fox0Trace[4] == 0x6D01_7C6A && Fox0Trace[5] == 0x89BA_6D28;
    ReflectedPolynomial();
    assert Table(CRC32C.polynomial, true)[0x1B] == TableEntry(CRC32C.polynomial, true, 0x1B);
    assert Rounds(0x1B, 0x82F6_3B78, true, 8) == 0x89D7_6C54;
  }

  /** Byte 5 of `Fox0` (0x75) selects table entry 0x5D. */
  lemma Fox0Step5()
    ensures StepReflected(Fox0Trace[5], Table(CRC32C.polynomial, true), Fox0[5]) == Fox0Trace[6]
  {
    assert Fox0[5] == 0x75 && Fox0Trace[5] == 0x89BA_6D28 && Fox0Trace[6] == 0xEE84_2C6D;
    ReflectedPolynomial();
    assert Table(CRC32C.polynomial, true)[0x5D] == TableEntry(CRC32C.polynomial, true, 0x5D);
    assert Rounds(0x5D, 0x82F6_3B78, true, 8) == 0xEE0D_9600;
  }

  /** Byte 6 of `Fox0` (0x69) selects table entry 0x04. */
  lemma Fox0Step6()
    ensures StepReflected(Fox0Trace[6], Table(CRC32C.polynomial, true), Fox0[6]) == Fox0Trace[7]
  {
    assert Fox0[6] == 0x69 && Fox0Trace[6] == 0xEE84_2C6D && Fox0Trace[7] == 0xC774_1333;
    ReflectedPolynomial();
    assert Table(CRC32C.polynomial, true)[0x04] == TableEntry(CRC32C.polynomial, true, 0x04);
    assert Rounds(0x04, 0x82F6_3B78, true, 8) == 0xC79A_971F;
  }

  /** Byte 7 of `Fox0` (0x63) selects table entry 0x50. */
  lemma Fox0Step7()
    ensures StepReflected(Fox0Trace[7], Table(CRC32C.polynomial, true), Fox0[7]) == Fox0Trace[8]
  {
    assert Fox0[7] == 0x63 && Fox0Trace[7] == 0xC774_1333 && Fox0Trace[8] == 0x51E2_AEC0;
    ReflectedPolynomial();
    assert Table(CRC32C.polynomial, true)[0x50] == TableEntry(CRC32C.polynomial, true, 0x50);
    assert Rounds(0x50, 0x82F6_3B78, true, 8) == 0x5125_DAD3;
  }

  /** Byte 8 of `Fox0` (0x6B) selects table entry 0xAB. */
  lemma Fox0Step8()
    ensures StepReflected(Fox0Trace[8], Table(CRC32C.polynomial, true), Fox0[8]) == Fox0Trace[9]
  {
    assert Fox0[8] == 0x6B && Fox0Trace[8] == 0x51E2_AEC0 && Fox0Trace[9] == 0x3B93_FC33;
    ReflectedPolynomial();
    assert Table(CRC32C.polynomial, true)[0xAB] == TableEntry(CRC32C.polynomial, true, 0xAB);
    assert Rounds(0xAB, 0x82F6_3B78, true, 8) == 0x3BC2_1E9D;
  }

  /** The steps for bytes 0 to 3 of `Fox0`. */
  lemma Fox0Steps0(i: int)
    requires 0 <= i < 4
    ensures StepReflected(Fox0Trace[i], Table(CRC32C.polynomial, true), Fox0[i]) == Fox0Trace[i + 1]
  {
    if i == 0 {
      Fox0Step0();
    } else if i == 1 {
      Fox0Step1();
    } else if i == 2 {
      Fox0Step2();
    } else if i == 3 {
      Fox0Step3();
    }
  }

  /** The steps for bytes 4 to 7 of `Fox0`. */
  lemma Fox0Steps4(i: int)
    requires 4 <= i < 8
    ensures StepReflected(Fox0Trace[i], Table(CRC32C.polynomial, true), Fox0[i]) == Fox0Trace[i + 1]
  {
    if i == 4 {
      Fox0Step4();
    } else if i == 5 {
      Fox0Step5();
    } else if i == 6 {
      Fox0Step6();
    } else if i == 7 {
      Fox0Step7();
    }
  }

  /** The steps for bytes 8 to 8 of `Fox0`. */
  lemma Fox0Steps8(i: int)
    requires 8 <= i < 9
    ensures StepReflected(Fox0Trace[i], Table(CRC32C.polynomial, true), Fox0[i]) == Fox0Trace[i + 1]
  {
    if i == 8 {
      Fox0Step8();
    }
  }

  /** Absorbing `Fox0` takes the register from 0xFFFF_FFFF to 0x3B93_FC33. */
  lemma Fox0Fold()
    ensures FoldReflected(0xFFFF_FFFF, Table(CRC32C.polynomial, true), Fox0) == 0x3B93_FC33
  {
    forall i | 0 <= i < |Fox0|
      ensures StepReflected(Fox0Trace[i], Table(CRC32C.polynomial, true), Fox0[i]) == Fox0Trace[i + 1]
    {
      if i < 4 {
        Fox0Steps0(i);
      } else if i < 8 {
        Fox0Steps4(i);
      } else {
        Fox0Steps8(i);
      }
    }
    FoldReflectedTrace(Table(CRC32C.polynomial, true), Fox0, Fox0Trace);
    assert Fox0Trace[0] == 0xFFFF_FFFF && Fox0Trace[|Fox0|] == 0x3B93_FC33;
  }

  /** Bytes 9 to 17 of "The quick brown fox jumps over the lazy dog" (" brown fo"). */
  const Fox1: seq<bv8> := [
    0x20, 0x62, 0x72, 0x6F, 0x77, 0x6E, 0x20, 0x66, 0x6F
  ]

  /** The register before each byte of `Fox1` and after the last one. */
  const Fox1Trace: seq<bv32> := [
    0x3B93_FC33, 0x0335_A767, 0x35F2_21BB, 0xBB0A_0F29, 0x6761_F05B, 0x6D99_20FE,
    0x92C5_6537, 0xC406_66E1, 0x56F8_59F5, 0xF91C_2C76
  ]

  /** Byte 0 of `Fox1` (0x20) selects table entry 0x13. */
  lemma Fox1Step0()
    ensures StepReflected(Fox1Trace[0], Table(CRC32C.polynomial, true), Fox1[0]) == Fox1Trace[1]
  {
    assert Fox1[0] == 0x20 && Fox1Trace[0] == 0x3B93_FC33 && Fox1Trace[1] == 0x0335_A767;
    ReflectedPolynomial();
    assert Table(CRC32C.polynomial, true)[0x13] == TableEntry(CRC32C.polynomial, true, 0x13);
    assert Rounds(0x13, 0x82F6_3B78, true, 8) == 0x030E_349B;
  }

  /** Byte 1 of `Fox1` (0x62) selects table entry 0x05. */
  lemma Fox1Step1()
    ensures StepReflected(Fox1Trace[1], Table(CRC32C.polynomial, true), Fox1[1]) == Fox1Trace[2]
  {
    assert Fox1[1] == 0x62 && Fox1Trace[1] == 0x0335_A767 && Fox1Trace[2] == 0x35F2_21BB;
    ReflectedPolynomial();
    assert Table(CRC32C.polynomial, true)[0x05] == TableEntry(CRC32C.polynomial, true, 0x05);
    assert Rounds(0x05, 0x82F6_3B78, true, 8) == 0x35F1_141C;
  }

  /** Byte 2 of `Fox1` (0x72) selects table entry 0xC9. */
  lemma Fox1Step2()
    ensures StepReflected(Fox1Trace[2], Table(CRC32C.polynomial, true), Fox1[2]) == Fox1Trace[3]
  {
    assert Fox1[2] == 0x72 && Fox1Trace[2] == 0x35F2_21BB && Fox1Trace[3] == 0xBB0A_0F29;
    ReflectedPolynomial();
    assert Table(CRC32C.polynomial, true)[0xC9] == TableEntry(CRC32C.polynomial, true, 0xC9);
    assert Rounds(0xC9, 0x82F6_3B78, true, 8) == 0xBB3F_FD08;
  }

  /** Byte 3 of `Fox1` (0x6F) selects table entry 0x46. */
  lemma Fox1Step3()
    ensures StepReflected(Fox1Trace[3], Table(CRC32C.polynomial, true), Fox1[3]) == Fox1Trace[4]
  {
    assert Fox1[3] == 0x6F && Fox1Trace[3] == 0xBB0A_0F29 && Fox1Trace[4] == 0x6761_F05B;
    ReflectedPolynomial();
    assert Table(CRC32C.polynomial, true)[0x46] == TableEntry(CRC32C.polynomial, true, 0x46);
    assert Rounds(0x46, 0x82F6_3B78, true, 8) == 0x67DA_FA54;
  }

  /** Byte 4 of `Fox1` (0x77) selects table entry 0x2C. */
  lemma Fox1Step4()
    ensures StepReflected(Fox1Trace[4], Table(CRC32C.polynomial, true), Fox1[4]) == Fox1Trace[5]
  {
    assert Fox1[4] == 0x77 && Fox1Trace[4] == 0x6761_F05B && Fox1Trace[5] == 0x6D99_20FE;
    ReflectedPolynomial();
    assert Table(CRC32C.polynomial, true)[0x2C] == TableEntry(CRC32C.polynomial, true, 0x2C);
    assert Rounds(0x2C, 0x82F6_3B78, true, 8) == 0x6DFE_410E;
  }

  /** Byte 5 of `Fox1` (0x6E) selects table entry 0x90. */
  lemma Fox1Step5()
    ensures StepReflected(Fox1Trace[5], Table(CRC32C.polynomial, true), Fox1[5]) == Fox1Trace[6]
  {
    assert Fox1[5] == 0x6E && Fox1Trace[5] == 0x6D99_20FE && Fox1Trace[6] == 0x92C5_6537;
    ReflectedPolynomial();
    assert Table(CRC32C.polynomial, true)[0x90] == TableEntry(CRC32C.polynomial, true, 0x90);
    assert Rounds(0x90, 0x82F6_3B78, true, 8) == 0x92A8_FC17;
  }

  /** Byte 6 of `Fox1` (0x20) selects table entry 0x17. */
  lemma Fox1Step6()
    ensures StepReflected(Fox1Trace[6], Table(CRC32C.polynomial, true), Fox1[6]) == Fox1Trace[7]
  {
    assert Fox1[6] == 0x20 && Fox1Trace[6] == 0x92C5_6537 && Fox1Trace[7] == 0xC406_66E1;
    ReflectedPolynomial();
    assert Table(CRC32C.polynomial, true)[0x17] == TableEntry(CRC32C.polynomial, true, 0x17);
    assert Rounds(0x17, 0x82F6_3B78, true, 8) == 0xC494_A384;
  }

  /** Byte 7 of `Fox1` (0x66) selects table entry 0x87. */
  lemma Fox1Step7()
    ensures StepReflected(Fox1Trace[7], Table(CRC32C.polynomial, true), Fox1[7]) == Fox1Trace[8]
  {
    assert Fox1[7] == 0x66 && Fox1Trace[7] == 0xC406_66E1 && Fox1Trace[8] == 0x56F8_59F5;
    ReflectedPolynomial();
    assert Table(CRC32C.polynomial, true)[0x87] == TableEntry(CRC32C.polynomial, true, 0x87);
    assert Rounds(0x87, 0x82F6_3B78, true, 8) == 0x563C_5F93;
  }

  /** Byte 8 of `Fox1` (0x6F) selects table entry 0x9A. */
  lemma Fox1Step8()
    ensures StepReflected(Fox1Trace[8], Table(CRC32C.polynomial, true), Fox1[8]) == Fox1Trace[9]
  {
    assert Fox1[8] == 0x6F && Fox1Trace[8] == 0x56F8_59F5 && Fox1Trace[9] == 0xF91C_2C76;
    ReflectedPolynomial();
    assert Table(CRC32C.polynomial, true)[0x9A] == TableEntry(CRC32C.polynomial, true, 0x9A);
    assert Rounds(0x9A, 0x82F6_3B78, true, 8) == 0xF94A_D42F;
  }

  /** The steps for bytes 0 to 3 of `Fox1`. */
  lemma Fox1Steps0(i: int)
    requires 0 <= i < 4
    ensures StepReflected(Fox1Trace[i], Table(CRC32C.polynomial, true), Fox1[i]) == Fox1Trace[i + 1]
  {
    if i == 0 {
      Fox1Step0();
    } else if i == 1 {
      Fox1Step1();
    } else if i == 2 {
      Fox1Step2();
    } else if i == 3 {
      Fox1Step3();
    }
  }

  /** The steps for bytes 4 to 7 of `Fox1`. */
  lemma Fox1Steps4(i: int)
    requires 4 <= i < 8
    ensures StepReflected(Fox1Trace[i], Table(CRC32C.polynomial, true), Fox1[i]) == Fox1Trace[i + 1]
  {
    if i == 4 {
      Fox1Step4();
    } else if i == 5 {
      Fox1Step5();
    } else if i == 6 {
      Fox1Step6();
    } else if i == 7 {
      Fox1Step7();
    }
  }

  /** The steps for bytes 8 to 8 of `Fox1`. */
  lemma Fox1Steps8(i: int)
    requires 8 <= i < 9
    ensures StepReflected(Fox1Trace[i], Table(CRC32C.polynomial, true), Fox1[i]) == Fox1Trace[i + 1]
  {
    if i == 8 {
      Fox1Step8();
    }
  }

  /** Absorbing `Fox1` takes the register from 0x3B93_FC33 to 0xF91C_2C76. */
  lemma Fox1Fold()
    ensures FoldReflected(0x3B93_FC33, Table(CRC32C.polynomial, true), Fox1) == 0xF91C_2C76
  {
    forall i | 0 <= i < |Fox1|
      ensures StepReflected(Fox1Trace[i], Table(CRC32C.polynomial, true), Fox1[i]) == Fox1Trace[i + 1]
    {
      if i < 4 {
        Fox1Steps0(i);
      } else if i < 8 {
        Fox1Steps4(i);
      } else {
        Fox1Steps8(i);
      }
    }
    FoldReflectedTrace(Table(CRC32C.polynomial, true), Fox1, Fox1Trace);
    assert Fox1Trace[0] == 0x3B93_FC33 && Fox1Trace[|Fox1|] == 0xF91C_2C76;
  }

  /** Bytes 18 to 26 of "The quick brown fox jumps over the lazy dog" ("x jumps o"). */
  const Fox2: seq<bv8> := [
    0x78, 0x20, 0x6A, 0x75, 0x6D, 0x70, 0x73, 0x20, 0x6F
  ]

  /** The register before each byte of `Fox2` and after the last one. */
  const Fox2Trace: seq<bv32> := [
    0xF91C_2C76, 0xAC81_A30B, 0xB998_A446, 0x6D47_D9AA, 0x8DAD_9A56, 0xA9E7_4F10,
    0x616F_742D, 0xFD3C_0A80, 0xA2B6_89AC, 0xD07F_63B9
  ]

  /** Byte 0 of `Fox2` (0x78) selects table entry 0x0E. */
  lemma Fox2Step0()
    ensures StepReflected(Fox2Trace[0], Table(CRC32C.polynomial, true), Fox2[0]) == Fox2Trace[1]
  {
    assert Fox2[0] == 0x78 && Fox2Trace[0] == 0xF91C_2C76 && Fox2Trace[1] == 0xAC81_A30B;
    ReflectedPolynomial();
    assert Table(CRC32C.polynomial, true)[0x0E] == TableEntry(CRC32C.polynomial, true, 0x0E);
    assert Rounds(0x0E, 0x82F6_3B78, true, 8) == 0xAC78_BF27;
  }

  /** Byte 1 of `Fox2` (0x20) selects table entry 0x2B. */
  lemma Fox2Step1()
    ensures StepReflected(Fox2Trace[1], Table(CRC32C.polynomial, true), Fox2[1]) == Fox2Trace[2]
  {
    assert Fox2[1] == 0x20 && Fox2Trace[1] == 0xAC81_A30B && Fox2Trace[2] == 0xB998_A446;
    ReflectedPolynomial();
    assert Table(CRC32C.polynomial, true)[0x2B] == TableEntry(CRC32C.polynomial, true, 0x2B);
    assert Rounds(0x2B, 0x82F6_3B78, true, 8) == 0xB934_25E5;
  }

  /** Byte 2 of `Fox2` (0x6A) selects table entry 0x2C. */
  lemma Fox2Step2()
    ensures StepReflected(Fox2Trace[2], Table(CRC32C.polynomial, true), Fox2[2]) == Fox2Trace[3]
  {
    assert Fox2[2] == 0x6A && Fox2Trace[2] == 0xB998_A446 && Fox2Trace[3] == 0x6D47_D9AA;
    ReflectedPolynomial();
    assert Table(CRC32C.polynomial, true)[0x2C] == TableEntry(CRC32C.polynomial, true, 0x2C);
    assert Rounds(0x2C, 0x82F6_3B78, true, 8) == 0x6DFE_410E;
  }

  /** Byte 3 of `Fox2` (0x75) selects table entry 0xDF. */
  lemma Fox2Step3()
    ensures StepReflected(Fox2Trace[3], Table(CRC32C.polynomial, true), Fox2[3]) == Fox2Trace[4]
  {
    assert Fox2[3] == 0x75 && Fox2Trace[3] == 0x6D47_D9AA && Fox2Trace[4] == 0x8DAD_9A56;
    ReflectedPolynomial();
    assert Table(CRC32C.polynomial, true)[0xDF] == TableEntry(CRC32C.polynomial, true, 0xDF);
    assert Rounds(0xDF, 0x82F6_3B78, true, 8) == 0x8DC0_DD8F;
  }

  /** Byte 4 of `Fox2` (0x6D) selects table entry 0x3B. */
  lemma Fox2Step4()
    ensures StepReflected(Fox2Trace[4], Table(CRC32C.polynomial, true), Fox2[4]) == Fox2Trace[5]
  {
    assert Fox2[4] == 0x6D && Fox2Trace[4] == 0x8DAD_9A56 && Fox2Trace[5] == 0xA9E7_4F10;
    ReflectedPolynomial();
    assert Table(CRC32C.polynomial, true)[0x3B] == TableEntry(CRC32C.polynomial, true, 0x3B);
    assert Rounds(0x3B, 0x82F6_3B78, true, 8) == 0xA96A_E28A;
  }

  /** Byte 5 of `Fox2` (0x70) selects table entry 0x60. */
  lemma Fox2Step5()
    ensures StepReflected(Fox2Trace[5], Table(CRC32C.polynomial, true), Fox2[5]) == Fox2Trace[6]
  {
    assert Fox2[5] == 0x70 && Fox2Trace[5] == 0xA9E7_4F10 && Fox2Trace[6] == 0x616F_742D;
    ReflectedPolynomial();
    assert Table(CRC32C.polynomial, true)[0x60] == TableEntry(CRC32C.polynomial, true, 0x60);
    assert Rounds(0x60, 0x82F6_3B78, true, 8) == 0x61C6_9362;
  }

  /** Byte 6 of `Fox2` (0x73) selects table entry 0x5E. */
  lemma Fox2Step6()
    ensures StepReflected(Fox2Trace[6], Table(CRC32C.polynomial, true), Fox2[6]) == Fox2Trace[7]
  {
    assert Fox2[6] == 0x73 && Fox2Trace[6] == 0x616F_742D && Fox2Trace[7] == 0xFD3C_0A80;
    ReflectedPolynomial();
    assert Table(CRC32C.polynomial, true)[0x5E] == TableEntry(CRC32C.polynomial, true, 0x5E);
    assert Rounds(0x5E, 0x82F6_3B78, true, 8) == 0xFD5D_65F4;
  }

  /** Byte 7 of `Fox2` (0x20) selects table entry 0xA0. */
  lemma Fox2Step7()
    ensures StepReflected(Fox2Trace[7], Table(CRC32C.polynomial, true), Fox2[7]) == Fox2Trace[8]
  {
    assert Fox2[7] == 0x20 && Fox2Trace[7] == 0xFD3C_0A80 && Fox2Trace[8] == 0xA2B6_89AC;
    ReflectedPolynomial();
    assert Table(CRC32C.polynomial, true)[0xA0] == TableEntry(CRC32C.polynomial, true, 0xA0);
    assert Rounds(0xA0, 0x82F6_3B78, true, 8) == 0xA24B_B5A6;
  }

  /** Byte 8 of `Fox2` (0x6F) selects table entry 0xC3. */
  lemma Fox2Step8()
    ensures StepReflected(Fox2Trace[8], Table(CRC32C.polynomial, true), Fox2[8]) == Fox2Trace[9]
  {
    assert Fox2[8] == 0x6F && Fox2Trace[8] == 0xA2B6_89AC && Fox2Trace[9] == 0xD07F_63B9;
    ReflectedPolynomial();
    assert Table(CRC32C.polynomial, true)[0xC3] == TableEntry(CRC32C.polynomial, true, 0xC3);
    assert Rounds(0xC3, 0x82F6_3B78, true, 8) == 0xD0DD_D530;
  }

  /** The steps for bytes 0 to 3 of `Fox2`. */
  lemma Fox2Steps0(i: int)
    requires 0 <= i < 4
    ensures StepReflected(Fox2Trace[i], Table(CRC32C.polynomial, true), Fox2[i]) == Fox2Trace[i + 1]
  {
    if i == 0 {
      Fox2Step0();
    } else if i == 1 {
      Fox2Step1();
    } else if i == 2 {
      Fox2Step2();
    } else if i == 3 {
      Fox2Step3();
    }
  }

  /** The steps for bytes 4 to 7 of `Fox2`. */
  lemma Fox2Steps4(i: int)
    requires 4 <= i < 8
    ensures StepReflected(Fox2Trace[i], Table(CRC32C.polynomial, true), Fox2[i]) == Fox2Trace[i + 1]
  {
    if i == 4 {
      Fox2Step4();
    } else if i == 5 {
      Fox2Step5();
    } else if i == 6 {
      Fox2Step6();
    } else if i == 7 {
      Fox2Step7();
    }
  }

  /** The steps for bytes 8 to 8 of `Fox2`. */
  lemma Fox2Steps8(i: int)
    requires 8 <= i < 9
    ensures StepReflected(Fox2Trace[i], Table(CRC32C.polynomial, true), Fox2[i]) == Fox2Trace[i + 1]
  {
    if i == 8 {
      Fox2Step8();
    }
  }

  /** Absorbing `Fox2` takes the register from 0xF91C_2C76 to 0xD07F_63B9. */
  lemma Fox2Fold()
    ensures FoldReflected(0xF91C_2C76, Table(CRC32C.polynomial, true), Fox2) == 0xD07F_63B9
  {
    forall i | 0 <= i < |Fox2|
      ensures StepReflected(Fox2Trace[i], Table(CRC32C.polynomial, true), Fox2[i]) == Fox2Trace[i + 1]
    {
      if i < 4 {
        Fox2Steps0(i);
      } else if i < 8 {
        Fox2Steps4(i);
      } else {
        Fox2Steps8(i);
      }
    }
    FoldReflectedTrace(Table(CRC32C.polynomial, true), Fox2, Fox2Trace);
    assert Fox2Trace[0] == 0xF91C_2C76 && Fox2Trace[|Fox2|] == 0xD07F_63B9;
  }

  /** Bytes 27 to 35 of "The quick brown fox jumps over the lazy dog" ("ver the l"). */
  const Fox3: seq<bv8> := [
    0x76, 0x65, 0x72, 0x20, 0x74, 0x68, 0x65, 0x20, 0x6C
  ]

  /** The register before each byte of `Fox3` and after the last one. */
  const Fox3Trace: seq<bv32> := [
    0xD07F_63B9, 0x9D4E_6583, 0xC50C_0197, 0xD604_B007, 0xF4A1_EE85, 0x01F1_4D98,
    0xF36F_9E38, 0xEEFE_F99E, 0x1E83_3317, 0xE80F_7C05
  ]

  /** Byte 0 of `Fox3` (0x76) selects table entry 0xCF. */
  lemma Fox3Step0()
    ensures StepReflected(Fox3Trace[0], Table(CRC32C.polynomial, true), Fox3[0]) == Fox3Trace[1]
  {
    assert Fox3[0] == 0x76 && Fox3Trace[0] == 0xD07F_63B9 && Fox3Trace[1] == 0x9D4E_6583;
    ReflectedPolynomial();
    assert Table(CRC32C.polynomial, true)[0xCF] == TableEntry(CRC32C.polynomial, true, 0xCF);
    assert Rounds(0xCF, 0x82F6_3B78, true, 8) == 0x9D9E_1AE0;
  }

  /** Byte 1 of `Fox3` (0x65) selects table entry 0xE6. */
  lemma Fox3Step1()
    ensures StepReflected(Fox3Trace[1], Table(CRC32C.polynomial, true), Fox3[1]) == Fox3Trace[2]
  {
    assert Fox3[1] == 0x65 && Fox3Trace[1] == 0x9D4E_6583 && Fox3Trace[2] == 0xC50C_0197;
    ReflectedPolynomial();
    assert Table(CRC32C.polynomial, true)[0xE6] == TableEntry(CRC32C.polynomial, true, 0xE6);
    assert Rounds(0xE6, 0x82F6_3B78, true, 8) == 0xC591_4FF2;
  }

  /** Byte 2 of `Fox3` (0x72) selects table entry 0xE5. */
  lemma Fox3Step2()
    ensures StepReflected(Fox3Trace[2], Table(CRC32C.polynomial, true), Fox3[2]) == Fox3Trace[3]
  {
    assert Fox3[2] == 0x72 && Fox3Trace[2] == 0xC50C_0197 && Fox3Trace[3] == 0xD604_B007;
    ReflectedPolynomial();
    assert Table(CRC32C.polynomial, true)[0xE5] == TableEntry(CRC32C.polynomial, true, 0xE5);
    assert Rounds(0xE5, 0x82F6_3B78, true, 8) == 0xD6C1_BC06;
  }

  /** Byte 3 of `Fox3` (0x20) selects table entry 0x27. */
  lemma Fox3Step3()
    ensures StepReflected(Fox3Trace[3], Table(CRC32C.polynomial, true), Fox3[3]) == Fox3Trace[4]
  {
    assert Fox3[3] == 0x20 && Fox3Trace[3] == 0xD604_B007 && Fox3Trace[4] == 0xF4A1_EE85;
    ReflectedPolynomial();
    assert Table(CRC32C.polynomial, true)[0x27] == TableEntry(CRC32C.polynomial, true, 0x27);
    assert Rounds(0x27, 0x82F6_3B78, true, 8) == 0xF477_EA35;
  }

  /** Byte 4 of `Fox3` (0x74) selects table entry 0xF1. */
  lemma Fox3Step4()
    ensures StepReflected(Fox3Trace[4], Table(CRC32C.polynomial, true), Fox3[4]) == Fox3Trace[5]
  {
    assert Fox3[4] == 0x74 && Fox3Trace[4] == 0xF4A1_EE85 && Fox3Trace[5] == 0x01F1_4D98;
    ReflectedPolynomial();
    assert Table(CRC32C.polynomial, true)[0xF1] == TableEntry(CRC32C.polynomial, true, 0xF1);
    assert Rounds(0xF1, 0x82F6_3B78, true, 8) == 0x0105_EC76;
  }

  /** Byte 5 of `Fox3` (0x68) selects table entry 0xF0. */
  lemma Fox3Step5()
    ensures StepReflected(Fox3Trace[5], Table(CRC32C.polynomial, true), Fox3[5]) == Fox3Trace[6]
  {
    assert Fox3[5] == 0x68 && Fox3Trace[5] == 0x01F1_4D98 && Fox3Trace[6] == 0xF36F_9E38;
    ReflectedPolynomial();
    assert Table(CRC32C.polynomial, true)[0xF0] == TableEntry(CRC32C.polynomial, true, 0xF0);
    assert Rounds(0xF0, 0x82F6_3B78, true, 8) == 0xF36E_6F75;
  }

  /** Byte 6 of `Fox3` (0x65) selects table entry 0x5D. */
  lemma Fox3Step6()
    ensures StepReflected(Fox3Trace[6], Table(CRC32C.polynomial, true), Fox3[6]) == Fox3Trace[7]
  {
    assert Fox3[6] == 0x65 && Fox3Trace[6] == 0xF36F_9E38 && Fox3Trace[7] == 0xEEFE_F99E;
    ReflectedPolynomial();
    assert Table(CRC32C.polynomial, true)[0x5D] == TableEntry(CRC32C.polynomial, true, 0x5D);
    assert Rounds(0x5D, 0x82F6_3B78, true, 8) == 0xEE0D_9600;
  }

  /** Byte 7 of `Fox3` (0x20) selects table entry 0xBE. */
  lemma Fox3Step7()
    ensures StepReflected(Fox3Trace[7], Table(CRC32C.polynomial, true), Fox3[7]) == Fox3Trace[8]
  {
    assert Fox3[7] == 0x20 && Fox3Trace[7] == 0xEEFE_F99E && Fox3Trace[8] == 0x1E83_3317;
    ReflectedPolynomial();
    assert Table(CRC32C.polynomial, true)[0xBE] == TableEntry(CRC32C.polynomial, true, 0xBE);
    assert Rounds(0xBE, 0x82F6_3B78, true, 8) == 0x1E6D_CDEE;
  }

  /** Byte 8 of `Fox3` (0x6C) selects table entry 0x7B. */
  lemma Fox3Step8()
    ensures StepReflected(Fox3Trace[8], Table(CRC32C.polynomial, true), Fox3[8]) == Fox3Trace[9]
  {
    assert Fox3[8] == 0x6C && Fox3Trace[8] == 0x1E83_3317 && Fox3Trace[9] == 0xE80F_7C05;
    ReflectedPolynomial();
    assert Table(CRC32C.polynomial, true)[0x7B] == TableEntry(CRC32C.polynomial, true, 0x7B);
    assert Rounds(0x7B, 0x82F6_3B78, true, 8) == 0xE811_FF36;
  }

  /** The steps for bytes 0 to 3 of `Fox3`. */
  lemma Fox3Steps0(i: int)
    requires 0 <= i < 4
    ensures StepReflected(Fox3Trace[i], Table(CRC32C.polynomial, true), Fox3[i]) == Fox3Trace[i + 1]
  {
    if i == 0 {
      Fox3Step0();
    } else if i == 1 {
      Fox3Step1();
    } else if i == 2 {
      Fox3Step2();
    } else if i == 3 {
      Fox3Step3();
    }
  }

  /** The steps for bytes 4 to 7 of `Fox3`. */
  lemma Fox3Steps4(i: int)
    requires 4 <= i < 8
    ensures StepReflected(Fox3Trace[i], Table(CRC32C.polynomial, true), Fox3[i]) == Fox3Trace[i + 1]
  {
    if i == 4 {
      Fox3Step4();
    } else if i == 5 {
      Fox3Step5();
    } else if i == 6 {
      Fox3Step6();
    } else if i == 7 {
      Fox3Step7();
    }
  }

  /** The steps for bytes 8 to 8 of `Fox3`. */
  lemma Fox3Steps8(i: int)
    requires 8 <= i < 9
    ensures StepReflected(Fox3Trace[i], Table(CRC32C.polynomial, true), Fox3[i]) == Fox3Trace[i + 1]
  {
    if i == 8 {
      Fox3Step8();
    }
  }

  /** Absorbing `Fox3` takes the register from 0xD07F_63B9 to 0xE80F_7C05. */
  lemma Fox3Fold()
    ensures FoldReflected(0xD07F_63B9, Table(CRC32C.polynomial, true), Fox3) == 0xE80F_7C05
  {
    forall i | 0 <= i < |Fox3|
      ensures StepReflected(Fox3Trace[i], Table(CRC32C.polynomial, true), Fox3[i]) == Fox3Trace[i + 1]
    {
      if i < 4 {
        Fox3Steps0(i);
      } else if i < 8 {
        Fox3Steps4(i);
      } else {
        Fox3Steps8(i);
      }
    }
    FoldReflectedTrace(Table(CRC32C.polynomial, true), Fox3, Fox3Trace);
    assert Fox3Trace[0] == 0xD07F_63B9 && Fox3Trace[|Fox3|] == 0xE80F_7C05;
  }

  /** Bytes 36 to 42 of "The quick brown fox jumps over the lazy dog" ("azy dog"). */
  const Fox4: seq<bv8> := [
    0x61, 0x7A, 0x79, 0x20, 0x64, 0x6F, 0x67
  ]

  /** The register before each byte of `Fox4` and after the last one. */
  const Fox4Trace: seq<bv32> := [
    0xE80F_7C05, 0xA6B4_0B01, 0xE8B7_4B3D, 0x8609_3DE8, 0x49D2_7736, 0xB057_7853,
    0x7D10_D119, 0xDD9D_FBFB
  ]

  /** Byte 0 of `Fox4` (0x61) selects table entry 0x64. */
  lemma Fox4Step0()
    ensures StepReflected(Fox4Trace[0], Table(CRC32C.polynomial, true), Fox4[0]) == Fox4Trace[1]
  {
    assert Fox4[0] == 0x61 && Fox4Trace[0] == 0xE80F_7C05 && Fox4Trace[1] == 0xA6B4_0B01;
    ReflectedPolynomial();
    assert Table(CRC32C.polynomial, true)[0x64] == TableEntry(CRC32C.polynomial, true, 0x64);
    assert Rounds(0x64, 0x82F6_3B78, true, 8) == 0xA65C_047D;
  }

  /** Byte 1 of `Fox4` (0x7A) selects table entry 0x7B. */
  lemma Fox4Step1()
    ensures StepReflected(Fox4Trace[1], Table(CRC32C.polynomial, true), Fox4[1]) == Fox4Trace[2]
  {
    assert Fox4[1] == 0x7A && Fox4Trace[1] == 0xA6B4_0B01 && Fox4Trace[2] == 0xE8B7_4B3D;
    ReflectedPolynomial();
    assert Table(CRC32C.polynomial, true)[0x7B] == TableEntry(CRC32C.polynomial, true, 0x7B);
    assert Rounds(0x7B, 0x82F6_3B78, true, 8) == 0xE811_FF36;
  }

  /** Byte 2 of `Fox4` (0x79) selects table entry 0x44. */
  lemma Fox4Step2()
    ensures StepReflected(Fox4Trace[2], Table(CRC32C.polynomial, true), Fox4[2]) == Fox4Trace[3]
  {
    assert Fox4[2] == 0x79 && Fox4Trace[2] == 0xE8B7_4B3D && Fox4Trace[3] == 0x8609_3DE8;
    ReflectedPolynomial();
    assert Table(CRC32C.polynomial, true)[0x44] == TableEntry(CRC32C.polynomial, true, 0x44);
    assert Rounds(0x44, 0x82F6_3B78, true, 8) == 0x86E1_8AA3;
  }

  /** Byte 3 of `Fox4` (0x20) selects table entry 0xC8. */
  lemma Fox4Step3()
    ensures StepReflected(Fox4Trace[3], Table(CRC32C.polynomial, true), Fox4[3]) == Fox4Trace[4]
  {
    assert Fox4[3] == 0x20 && Fox4Trace[3] == 0x8609_3DE8 && Fox4Trace[4] == 0x49D2_7736;
    ReflectedPolynomial();
    assert Table(CRC32C.polynomial, true)[0xC8] == TableEntry(CRC32C.polynomial, true, 0xC8);
    assert Rounds(0xC8, 0x82F6_3B78, true, 8) == 0x4954_7E0B;
  }

  /** Byte 4 of `Fox4` (0x64) selects table entry 0x52. */
  lemma Fox4Step4()
    ensures StepReflected(Fox4Trace[4], Table(CRC32C.polynomial, true), Fox4[4]) == Fox4Trace[5]
  {
    assert Fox4[4] == 0x64 && Fox4Trace[4] == 0x49D2_7736 && Fox4Trace[5] == 0xB057_7853;
    ReflectedPolynomial();
    assert Table(CRC32C.polynomial, true)[0x52] == TableEntry(CRC32C.polynomial, true, 0x52);
    assert Rounds(0x52, 0x82F6_3B78, true, 8) == 0xB01E_AA24;
  }

  /** Byte 5 of `Fox4` (0x6F) selects table entry 0x3C. */
  lemma Fox4Step5()
    ensures StepReflected(Fox4Trace[5], Table(CRC32C.polynomial, true), Fox4[5]) == Fox4Trace[6]
  {
    assert Fox4[5] == 0x6F && Fox4Trace[5] == 0xB057_7853 && Fox4Trace[6] == 0x7D10_D119;
    ReflectedPolynomial();
    assert Table(CRC32C.polynomial, true)[0x3C] == TableEntry(CRC32C.polynomial, true, 0x3C);
    assert Rounds(0x3C, 0x82F6_3B78, true, 8) == 0x7DA0_8661;
  }

  /** Byte 6 of `Fox4` (0x67) selects table entry 0x7E. */
  lemma Fox4Step6()
    ensures StepReflected(Fox4Trace[6], Table(CRC32C.polynomial, true), Fox4[6]) == Fox4Trace[7]
  {
    assert Fox4[6] == 0x67 && Fox4Trace[6] == 0x7D10_D119 && Fox4Trace[7] == 0xDD9D_FBFB;
    ReflectedPolynomial();
    assert Table(CRC32C.polynomial, true)[0x7E] == TableEntry(CRC32C.polynomial, true, 0x7E);
    assert Rounds(0x7E, 0x82F6_3B78, true, 8) == 0xDDE0_EB2A;
  }

  /** The steps for bytes 0 to 3 of `Fox4`. */
  lemma Fox4Steps0(i: int)
    requires 0 <= i < 4
    ensures StepReflected(Fox4Trace[i], Table(CRC32C.polynomial, true), Fox4[i]) == Fox4Trace[i + 1]
  {
    if i == 0 {
      Fox4Step0();
    } else if i == 1 {
      Fox4Step1();
    } else if i == 2 {
      Fox4Step2();
    } else if i == 3 {
      Fox4Step3();
    }
  }

  /** The steps for bytes 4 to 6 of `Fox4`. */
  lemma Fox4Steps4(i: int)
    requires 4 <= i < 7
    ensures StepReflected(Fox4Trace[i], Table(CRC32C.polynomial, true), Fox4[i]) == Fox4Trace[i + 1]
  {
    if i == 4 {
      Fox4Step4();
    } else if i == 5 {
      Fox4Step5();
    } else if i == 6 {
      Fox4Step6();
    }
  }

  /** Absorbing `Fox4` takes the register from 0xE80F_7C05 to 0xDD9D_FBFB. */
  lemma Fox4Fold()
    ensures FoldReflected(0xE80F_7C05, Table(CRC32C.polynomial, true), Fox4) == 0xDD9D_FBFB
  {
    forall i | 0 <= i < |Fox4|
      ensures StepReflected(Fox4Trace[i], Table(CRC32C.polynomial, true), Fox4[i]) == Fox4Trace[i + 1]
    {
      if i < 4 {
        Fox4Steps0(i);
      } else {
        Fox4Steps4(i);
      }
    }
    FoldReflectedTrace(Table(CRC32C.polynomial, true), Fox4, Fox4Trace);
    assert Fox4Trace[0] == 0xE80F_7C05 && Fox4Trace[|Fox4|] == 0xDD9D_FBFB;
  }

  /** The catalogue's empty vector: no bytes give checksum 0. */
  lemma EmptyVector()
    ensures Checksum(CRC32C, []) == 0
  {
    EmptyChecksum(CRC32C);
  }

  /** The ASCII bytes of "The quick brown fox jumps over the lazy dog", as five blocks. */
  const Fox: seq<bv8> := Fox0 + Fox1 + Fox2 + Fox3 + Fox4

  /** The checksum of "The quick brown fox jumps over the lazy dog" is 0x2262_0404. */
  lemma FoxCheckValue()
    ensures Checksum(CRC32C, Fox) == 0x2262_0404
  {
    Fox0Fold();
    Fox1Fold();
    Fox2Fold();
    Fox3Fold();
    Fox4Fold();
    FoldReflectedAppend(0xFFFF_FFFF, Table(CRC32C.polynomial, true), Fox0, Fox1);
    FoldReflectedAppend(0xFFFF_FFFF, Table(CRC32C.polynomial, true), Fox0 + Fox1, Fox2);
    FoldReflectedAppend(0xFFFF_FFFF, Table(CRC32C.polynomial, true), Fox0 + Fox1 + Fox2, Fox3);
    FoldReflectedAppend(0xFFFF_FFFF, Table(CRC32C.polynomial, true), Fox0 + Fox1 + Fox2 + Fox3, Fox4);
    FinalizeIsComplement(0xDD9D_FBFB, CRC32C);
  }

  /**
   * The streaming test: the fox string fed to one digest in 7-byte pieces and
   * the one-shot helper both give 0x2262_0404.
   */
  method StreamingMatchesOneShot() returns (streamed: bv32, oneShot: bv32)
    ensures streamed == oneShot == 0x2262_0404
  {
    streamed := StreamInChunks(Fox, 7);
    oneShot := Crc32cOf(Fox);
    FoxCheckValue();
  }
}
