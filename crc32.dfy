/**
 * The CRC-32/ISO-HDLC variant (the frame check sequence of IEEE 802.3,
 * clause 3.2.9): a fixed parameter record, a digest object that delegates to
 * the generic engine, and the one-shot helper.
 */
module Crc32 {
  import opened CrcCore

  /** Polynomial 0x04C11DB7, register preset to all ones, output inverted, both reflections on. */
  const CRC32 := Algorithm32("crc32", 0x04C11DB7, 0xFFFF_FFFF, 0xFFFF_FFFF, true, true)

  /** The IEEE digest: one engine fixed to `CRC32`. */
  class Crc32 {
    const inner: Crc32Engine

    /** The engine runs the IEEE parameters and its table is consistent with them. */
    ghost predicate Valid()
      reads this, inner, inner.table
    {
      inner.Valid() && inner.params == CRC32
    }

    /** `Crc32::new`: a fresh engine with the reflected table and an all-ones register. */
    constructor ()
      ensures Valid() && fresh(inner) && fresh(inner.table)
      ensures inner.state == 0xFFFF_FFFF
      ensures inner.table[..] == Table(0x04C11DB7, true)
    {
      inner := new Crc32Engine(CRC32);
    }

    /** `update`: absorb more bytes into the inner register. */
    method Update(data: seq<bv8>)
      requires Valid()
      modifies inner`state
      ensures Valid()
      ensures inner.state == Absorbed(CRC32, old(inner.state), data)
    {
      inner.Update(data);
    }

    /** `reset`: the inner register returns to all ones; the table is a constant. */
    method Reset()
      requires Valid()
      modifies inner`state
      ensures Valid()
      ensures inner.state == 0xFFFF_FFFF
    {
      inner.Reset();
    }

    /** `finalize_u32`: the inverted register, read without changing anything. */
    method FinalizeU32() returns (r: bv32)
      requires Valid()
      ensures r == !inner.state
    {
      r := inner.FinalizeU32();
      FinalizeIsComplement(inner.state, CRC32);
    }

    /** `finalize_into`: the checksum as four big-endian bytes. */
    method FinalizeInto() returns (out: seq<bv8>)
      requires Valid()
      ensures out == ToBigEndian(!inner.state)
    {
      out := inner.FinalizeInto();
      FinalizeIsComplement(inner.state, CRC32);
    }

    /** `finalize_into_reset`: emit the big-endian checksum, then restore the preset register. */
    method FinalizeIntoReset() returns (out: seq<bv8>)
      requires Valid()
      modifies inner`state
      ensures Valid()
      ensures out == ToBigEndian(!old(inner.state))
      ensures inner.state == 0xFFFF_FFFF
    {
      FinalizeIsComplement(inner.state, CRC32);
      out := inner.FinalizeIntoReset();
    }
  }

  /** `crc32`: a fresh digest, one update, then the checksum. */
  method Crc32Of(data: seq<bv8>) returns (r: bv32)
    ensures r == Checksum(CRC32, data)
  {
    var digest := new Crc32();
    digest.Update(data);
    r := digest.FinalizeU32();
    FinalizeIsComplement(digest.inner.state, CRC32);
  }

  // ---------------------------------------------------------------------------
  // Known answers

  /** The reflected IEEE polynomial. */
  lemma ReflectedPolynomial()
    ensures Divisor(CRC32.polynomial, true) == 0xEDB8_8320
  {
    ReflectMirrors(CRC32.polynomial, RegisterWidth);
    forall j: bv8 | j < 32
      ensures Bit(Reflect(CRC32.polynomial, RegisterWidth), j) == Bit(0xEDB8_8320, j)
    {
    }
    BitsEqual(Reflect(CRC32.polynomial, RegisterWidth), 0xEDB8_8320);
  }

  /** The ASCII bytes of "123456789". */
  const Digits: seq<bv8> := [
    0x31, 0x32, 0x33, 0x34, 0x35, 0x36, 0x37, 0x38, 0x39
  ]

  /** The register before each byte of `Digits` and after the last one. */
  const DigitsTrace: seq<bv32> := [
    0xFFFF_FFFF, 0x7C23_1048, 0xB0AC_BB32, 0x77B7_9C2D, 0x641C_1F5C, 0x340A_C5E3,
    0xF68D_2C9E, 0xAFFC_9660, 0x651F_2550, 0x340B_C6D9
  ]

  /** Byte 0 of `Digits` (0x31) selects table entry 0xCE. */
  lemma DigitsStep0()
    ensures StepReflected(DigitsTrace[0], Table(CRC32.polynomial, true), Digits[0]) == DigitsTrace[1]
  {
    assert Digits[0] == 0x31 && DigitsTrace[0] == 0xFFFF_FFFF && DigitsTrace[1] == 0x7C23_1048;
    ReflectedPolynomial();
    assert Table(CRC32.polynomial, true)[0xCE] == TableEntry(CRC32.polynomial, true, 0xCE);
    assert Rounds(0xCE, 0xEDB8_8320, true, 8) == 0x7CDC_EFB7;
  }

  /** Byte 1 of `Digits` (0x32) selects table entry 0x7A. */
  lemma DigitsStep1()
    ensures StepReflected(DigitsTrace[1], Table(CRC32.polynomial, true), Digits[1]) == DigitsTrace[2]
  {
    assert Digits[1] == 0x32 && DigitsTrace[1] == 0x7C23_1048 && DigitsTrace[2] == 0xB0AC_BB32;
    ReflectedPolynomial();
    assert Table(CRC32.polynomial, true)[0x7A] == TableEntry(CRC32.polynomial, true, 0x7A);
    assert Rounds(0x7A, 0xEDB8_8320, true, 8) == 0xB0D0_9822;
  }

  /** Byte 2 of `Digits` (0x33) selects table entry 0x01. */
  lemma DigitsStep2()
    ensures StepReflected(DigitsTrace[2], Table(CRC32.polynomial, true), Digits[2]) == DigitsTrace[3]
  {
    assert Digits[2] == 0x33 && DigitsTrace[2] == 0xB0AC_BB32 && DigitsTrace[3] == 0x77B7_9C2D;
    ReflectedPolynomial();
    assert Table(CRC32.polynomial, true)[0x01] == TableEntry(CRC32.polynomial, true, 0x01);
    assert Rounds(0x01, 0xEDB8_8320, true, 8) == 0x7707_3096;
  }

  /** Byte 3 of `Digits` (0x34) selects table entry 0x19. */
  lemma DigitsStep3()
    ensures StepReflected(DigitsTrace[3], Table(CRC32.polynomial, true), Digits[3]) == DigitsTrace[4]
  {
    assert Digits[3] == 0x34 && DigitsTrace[3] == 0x77B7_9C2D && DigitsTrace[4] == 0x641C_1F5C;
    ReflectedPolynomial();
    assert Table(CRC32.polynomial, true)[0x19] == TableEntry(CRC32.polynomial, true, 0x19);
    assert Rounds(0x19, 0xEDB8_8320, true, 8) == 0x646B_A8C0;
  }

  /** Byte 4 of `Digits` (0x35) selects table entry 0x69. */
  lemma DigitsStep4()
    ensures StepReflected(DigitsTrace[4], Table(CRC32.polynomial, true), Digits[4]) == DigitsTrace[5]
  {
    assert Digits[4] == 0x35 && DigitsTrace[4] == 0x641C_1F5C && DigitsTrace[5] == 0x340A_C5E3;
    ReflectedPolynomial();
    assert Table(CRC32.polynomial, true)[0x69] == TableEntry(CRC32.polynomial, true, 0x69);
    assert Rounds(0x69, 0xEDB8_8320, true, 8) == 0x346E_D9FC;
  }

  /** Byte 5 of `Digits` (0x36) selects table entry 0xD5. */
  lemma DigitsStep5()
    ensures StepReflected(DigitsTrace[5], Table(CRC32.polynomial, true), Digits[5]) == DigitsTrace[6]
  {
    assert Digits[5] == 0x36 && DigitsTrace[5] == 0x340A_C5E3 && DigitsTrace[6] == 0xF68D_2C9E;
    ReflectedPolynomial();
    assert Table(CRC32.polynomial, true)[0xD5] == TableEntry(CRC32.polynomial, true, 0xD5);
    assert Rounds(0xD5, 0xEDB8_8320, true, 8) == 0xF6B9_265B;
  }

  /** Byte 6 of `Digits` (0x37) selects table entry 0xA9. */
  lemma DigitsStep6()
    ensures StepReflected(DigitsTrace[6], Table(CRC32.polynomial, true), Digits[6]) == DigitsTrace[7]
  {
    assert Digits[6] == 0x37 && DigitsTrace[6] == 0xF68D_2C9E && DigitsTrace[7] == 0xAFFC_9660;
    ReflectedPolynomial();
    assert Table(CRC32.polynomial, true)[0xA9] == TableEntry(CRC32.polynomial, true, 0xA9);
    assert Rounds(0xA9, 0xEDB8_8320, true, 8) == 0xAF0A_1B4C;
  }

  /** Byte 7 of `Digits` (0x38) selects table entry 0x58. */
  lemma DigitsStep7()
    ensures StepReflected(DigitsTrace[7], Table(CRC32.polynomial, true), Digits[7]) == DigitsTrace[8]
  {
    assert Digits[7] == 0x38 && DigitsTrace[7] == 0xAFFC_9660 && DigitsTrace[8] == 0x651F_2550;
    ReflectedPolynomial();
    assert Table(CRC32.polynomial, true)[0x58] == TableEntry(CRC32.polynomial, true, 0x58);
    assert Rounds(0x58, 0xEDB8_8320, true, 8) == 0x65B0_D9C6;
  }

  /** Byte 8 of `Digits` (0x39) selects table entry 0x69. */
  lemma DigitsStep8()
    ensures StepReflected(DigitsTrace[8], Table(CRC32.polynomial, true), Digits[8]) == DigitsTrace[9]
  {
    assert Digits[8] == 0x39 && DigitsTrace[8] == 0x651F_2550 && DigitsTrace[9] == 0x340B_C6D9;
    ReflectedPolynomial();
    assert Table(CRC32.polynomial, true)[0x69] == TableEntry(CRC32.polynomial, true, 0x69);
    assert Rounds(0x69, 0xEDB8_8320, true, 8) == 0x346E_D9FC;
  }

  /** The steps for bytes 0 to 3 of `Digits`. */
  lemma DigitsSteps0(i: int)
    requires 0 <= i < 4
    ensures StepReflected(DigitsTrace[i], Table(CRC32.polynomial, true), Digits[i]) == DigitsTrace[i + 1]
  {
    if i == 0 {
      DigitsStep0();
    } else if i == 1 {
      DigitsStep1();
    } else if i == 2 {
      DigitsStep2();
    } else if i == 3 {
      DigitsStep3();
    }
  }

  /** The steps for bytes 4 to 7 of `Digits`. */
  lemma DigitsSteps4(i: int)
    requires 4 <= i < 8
    ensures StepReflected(DigitsTrace[i], Table(CRC32.polynomial, true), Digits[i]) == DigitsTrace[i + 1]
  {
    if i == 4 {
      DigitsStep4();
    } else if i == 5 {
      DigitsStep5();
    } else if i == 6 {
      DigitsStep6();
    } else if i == 7 {
      DigitsStep7();
    }
  }

  /** The steps for bytes 8 to 8 of `Digits`. */
  lemma DigitsSteps8(i: int)
    requires 8 <= i < 9
    ensures StepReflected(DigitsTrace[i], Table(CRC32.polynomial, true), Digits[i]) == DigitsTrace[i + 1]
  {
    if i == 8 {
      DigitsStep8();
    }
  }

  /** Absorbing `Digits` takes the register from 0xFFFF_FFFF to 0x340B_C6D9. */
  lemma DigitsFold()
    ensures FoldReflected(0xFFFF_FFFF, Table(CRC32.polynomial, true), Digits) == 0x340B_C6D9
  {
    forall i | 0 <= i < |Digits|
      ensures StepReflected(DigitsTrace[i], Table(CRC32.polynomial, true), Digits[i]) == DigitsTrace[i + 1]
    {
      if i < 4 {
        DigitsSteps0(i);
      } else if i < 8 {
        DigitsSteps4(i);
      } else {
        DigitsSteps8(i);
      }
    }
    FoldReflectedTrace(Table(CRC32.polynomial, true), Digits, DigitsTrace);
    assert DigitsTrace[0] == 0xFFFF_FFFF && DigitsTrace[|Digits|] == 0x340B_C6D9;
  }

  /** The checksum of "123456789" is 0xCBF4_3926. */
  lemma DigitsCheckValue()
    ensures Checksum(CRC32, Digits) == 0xCBF4_3926
  {
    DigitsFold();
    FinalizeIsComplement(0x340B_C6D9, CRC32);
  }

  /** The engine built directly from the IEEE parameters reports 0xCBF4_3926 for "123456789". */
  method EngineKnownChecksum() returns (r: bv32)
    ensures r == 0xCBF4_3926
  {
    var engine := new Crc32Engine(CRC32);
    engine.Update(Digits);
    r := engine.FinalizeU32();
    DigitsCheckValue();
  }
}
