/** The EMC1704 temperature and voltage monitor: one read callback that
    decodes a register's high and low bytes by the register's number. */
module Emc17xx {
  import opened Hwmon
  import opened Temperature

  const INTERNAL_TEMP: uint8 := 0x38
  const EXTERNAL3_TEMP: uint8 := 0x3E
  const SOURCE_VOLT_REGISTER: uint8 := 0x58
  const SENSE_VOLT_REGISTER: uint8 := 0x55

  /** Microvolts carried by each bit of the source-voltage register; bits 0..4
      carry none. */
  const SourceWeights: seq<nat> :=
    [0, 0, 0, 0, 0, 11700, 23400, 46900, 93800, 187500, 375000, 750000,
     1500000, 3000000, 6000000, 12000000]

  /** Sum of the whole table: the 23.9883 V full scale, in µV. */
  const FullScale: nat := 23988300

  // ---------------------------------------------------------------------------
  // Register classes

  /** The test is a range, so the odd low-byte registers 0x39, 0x3B and 0x3D
      are temperature registers too. */
  predicate IsTempRegister(reg: uint8) {
    INTERNAL_TEMP <= reg <= EXTERNAL3_TEMP
  }

  predicate IsKnownRegister(reg: uint8) {
    IsTempRegister(reg) || reg == SOURCE_VOLT_REGISTER || reg == SENSE_VOLT_REGISTER
  }

  // ---------------------------------------------------------------------------
  // Source voltage: a sum of per-bit weights

  /** The 16-bit composite `(high << 8) | low` of the two raw bytes: the high
      byte in bits 8..15, the low byte in bits 0..7. */
  function Composite(hi: uint8, lo: uint8): (t: bv16)
    ensures t >> 8 == hi as bv16
    ensures t & 0xFF == lo as bv16
  {
    ((hi as bv16) << 8) | (lo as bv16)
  }

  /** The kernel's `BIT(i)` mask. */
  function Bit(i: nat): bv16
    requires i < 16
  {
    1 << i
  }

  /** The bit-mask test the driver applies: bit i of t is set. */
  predicate BitSet(t: bv16, i: nat)
    requires i < 16
  {
    t & Bit(i) == Bit(i)
  }

  /** What bit i of t contributes. */
  function Term(t: bv16, i: nat): nat
    requires i < 16
  {
    if BitSet(t, i) then SourceWeights[i] else 0
  }

  /** The weights of the bits lo..15 that are set in t. */
  function SumFrom(t: bv16, lo: nat): nat
    requires lo <= 16
    decreases 16 - lo
  {
    if lo == 16 then 0 else Term(t, lo) + SumFrom(t, lo + 1)
  }

  /** Source voltage in µV: the weights of the set bits among 1..15; bit 0 is
      never examined. Never negative and never above the full scale. */
  function SourceVoltage(t: bv16): (uv: nat)
    ensures uv <= FullScale
  {
    SourceVoltageBound(t);
    SumFrom(t, 1)
  }

  /** Setting more bits never lowers a partial sum. */
  lemma {:induction false} SumFromMonotone(a: bv16, b: bv16, lo: nat)
    requires lo <= 16
    ensures SumFrom(a, lo) <= SumFrom(a | b, lo)
    decreases 16 - lo
  {
    if lo < 16 {
      assert BitSet(a, lo) ==> BitSet(a | b, lo);
      SumFromMonotone(a, b, lo + 1);
    }
  }

  /** The weights of the table entries lo..15. */
  function TableSum(lo: nat): nat
    requires lo <= 16
    decreases 16 - lo
  {
    if lo == 16 then 0 else SourceWeights[lo] + TableSum(lo + 1)
  }

  /** With every bit set, a partial sum takes every weight. */
  lemma {:induction false} SumFromAllSet(lo: nat)
    requires lo <= 16
    ensures SumFrom(0xFFFF, lo) == TableSum(lo)
    decreases 16 - lo
  {
    if lo < 16 {
      assert BitSet(0xFFFF, lo);
      SumFromAllSet(lo + 1);
    }
  }

  lemma AllBitsSumToFullScale()
    ensures SumFrom(0xFFFF, 1) == FullScale
  {
    SumFromAllSet(1);
    TableTotal();
  }

  /** The table's entries add up to the full scale. */
  lemma TableTotal()
    ensures TableSum(1) == FullScale
  {
  }

  /** With no bit set, a partial sum is zero. */
  lemma {:induction false} SumFromNoneSet(lo: nat)
    requires lo <= 16
    ensures SumFrom(0, lo) == 0
    decreases 16 - lo
  {
    if lo < 16 {
      assert !BitSet(0, lo);
      SumFromNoneSet(lo + 1);
    }
  }

  /** With only the top bit set, a partial sum is the top weight. */
  lemma {:induction false} SumFromTopBit(lo: nat)
    requires lo <= 15
    ensures SumFrom(0x8000, lo) == 12000000
    decreases 16 - lo
  {
    if lo < 15 {
      assert !BitSet(0x8000, lo);
      SumFromTopBit(lo + 1);
    } else {
      assert BitSet(0x8000, 15);
    }
  }

  lemma SourceVoltageBound(t: bv16)
    ensures SumFrom(t, 1) <= FullScale
  {
    SumFromMonotone(t, 0xFFFF, 1);
    assert t | 0xFFFF == 0xFFFF;
    AllBitsSumToFullScale();
  }

  /** Setting more bits never lowers the source voltage: every weight is
      non-negative. */
  lemma SourceVoltageMonotone(a: bv16, b: bv16)
    ensures SourceVoltage(a) <= SourceVoltage(a | b)
  {
    SumFromMonotone(a, b, 1);
  }

  /** OR-ing in a mask disjoint from m leaves the test against m unchanged. */
  lemma OrDisjointMask(a: bv16, m: bv16, other: bv16)
    requires m & other == 0
    ensures ((a | other) & m == m) == (a & m == m)
  {
  }

  /** OR-ing in a mask makes the test against it succeed. */
  lemma OrSetsMask(a: bv16, m: bv16)
    ensures (a | m) & m == m
  {
  }

  /** Distinct bit positions have disjoint masks. */
  lemma MasksDisjoint(i: nat, k: nat)
    requires i < 16 && k < 16 && i != k
    ensures Bit(i) & Bit(k) == 0
  {
  }

  lemma BitSetOrOther(a: bv16, k: nat, i: nat)
    requires k < 16 && i < 16 && i != k
    ensures BitSet(a | Bit(k), i) == BitSet(a, i)
  {
    MasksDisjoint(i, k);
    OrDisjointMask(a, Bit(i), Bit(k));
  }

  lemma BitSetOrSame(a: bv16, k: nat)
    requires k < 16
    ensures BitSet(a | Bit(k), k)
  {
    OrSetsMask(a, Bit(k));
  }

  /** Setting a clear bit k adds exactly that bit's weight to a partial sum. */
  lemma {:induction false} SumFromSetBit(a: bv16, k: nat, lo: nat)
    requires 1 <= lo <= 16 && 1 <= k <= 15
    requires !BitSet(a, k)
    ensures SumFrom(a | Bit(k), lo) == SumFrom(a, lo) + (if lo <= k then SourceWeights[k] else 0)
    decreases 16 - lo
  {
    if lo < 16 {
      if lo == k { BitSetOrSame(a, k); } else { BitSetOrOther(a, k, lo); }
      SumFromSetBit(a, k, lo + 1);
    }
  }

  /** Setting one clear bit among 1..15 raises the source voltage by exactly
      that bit's table weight. */
  lemma SourceVoltageSetBit(a: bv16, k: nat)
    requires 1 <= k <= 15
    requires !BitSet(a, k)
    ensures SourceVoltage(a | Bit(k)) == SourceVoltage(a) + SourceWeights[k]
  {
    SumFromSetBit(a, k, 1);
  }

  /** Bits 0..4 never change a partial sum: bit 0 is not examined and bits
      1..4 weigh nothing. */
  lemma {:induction false} SumFromIgnoresLowBits(t: bv16, lo: nat)
    requires 1 <= lo <= 16
    ensures SumFrom(t, lo) == SumFrom(t & 0xFFE0, lo)
    decreases 16 - lo
  {
    if lo < 16 {
      if lo >= 5 {
        assert BitSet(t, lo) == BitSet(t & 0xFFE0, lo);
      }
      SumFromIgnoresLowBits(t, lo + 1);
    }
  }

  /** The source voltage depends only on bits 5..15. */
  lemma SourceVoltageIgnoresLowBits(t: bv16)
    ensures SourceVoltage(t) == SourceVoltage(t & 0xFFE0)
  {
    SumFromIgnoresLowBits(t, 1);
  }

  /** Zero, the top bit alone, and every bit set. */
  lemma SourceVoltageExamples()
    ensures SourceVoltage(0x0000) == 0
    ensures SourceVoltage(0x8000) == 12000000
    ensures SourceVoltage(0xFFFF) == 23988300
  {
    SumFromNoneSet(1);
    SumFromTopBit(1);
    AllBitsSumToFullScale();
  }

  // ---------------------------------------------------------------------------
  // Sense voltage: a sign bit and an OR of two small fields

  /** `((high & 0x7F) >> 4) | (low >> 4)`: bits 4..6 of the high byte OR-ed
      onto the top nibble of the low byte, a value in 0..15 no smaller than
      the low byte's field. */
  function SenseMagnitude(hi: uint8, lo: uint8): (m: nat)
    ensures m <= 15
    ensures m >= lo / 16
  {
    var highField := ((hi as bv8) & 0x7F) >> 4;
    var lowField := (lo as bv8) >> 4;
    FieldsOr(highField, lowField);
    (highField | lowField) as nat
  }

  /** OR-ing a 3-bit field onto a 4-bit one stays within four bits and
      dominates both. */
  lemma FieldsOr(h: bv8, l: bv8)
    requires h <= 7 && l <= 15
    ensures h | l <= 15 && h | l >= h && h | l >= l
  {
  }

  /** The sense reading: the magnitude, negated when the high byte is negative.
      No scale factor is applied. */
  function SenseVoltage(hi: uint8, lo: uint8): (v: int)
    ensures -15 <= v <= 15
    ensures (if v < 0 then -v else v) == SenseMagnitude(hi, lo)
    ensures v < 0 ==> AsSigned8(hi) < 0
    ensures v > 0 ==> AsSigned8(hi) >= 0
  {
    var tempval := SenseMagnitude(hi, lo);
    if AsSigned8(hi) < 0 then 0 - tempval else tempval
  }

  /** The sign is lost at zero: a zero magnitude reads 0 whatever the sign bit. */
  lemma SenseZeroMagnitude(hi: uint8, lo: uint8)
    requires SenseMagnitude(hi, lo) == 0
    ensures SenseVoltage(hi, lo) == 0
  {
  }

  /** The result is negative exactly when the high byte is negative and the
      magnitude is not zero. */
  lemma SenseSign(hi: uint8, lo: uint8)
    ensures SenseVoltage(hi, lo) < 0 <==> hi >= 0x80 && SenseMagnitude(hi, lo) != 0
  {
  }

  /** The two fields overlap: when the low byte's field has its three low bits
      set, the high byte's field is absorbed entirely. */
  lemma SenseHighFieldAbsorbed(hi: uint8, lo: uint8)
    requires (lo / 16) % 8 == 7
    ensures SenseMagnitude(hi, lo) == lo / 16
  {
    var l := (lo as bv8) >> 4;
    assert l as nat == lo / 16;
    assert (l & 7) == 7;
  }

  // ---------------------------------------------------------------------------
  // The read callback

  /** `emc1704_get_value`: the return code and the value stored in `*result`,
      for register reg whose two bus bytes are hi and lo. */
  function Decode(reg: uint8, hi: uint8, lo: uint8): (r: Reply)
    ensures r.out.Some?
    ensures r.ret == 0 <==> IsKnownRegister(reg)
    ensures !IsKnownRegister(reg) ==> r == Reply(-EINVAL, Some(0))
    ensures IsTempRegister(reg) ==> MinMilliC <= r.out.value <= MaxMilliC
    ensures reg == SOURCE_VOLT_REGISTER ==> 0 <= r.out.value <= FullScale
    ensures reg == SENSE_VOLT_REGISTER ==> -15 <= r.out.value <= 15
  {
    if IsTempRegister(reg) then Reply(0, Some(TempMilliC(AsSigned8(hi), lo)))
    else if reg == SOURCE_VOLT_REGISTER then Reply(0, Some(SourceVoltage(Composite(hi, lo))))
    else if reg == SENSE_VOLT_REGISTER then Reply(0, Some(SenseVoltage(hi, lo)))
    else Reply(-EINVAL, Some(0))
  }

  /** The driver's bit walk over the composite: from bit 15 down to bit 1,
      add the weight of each set bit and store the running sum in `*result`
      on every pass. It ends with the whole weighted sum stored. */
  method AccumulateSourceVoltage(tempval: bv16) returns (result: int)
    ensures result == SourceVoltage(tempval)
  {
    var mval: int := 0;
    var i := 15;
    result := 0;  // the caller's slot; the first pass overwrites it
    while i > 0
      invariant 0 <= i <= 15
      invariant mval == SumFrom(tempval, i + 1)
      invariant i < 15 ==> result == mval
    {
      if tempval & Bit(i) == Bit(i) {
        mval := mval + SourceWeights[i];
      }
      result := mval;
      i := i - 1;
    }
  }

  /** The callback as the driver runs it, with the two bus bytes as inputs. */
  method GetValue(reg: uint8, hi: uint8, lo: uint8) returns (ret: int, result: int)
    ensures Decode(reg, hi, lo) == Reply(ret, Some(result))
  {
    var highval := AsSigned8(hi);
    var lowval := lo;
    if INTERNAL_TEMP <= reg <= EXTERNAL3_TEMP {
      lowval := lowval / 32;
      var mval := (highval as int) * 1000 + (lowval as int) * 125;
      result := mval;
    } else if reg == SOURCE_VOLT_REGISTER {
      var tempval := Composite(hi, lowval);
      result := AccumulateSourceVoltage(tempval);
    } else if reg == SENSE_VOLT_REGISTER {
      var tempval := ((((hi as bv8) & 0x7F) >> 4) | ((lowval as bv8) >> 4)) as int;
      if highval < 0 {
        tempval := 0 - tempval;
      }
      result := tempval;
    } else {
      result := 0;
      ret := -EINVAL;
      return;
    }
    ret := 0;
  }

  // ---------------------------------------------------------------------------
  // Properties of the callback

  /** Every register in 0x38..0x3E decodes the pair as whole degrees plus
      eighths, all seven alike. */
  lemma TemperatureRegisters(reg: uint8, hi: uint8, lo: uint8)
    requires INTERNAL_TEMP <= reg <= EXTERNAL3_TEMP
    ensures Decode(reg, hi, lo) == Reply(0, Some(AsSigned8(hi) * 1000 + (lo / 32) * 125))
    ensures Decode(reg, hi, lo) == Decode(INTERNAL_TEMP, hi, lo)
  {
  }

  /** Register 0x58 yields the weighted sum of the composite's bits 1..15. */
  lemma SourceVoltageRegister(hi: uint8, lo: uint8)
    ensures Decode(SOURCE_VOLT_REGISTER, hi, lo) == Reply(0, Some(SumFrom(Composite(hi, lo), 1)))
  {
  }

  /** Register 0x55 yields the signed 4-bit sense value. */
  lemma SenseVoltageRegister(hi: uint8, lo: uint8)
    ensures Decode(SENSE_VOLT_REGISTER, hi, lo) == Reply(0, Some(SenseVoltage(hi, lo)))
    ensures Decode(SENSE_VOLT_REGISTER, hi, lo).ret == 0
    ensures Decode(SENSE_VOLT_REGISTER, hi, lo).out.value < 0 <==> hi >= 0x80 && SenseMagnitude(hi, lo) != 0
  {
    SenseSign(hi, lo);
  }
}
