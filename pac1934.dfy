/** The PAC1934 four-channel voltage and current monitor: bus voltages scale
    linearly, sense voltages become currents through a configured shunt. */
module Pac1934 {
  import opened Hwmon

  /** Shunt resistance of each of the four channels, in µΩ; 0 means no shunt
      is fitted and current reporting is off for that channel. */
  type ShuntTable = s: seq<uint32> | |s| == 4 witness [0, 0, 0, 0]

  const VSENSE0_REGISTER: uint8 := 0x0B
  const VSENSE0_AVG_REGISTER: uint8 := 0x13

  /** µV per count of a bus-voltage register. */
  const VBUS_LSB_UV: int := 488
  /** nV per count of a sense-voltage register. */
  const VSENSE_LSB_NV: int := 1500

  /** VBUS0..3 at 0x07..0x0A and their averages at 0x0F..0x12. */
  predicate IsVbusRegister(reg: uint8) {
    0x07 <= reg <= 0x0A || 0x0F <= reg <= 0x12
  }

  /** VSENSE0..3 at 0x0B..0x0E and their averages at 0x13..0x16. */
  predicate IsVsenseRegister(reg: uint8) {
    0x0B <= reg <= 0x0E || 0x13 <= reg <= 0x16
  }

  /** The channel a sense register belongs to (the driver's `bus`). Its
      initial value 0x0B is overwritten for every sense register, so the
      shunt table is never indexed out of bounds. */
  function SenseChannel(reg: uint8): (bus: int)
    requires IsVsenseRegister(reg)
    ensures 0 <= bus < 4
    ensures bus == (reg - VSENSE0_REGISTER) % 8
  {
    var bus := VSENSE0_REGISTER as int;
    if reg >= VSENSE0_AVG_REGISTER then reg - VSENSE0_AVG_REGISTER
    else if reg >= VSENSE0_REGISTER then reg - VSENSE0_REGISTER
    else bus
  }

  /** `pac1934_get_value` for register reg whose 16-bit word is word: the
      return code and the value stored in `*result` (µV for bus voltages, mA
      for currents). Every value fits the `int` it is stored in. */
  function GetValue(shunts: ShuntTable, reg: uint8, word: uint16): (r: Reply)
    ensures r.out.Some? && -0x8000_0000 <= r.out.value < 0x8000_0000
    ensures r.ret == 0 <==> IsVbusRegister(reg) || IsVsenseRegister(reg)
    ensures r.ret != 0 ==> r == Reply(-EINVAL, Some(0))
    ensures IsVbusRegister(reg) ==> 0 <= r.out.value <= 0xFFFF * VBUS_LSB_UV
    ensures IsVsenseRegister(reg) ==> 0 <= r.out.value <= word * VSENSE_LSB_NV
  {
    ProductsBounded(word);
    if IsVbusRegister(reg) then Reply(0, Some(word * VBUS_LSB_UV))
    else if IsVsenseRegister(reg) then
      var nvsense := ToU32(word * VSENSE_LSB_NV);
      var bus := SenseChannel(reg);
      if shunts[bus] == 0 then Reply(0, Some(0))
      else
        QuotientBounded(nvsense, shunts[bus]);
        Reply(0, Some(nvsense / shunts[bus]))
    else Reply(-EINVAL, Some(0))
  }

  /** Both scaled products of a 16-bit word stay far below 2^31. */
  lemma ProductsBounded(word: uint16)
    ensures 0 <= word * VBUS_LSB_UV <= 0xFFFF * VBUS_LSB_UV
    ensures 0 <= word * VSENSE_LSB_NV <= 0xFFFF * VSENSE_LSB_NV
  {
  }

  /** Dividing by a positive integer never grows a natural number. */
  lemma QuotientBounded(n: nat, d: nat)
    requires d > 0
    ensures 0 <= n / d <= n
  {
    var q := n / d;
    assert n == q * d + n % d;
    var e: nat := d - 1;
    assert q * d == q + q * e;
    assert q * e >= 0;
  }

  /** A bus-voltage register reads 488 µV per count, at most 31,981,080 µV. */
  lemma BusVoltage(shunts: ShuntTable, reg: uint8, word: uint16)
    requires IsVbusRegister(reg)
    ensures GetValue(shunts, reg, word) == Reply(0, Some(word * 488))
    ensures word * 488 <= 31981080
  {
  }

  /** The nanovolt product `word * 1500` never exceeds 98,302,500, so storing
      it in a u32 loses nothing. */
  lemma SenseProductFitsU32(word: uint16)
    ensures word * VSENSE_LSB_NV <= 98302500 < 0x1_0000_0000
    ensures ToU32(word * VSENSE_LSB_NV) == word * VSENSE_LSB_NV
  {
  }

  /** With no shunt on the channel the reading is 0 and the call succeeds. */
  lemma ZeroShuntReadsZero(shunts: ShuntTable, reg: uint8, word: uint16)
    requires IsVsenseRegister(reg)
    requires shunts[SenseChannel(reg)] == 0
    ensures GetValue(shunts, reg, word) == Reply(0, Some(0))
  {
  }

  /** With a shunt of s µΩ the reading is the current in mA, nanovolts over
      microohms truncated toward zero: the largest c with c * s <= word * 1500. */
  lemma CurrentIsTruncatedQuotient(shunts: ShuntTable, reg: uint8, word: uint16)
    requires IsVsenseRegister(reg)
    requires shunts[SenseChannel(reg)] > 0
    ensures var c := GetValue(shunts, reg, word).out.value;
            var s := shunts[SenseChannel(reg)];
            GetValue(shunts, reg, word).ret == 0 &&
            c >= 0 &&
            c * s <= word * VSENSE_LSB_NV < (c + 1) * s
  {
    var s := shunts[SenseChannel(reg)];
    var n := word * VSENSE_LSB_NV;
    SenseProductFitsU32(word);
    var c := n / s;
    assert GetValue(shunts, reg, word).out.value == c;
    assert n == c * s + n % s;
  }

  /** Full-scale sense (0xFFFF, about 100 mV) across a 100 mΩ shunt reads
      983 mA. */
  lemma FullScaleCurrentExample(shunts: ShuntTable)
    requires shunts[0] == 100000
    ensures GetValue(shunts, VSENSE0_REGISTER, 0xFFFF) == Reply(0, Some(983))
    ensures GetValue(shunts, VSENSE0_AVG_REGISTER, 0xFFFF) == Reply(0, Some(983))
  {
  }

  /** An averaged register decodes a word exactly as its instantaneous
      counterpart eight addresses below does. */
  lemma AveragedMatchesInstant(shunts: ShuntTable, reg: uint8, word: uint16)
    requires 0x07 <= reg <= 0x0E
    ensures GetValue(shunts, reg, word) == GetValue(shunts, reg + 8, word)
  {
  }

  /** The shunt table after probe: the "shunt-resistors" property when it
      could be read, otherwise all zero (the structure is zero-allocated, and
      cleared again when the read fails). */
  function ProbeShunts(property: Option<ShuntTable>): (shunts: ShuntTable)
    ensures property.Some? ==> shunts == property.value
    ensures property.None? ==> forall ch :: 0 <= ch < 4 ==> shunts[ch] == 0
  {
    match property
    case Some(s) => s
    case None => [0, 0, 0, 0]
  }

  /** Without the property every current reads 0. */
  lemma MissingShuntsReadZero(reg: uint8, word: uint16)
    requires IsVsenseRegister(reg)
    ensures GetValue(ProbeShunts(None), reg, word) == Reply(0, Some(0))
  {
  }
}
