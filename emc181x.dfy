/** The EMC181x multi-channel temperature monitor: a hwmon read callback that
    maps a channel to a register pair, a visibility rule, and the CONFIG byte
    the probe writes when anti-parallel diode mode is off. */
module Emc181x {
  import opened Hwmon
  import opened Temperature
  import Emc17xx

  /** The hwmon core's sensor classes. */
  datatype SensorType = Chip | Temp | In | Curr | Power | Energy | Humidity | Fan | Pwm

  /** `hwmon_temp_input` as numbered in linux/hwmon.h of the driver's era. */
  const HWMON_TEMP_INPUT: uint32 := 0

  /** Highest channel the callback accepts: the internal diode and four
      external ones. */
  const MAX_CHANNEL: int := 4

  /** The whole-degree register of a channel: `0x60 + channel * 2` kept in an
      `int8_t`, then handed to the bus as a u8 command byte. */
  function DegreeRegister(channel: int32): (reg: uint8)
    ensures reg == (0x60 + channel * 2) % 0x100
    ensures reg % 2 == 0
    ensures 0 <= channel <= MAX_CHANNEL ==> reg == 0x60 + channel * 2 && reg < 0x80
  {
    var address := 0x60 + channel * 2;
    EvenModByte(address);
    var channelReg := AsSigned8(address % 0x100);
    channelReg % 0x100
  }

  /** Reducing an even number modulo 256 keeps it even. */
  lemma EvenModByte(x: int)
    requires x % 2 == 0
    ensures (x % 0x100) % 2 == 0
  {
  }

  /** The fraction register, `channel_reg + 0x01`: the byte after the whole
      degrees. */
  function FractionRegister(channel: int32): (reg: uint8)
    ensures reg == DegreeRegister(channel) + 1
  {
    var channelReg := AsSigned8((0x60 + channel * 2) % 0x100);
    (channelReg + 1) % 0x100
  }

  /** `emc181x_read` over a snapshot regs of the chip's 256 registers: the
      return code and what it stores in `*val` (None: left unwritten). */
  function Read(sensor: SensorType, attr: uint32, channel: int32, regs: seq<uint8>): (r: Reply)
    requires |regs| == 0x100
    ensures r.ret == 0 <==> sensor == Temp && channel <= MAX_CHANNEL
    ensures r.ret != 0 ==> r.out == None
    ensures r.ret == 0 ==> r.out.Some? && MinMilliC <= r.out.value <= MaxMilliC
    ensures sensor != Temp ==> r.ret == -EOPNOTSUPP
    ensures sensor == Temp && channel > MAX_CHANNEL ==> r.ret == -ENOTSUPP
  {
    if sensor != Temp then Reply(-EOPNOTSUPP, None)
    else if channel > MAX_CHANNEL then Reply(-ENOTSUPP, None)
    else
      var channelDeg := AsSigned8(regs[DegreeRegister(channel)]);
      var channelFrac := regs[FractionRegister(channel)];
      Reply(0, Some(TempMilliC(channelDeg, channelFrac)))
  }

  /** The five channels read the register pairs 0x60/0x61 up to 0x68/0x69,
      all below 0x80. */
  lemma ChannelRegisterTable()
    ensures DegreeRegister(0) == 0x60 && FractionRegister(0) == 0x61
    ensures DegreeRegister(1) == 0x62 && FractionRegister(1) == 0x63
    ensures DegreeRegister(2) == 0x64 && FractionRegister(2) == 0x65
    ensures DegreeRegister(3) == 0x66 && FractionRegister(3) == 0x67
    ensures DegreeRegister(4) == 0x68 && FractionRegister(4) == 0x69
  {
  }

  /** On a channel 0..4 the read succeeds with whole degrees from register
      0x60 + 2c and eighths from the register after it. */
  lemma ReadChannel(attr: uint32, channel: int32, regs: seq<uint8>)
    requires |regs| == 0x100
    requires 0 <= channel <= MAX_CHANNEL
    ensures Read(Temp, attr, channel, regs)
         == Reply(0, Some((AsSigned8(regs[0x60 + 2 * channel]) as int) * 1000 + (regs[0x61 + 2 * channel] as int / 32) * 125))
  {
  }

  /** The value is what the EMC1704 temperature branch yields for the same
      byte pair. */
  lemma ReadAgreesWithEmc1704(attr: uint32, channel: int32, regs: seq<uint8>)
    requires |regs| == 0x100
    requires channel <= MAX_CHANNEL
    ensures Read(Temp, attr, channel, regs)
         == Emc17xx.Decode(Emc17xx.INTERNAL_TEMP, regs[DegreeRegister(channel)], regs[FractionRegister(channel)])
  {
  }

  /** Only the upper bound is checked: channel -1 reads the register pair
      0x5E/0x5F and succeeds. */
  lemma NegativeChannelAccepted(attr: uint32, regs: seq<uint8>)
    requires |regs| == 0x100
    ensures Read(Temp, attr, -1, regs) == Reply(0, Some(TempMilliC(AsSigned8(regs[0x5E]), regs[0x5F])))
  {
    assert DegreeRegister(-1) == 0x5E;
  }

  /** `emc181x_is_visible`: temperature inputs are readable by all, every
      other attribute is hidden. */
  function IsVisible(sensor: SensorType, attr: uint32, channel: int32): (mode: int)
    ensures mode == S_IRUGO <==> sensor == Temp && attr == HWMON_TEMP_INPUT
    ensures mode != S_IRUGO ==> mode == 0
  {
    if sensor != Temp then 0
    else if attr == HWMON_TEMP_INPUT then S_IRUGO
    else 0
  }

  /** The CONFIG byte written when anti-parallel diode mode is off:
      `(old & ~0xFE) | 0x01`. The value passes through an `int8_t`, whose
      widening to int and narrowing back only touch bits above bit 7, so the
      computation is carried out on the byte itself. The result is 0x01
      whatever the current contents. */
  function NonApdConfig(current: uint8): (written: uint8)
    ensures written == 0x01
  {
    var regval: bv8 := current as bv8;
    var masked := regval & !0xFE;
    (masked | 0x01) as int
  }

  /** The probe's CONFIG write: issued only when the device has a
      device-tree node whose "emc181x,apd" flag is absent, and then always
      0x01. Without a node the flag stays at its zero-allocated false, but no
      write happens. */
  function ProbeConfigWrite(hasNode: bool, apd: bool, current: uint8): (write: Option<uint8>)
    ensures write.Some? <==> hasNode && !apd
    ensures write.Some? ==> write.value == 0x01
  {
    if hasNode && !apd then Some(NonApdConfig(current)) else None
  }
}
