# Register decoding for three hwmon drivers

This project models the register-decoding arithmetic of three Linux hwmon
drivers for I2C monitor chips, and proves properties of it in Dafny:

- **EMC1704** (`emc17xx/emc17xx.c`), a temperature and voltage monitor. Its
  read callback `emc1704_get_value` picks one of three encodings by register
  number:
  - temperature: signed whole degrees plus eighths (125 m°C each);
  - source voltage: a sum of per-bit weights from a 16-entry µV table,
    walked from bit 15 down to bit 1;
  - sense voltage: a sign bit and an OR of two small bit fields.
  Any other register gives `-EINVAL`.
- **EMC181x** (`emc181x/emc181x.c`), a multi-channel temperature monitor.
  `emc181x_read` maps channel c to the register pair `0x60 + 2c` /
  `0x61 + 2c` and applies the same temperature formula. It also covers
  `emc181x_is_visible` and the CONFIG byte the probe writes when
  anti-parallel diode (APD) mode is off.
- **PAC1934** (`pac1934/pac1934.c`), a four-channel voltage and current
  monitor. Bus-voltage registers read 488 µV per count. Sense registers
  become a current, `word * 1500 nV / shunt µΩ` in mA, or 0 when the shunt
  is 0. The probe leaves an all-zero shunt table when the device tree gives
  none.

Every decoder is a pure function of the register (or channel), the raw bytes
or 16-bit word the bus returned, and the device's fixed configuration. The
bus reads are lifted into parameters:

- the EMC1704 callback takes the high and low bytes;
- the EMC181x callback takes a snapshot of the chip's 256 registers;
- the PAC1934 callback takes the 16-bit word and the four-entry shunt table.

Bytes arrive as `uint8`. Storing one in an `int8_t` is modelled explicitly
by `Hwmon.AsSigned8`, and storing into a `u32` by `Hwmon.ToU32`.

A callback's outcome is a `Reply(ret, out)`: `ret` is the return code and
`out` is what the callback stored through its output argument. `None` means
the argument was left untouched, which happens on the EMC181x error paths. The
EMC1704 and PAC1934 callbacks store 0 on their error path.

Modules: `Hwmon` (integer widths, errno values, `Reply`), `Temperature` (the
shared temperature formula and its inverse), `Emc17xx`, `Emc181x`,
`Pac1934`. The EMC1704 source-voltage loop is an imperative method,
`Emc17xx.AccumulateSourceVoltage`, proved equal to the recursive weighted
sum `Emc17xx.SumFrom`. The whole EMC1704 callback is also a method,
`Emc17xx.GetValue`: it follows the C statement by statement, calls the loop
method for register 0x58, and is proved to return and store exactly what the
decoding function `Emc17xx.Decode` specifies. The EMC181x and PAC1934
callbacks and the probe computations are straight-line code without loops
and are modelled as functions.

Where the code differs from how its comments or the chips' documentation
describe it, the model follows the code:

- The source-weight table (emc17xx/emc17xx.c:35-37) sums to 23,988,300 µV,
  the 23.9883 V full scale of the comment at line 33; `Emc17xx.TableTotal`
  proves the sum. Bit 0 is never examined and bits 1..4 weigh nothing, so
  the reading moves in steps of at least 11.7 mV rather than the
  23.9883 V / 4094 the comment gives as the exact formula.
- The EMC1704 sense value is `((h & 0x7F) >> 4) | (l >> 4)`, not an 11-bit
  magnitude. The two fields overlap in their low three bits, no scale factor
  is applied, and the result lies in -15..15. A zero magnitude reads 0
  whatever the sign bit, so the sign is lost at zero.
- PAC1934 uses 1500 nV per sense count (pac1934/pac1934.c:84), and the
  comment at line 79 agrees. The comment at line 33 says 1.8 µV. The sense
  word is treated as unsigned.
- EMC181x computes its registers as `0x60 + 2 * channel`. Several of the
  `#define`s at emc181x/emc181x.c:19-28 name other addresses; they are never
  used.

## Model

| member | source | states |
|---|---|---|
| `Hwmon.AsSigned8` | emc17xx/emc17xx.c:45-52 | a byte stored in an `int8_t` keeps its bits modulo 256 and is negative exactly when the byte's top bit is set |
| `Hwmon.ToU32` | pac1934/pac1934.c:84 | storing into a `u32` is reduction modulo 2^32 and leaves values below 2^32 unchanged |
| `Temperature.TempMilliC` | emc17xx/emc17xx.c:62-69 | the reading lies in [-128000, 127875] and is a multiple of 125; its floor-thousands are the signed whole degrees and the remaining hundreds/125 are the top three fraction bits, added even when the degrees are negative |
| `Temperature.EncodeTemp` | emc17xx/emc17xx.c:63-65 | the byte pair for a representable reading leaves the five unused fraction bits clear |
| `Temperature.DecodeEncode` | emc17xx/emc17xx.c:63-65 | decoding the encoded pair gives every representable reading back |
| `Temperature.EncodeDecode` | emc17xx/emc17xx.c:63-65 | encoding a decoded pair gives the pair back, with the fraction byte's five ignored low bits cleared |
| `Temperature.TempInjective` | emc17xx/emc17xx.c:63-65 | two pairs decode alike exactly when their whole degrees and top three fraction bits agree |
| `Temperature.NegativeFractionAdds` | emc17xx/emc17xx.c:64-65 | -1 °C with fraction byte 0xE0 reads -125 m°C, and with 0x20 reads -875 m°C |
| `Emc17xx.Composite` | emc17xx/emc17xx.c:71 | the 16-bit composite holds the high byte in bits 8..15 and the low byte in bits 0..7 |
| `Emc17xx.TableTotal` | emc17xx/emc17xx.c:33-37 | the 16 table weights add up to 23,988,300 µV, the 23.9883 V full scale |
| `Emc17xx.SourceVoltage` | emc17xx/emc17xx.c:31-37 | the weighted sum over bits 1..15 is never above the 23,988,300 µV full scale |
| `Emc17xx.AllBitsSumToFullScale` | emc17xx/emc17xx.c:33-37 | with all sixteen bits set the weighted sum is exactly the full scale |
| `Emc17xx.SourceVoltageBound` | emc17xx/emc17xx.c:73-81 | every 16-bit composite sums to at most the full scale |
| `Emc17xx.SourceVoltageMonotone` | emc17xx/emc17xx.c:73-79 | setting additional bits never lowers the source voltage |
| `Emc17xx.SourceVoltageSetBit` | emc17xx/emc17xx.c:73-79 | setting one clear bit k in 1..15 raises the source voltage by exactly the table weight of bit k |
| `Emc17xx.SourceVoltageIgnoresLowBits` | emc17xx/emc17xx.c:35-37 | bits 0..4 never affect the source voltage: bit 0 is not examined and bits 1..4 weigh nothing |
| `Emc17xx.SourceVoltageExamples` | emc17xx/emc17xx.c:31-37 | 0x0000 reads 0 µV, 0x8000 reads 12,000,000 µV, 0xFFFF reads 23,988,300 µV |
| `Emc17xx.AccumulateSourceVoltage` | emc17xx/emc17xx.c:71-81 | the loop from bit 15 down to bit 1, storing the running sum on every pass, ends with the full weighted sum stored |
| `Emc17xx.SenseMagnitude` | emc17xx/emc17xx.c:83 | the OR of bits 4..6 of the high byte and the low byte's top nibble lies in 0..15 and is no smaller than the low byte's field |
| `Emc17xx.SenseVoltage` | emc17xx/emc17xx.c:83-88 | the sense reading lies in [-15, 15], its absolute value is the magnitude, and its sign agrees with the high byte's sign bit whenever it is non-zero |
| `Emc17xx.SenseZeroMagnitude` | emc17xx/emc17xx.c:83-88 | a zero magnitude reads 0 whatever the sign bit |
| `Emc17xx.SenseSign` | emc17xx/emc17xx.c:83-88 | the reading is negative exactly when the high byte's sign bit is set and the magnitude is non-zero |
| `Emc17xx.SenseHighFieldAbsorbed` | emc17xx/emc17xx.c:83 | when the low byte's field has its low three bits set, the high byte's field changes nothing |
| `Emc17xx.Decode` | emc17xx/emc17xx.c:41-95 | every register stores a value; the return is 0 exactly for 0x38..0x3E, 0x55 and 0x58; any other register stores 0 and returns -EINVAL; temperature, source and sense values lie in their ranges |
| `Emc17xx.GetValue` | emc17xx/emc17xx.c:41-95 | the callback as the driver runs it returns and stores exactly what the decoder specifies |
| `Emc17xx.TemperatureRegisters` | emc17xx/emc17xx.c:62-69 | every register in 0x38..0x3E, the odd ones included, returns 0 and stores `h*1000 + (l>>5)*125` with `h` signed, all seven alike |
| `Emc17xx.SourceVoltageRegister` | emc17xx/emc17xx.c:70-81 | register 0x58 returns 0 and stores the weighted sum of bits 1..15 of `(h<<8)\|l` |
| `Emc17xx.SenseVoltageRegister` | emc17xx/emc17xx.c:82-88 | register 0x55 returns 0 and stores the signed sense value, which is negative exactly when the high byte is negative and the magnitude is non-zero |
| `Emc181x.DegreeRegister` | emc181x/emc181x.c:58-70 | channel c reads whole degrees from `(0x60 + 2c) mod 256`, an even address; for c in 0..4 that is `0x60 + 2c`, below 0x80 |
| `Emc181x.FractionRegister` | emc181x/emc181x.c:72 | the fraction byte comes from the register right after the whole degrees |
| `Emc181x.Read` | emc181x/emc181x.c:52-82 | success exactly for a temperature sensor and a channel at most 4, with a value in [-128000, 127875]; a wrong type returns -EOPNOTSUPP, a channel above 4 returns -ENOTSUPP, and on either error the out-value is left unwritten |
| `Emc181x.ChannelRegisterTable` | emc181x/emc181x.c:68-72 | channels 0..4 read the pairs 0x60/0x61, 0x62/0x63, 0x64/0x65, 0x66/0x67, 0x68/0x69 |
| `Emc181x.ReadChannel` | emc181x/emc181x.c:68-81 | on channels 0..4 the read returns 0 and stores `deg*1000 + (frac>>5)*125` from registers `0x60+2c` and `0x61+2c` |
| `Emc181x.ReadAgreesWithEmc1704` | emc181x/emc181x.c:70-77 | a successful read equals the EMC1704 temperature decoding of the same two bytes |
| `Emc181x.NegativeChannelAccepted` | emc181x/emc181x.c:65-68 | only the upper channel bound is checked: channel -1 succeeds and reads registers 0x5E/0x5F |
| `Emc181x.IsVisible` | emc181x/emc181x.c:116-133 | the mode is S_IRUGO exactly for a temperature sensor's input attribute, and 0 otherwise |
| `Emc181x.NonApdConfig` | emc181x/emc181x.c:174-179 | `(old & ~0xFE) \| 0x01` is 0x01 for every old CONFIG byte |
| `Emc181x.ProbeConfigWrite` | emc181x/emc181x.c:169-181 | CONFIG is written exactly when the device has a device-tree node without the APD flag, and the byte written is 0x01 |
| `Pac1934.SenseChannel` | pac1934/pac1934.c:85-91 | every sense register maps to channel `(reg - 0x0B) mod 8` in 0..3, so the initial value 0x0B is never used as an index |
| `Pac1934.GetValue` | pac1934/pac1934.c:50-105 | every register stores a value that fits an `int`; the return is 0 exactly for the bus and sense registers; any other register stores 0 and returns -EINVAL; bus values are at most 0xFFFF*488 and currents at most `word*1500` |
| `Pac1934.BusVoltage` | pac1934/pac1934.c:61-70 | a bus-voltage register stores `word * 488`, at most 31,981,080 µV |
| `Pac1934.SenseProductFitsU32` | pac1934/pac1934.c:84 | `word * 1500` is at most 98,302,500, so the u32 store loses nothing |
| `Pac1934.ZeroShuntReadsZero` | pac1934/pac1934.c:90-94 | with a zero shunt the current reads 0 and the call returns 0 |
| `Pac1934.CurrentIsTruncatedQuotient` | pac1934/pac1934.c:95-97 | with a shunt s > 0 the call returns 0 and stores the largest c >= 0 with `c * s <= word * 1500` |
| `Pac1934.FullScaleCurrentExample` | pac1934/pac1934.c:79-97 | word 0xFFFF across a 100,000 µΩ shunt reads 983 mA, through the instantaneous and the averaged register |
| `Pac1934.AveragedMatchesInstant` | pac1934/pac1934.c:60-98 | each averaged register decodes a word exactly as the instantaneous register eight addresses below |
| `Pac1934.ProbeShunts` | pac1934/pac1934.c:198-209 | the shunt table is the device-tree property when it could be read, and all zero otherwise |
| `Pac1934.MissingShuntsReadZero` | pac1934/pac1934.c:204-209 | without the property every current reading is 0 |

## Left out

- I2C traffic: `i2c_smbus_read_byte_data`, `i2c_smbus_read_word_swapped`, `i2c_smbus_write_byte_data`, and the PAC1934 refresh write (pac1934/pac1934.c:117). The bytes and words they return are inputs; the write is the value `Emc181x.ProbeConfigWrite` returns.
- Bus error returns. The drivers never check them: a negative return would be truncated into the byte or used as the word. The model takes in-range bytes and 16-bit words only.
- sysfs and hwmon plumbing: the `*_show_value` functions and `snprintf`, the `SENSOR_DEVICE_ATTR` and `ATTRIBUTE_GROUPS` tables, the `hwmon_channel_info` / `hwmon_ops` / `hwmon_chip_info` structures, `devm_*` allocation and registration, the `module_i2c_driver` and `MODULE_*` macros, and `printk` / `pr_debug`.
- Device-tree parsing (`of_property_read_*`). Only its outcome is kept: an optional four-entry shunt table (`Pac1934.ProbeShunts`) and the APD flag (`Emc181x.ProbeConfigWrite`).
- The C behaviour of `highval << 8` on a negative `int8_t` (emc17xx/emc17xx.c:71) is not modelled. `Emc17xx.Composite` places the raw high byte in bits 8..15; only bits 1..15 are ever examined.
- `Emc181x.DegreeRegister` uses the mathematical product `channel * 2`. For channels whose doubled value overflows an `int`, that is undefined behaviour in C; with wrap-around the address modulo 256 would be the same.
- `Emc181x.IsVisible` takes `hwmon_temp_input` to be 0, its value in linux/hwmon.h of the drivers' era. That header is not part of this model.
- The `#if 0` code: emc181x/emc181x.c:36-50, 98-101 and 124-128 (APD channel hiding and the EMC1814 extra channels).
- The unused register `#define`s: all of emc181x/emc181x.c:19-28 and the `_LOW` names at emc17xx/emc17xx.c:20, 22, 24 and 26, the one at line 22 repeating 0x3A. The bounds at lines 19 and 25 are the model's `Emc17xx.INTERNAL_TEMP` and `Emc17xx.EXTERNAL3_TEMP`; lines 21 and 23 only feed the attribute table, which is left out with the rest of the sysfs plumbing.
- Concurrency: the decoders hold no state, and serialising bus access is up to the caller.
