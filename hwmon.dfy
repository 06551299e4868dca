/** Integer widths, kernel constants and the shape of a read callback's outcome,
    shared by the three drivers. */
module Hwmon {

  type uint8 = x: int | 0 <= x < 0x100
  type int8 = x: int | -0x80 <= x < 0x80
  type uint16 = x: int | 0 <= x < 0x1_0000
  type uint32 = x: int | 0 <= x < 0x1_0000_0000
  type int32 = x: int | -0x8000_0000 <= x < 0x8000_0000

  /** Linux errno values the drivers return, negated, on failure. */
  const EINVAL: int := 22
  const EOPNOTSUPP: int := 95
  const ENOTSUPP: int := 524   // kernel-internal, not part of the user ABI

  /** Read-only permission bits for all users (octal 0444). */
  const S_IRUGO: int := 0x124

  datatype Option<T> = None | Some(value: T)

  /** What a read callback hands back: its return code, and the value it
      stored through its output argument (None when it left it alone). */
  datatype Reply = Reply(ret: int, out: Option<int>)

  /** The value a bus byte takes once stored in an `int8_t`: two's complement,
      so the byte's top bit is the sign. */
  function AsSigned8(b: uint8): (v: int8)
    ensures v % 0x100 == b
    ensures v < 0 <==> b >= 0x80
  {
    if b < 0x80 then b else b - 0x100
  }

  /** Storing an integer into a `u32`: reduction modulo 2^32. */
  function ToU32(x: int): (v: uint32)
    ensures 0 <= x < 0x1_0000_0000 ==> v == x
    ensures (v - x) % 0x1_0000_0000 == 0
  {
    x % 0x1_0000_0000
  }
}
