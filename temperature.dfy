/** The temperature encoding both EMC drivers use: a signed byte of whole
    degrees Celsius and a byte whose top three bits count eighths of a degree. */
module Temperature {
  import opened Hwmon

  /** Lowest and highest readings the encoding can express, in m°C. */
  const MinMilliC: int := -128000
  const MaxMilliC: int := 127875

  /** Millidegrees from a whole-degree byte and a fraction byte. Each eighth is
      worth 125 m°C and is added whatever the sign of the whole degrees, so the
      reading is the floor-decomposition `deg + frac/8` scaled by 1000. */
  function TempMilliC(deg: int8, frac: uint8): (m: int)
    ensures MinMilliC <= m <= MaxMilliC
    ensures m % 125 == 0
    ensures m / 1000 == deg
    ensures (m % 1000) / 125 == frac / 32
  {
    deg * 1000 + (frac / 32) * 125
  }

  /** The readings the encoding can express: multiples of 125 m°C in range. */
  predicate Representable(m: int) {
    MinMilliC <= m <= MaxMilliC && m % 125 == 0
  }

  /** The byte pair a chip reports for reading m, with the five unused low
      bits of the fraction byte clear. */
  function EncodeTemp(m: int): (p: (int8, uint8))
    requires Representable(m)
    ensures p.1 % 32 == 0
  {
    (m / 1000, ((m % 1000) / 125) * 32)
  }

  /** Decoding inverts encoding on every representable reading. */
  lemma DecodeEncode(m: int)
    requires Representable(m)
    ensures TempMilliC(EncodeTemp(m).0, EncodeTemp(m).1) == m
  {
  }

  /** Encoding a decoded pair gives the pair back, up to the five low fraction
      bits the decoder ignores. */
  lemma EncodeDecode(deg: int8, frac: uint8)
    ensures EncodeTemp(TempMilliC(deg, frac)) == (deg, frac - frac % 32)
  {
  }

  /** Two byte pairs decode alike exactly when their whole degrees and their
      top three fraction bits agree. */
  lemma TempInjective(d1: int8, f1: uint8, d2: int8, f2: uint8)
    ensures TempMilliC(d1, f1) == TempMilliC(d2, f2) <==> d1 == d2 && f1 / 32 == f2 / 32
  {
  }

  /** The fraction adds even below zero: -1 °C with seven eighths reads as
      -0.125 °C, and with one eighth as -0.875 °C. */
  lemma NegativeFractionAdds()
    ensures TempMilliC(-1, 0xE0) == -125
    ensures TempMilliC(-1, 0x20) == -875
  {
  }
}
