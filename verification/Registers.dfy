/** The three control registers of the BME280 and the bit fields packed into them
    (BME280 datasheet, sections 5.4.3, 5.4.5 and 5.4.6).  Registers are bytes, so `bv8`. */
module Registers {

  const RST_REG: int := 0xE0
  const CTRL_HUM_REG: int := 0xF2
  const CTRL_MEAS_REG: int := 0xF4
  const CONFIG_REG: int := 0xF5
  const DATA_REG: int := 0xF7
  const CHIP_ID_REG: int := 0xD0

  const SOFT_RESET_CODE: bv8 := 0xB6

  const SLEEP_MODE: bv8 := 0
  const FORCED_MODE: bv8 := 1
  const NORMAL_MODE: bv8 := 3

  datatype Field = OsrsT | OsrsP | Mode | OsrsH | Tsb | Filter | Spi3

  /** The register a field lives in. */
  function Home(f: Field): int {
    match f
    case OsrsT | OsrsP | Mode => CTRL_MEAS_REG
    case OsrsH => CTRL_HUM_REG
    case Tsb | Filter | Spi3 => CONFIG_REG
  }

  function Mask(f: Field): bv8 {
    match f
    case OsrsT => 0xE0
    case OsrsP => 0x1C
    case Mode => 0x03
    case OsrsH => 0x07
    case Tsb => 0xE0
    case Filter => 0x1C
    case Spi3 => 0x01
  }

  function ShiftUp(f: Field, v: bv8): bv8 {
    match f
    case OsrsT | Tsb => v << 5
    case OsrsP | Filter => v << 2
    case Mode | OsrsH | Spi3 => v
  }

  function ShiftDown(f: Field, v: bv8): bv8 {
    match f
    case OsrsT | Tsb => v >> 5
    case OsrsP | Filter => v >> 2
    case Mode | OsrsH | Spi3 => v
  }

  /** What a field can hold of a byte: the bits that fit its width. */
  function Truncate(f: Field, v: bv8): bv8 {
    match f
    case OsrsT | OsrsP | OsrsH | Tsb | Filter => v & 0x07
    case Mode => v & 0x03
    case Spi3 => v & 0x01
  }

  function GetSlice(f: Field, r: bv8): bv8 {
    ShiftDown(f, r & Mask(f))
  }

  function SetSlice(f: Field, r: bv8, v: bv8): bv8 {
    (r & !Mask(f)) | (ShiftUp(f, v) & Mask(f))
  }

  /** The bits of a register that belong to no field. */
  function Reserved(reg: int, r: bv8): bv8 {
    if reg == CTRL_HUM_REG then r & 0xF8
    else if reg == CONFIG_REG then r & 0x02
    else 0
  }

  lemma ReachedOsrsT(r: bv8, v: bv8)
    ensures GetSlice(OsrsT, SetSlice(OsrsT, r, v)) == Truncate(OsrsT, v)
  {}

  lemma KeptOsrsT(r: bv8, v: bv8)
    ensures GetSlice(OsrsP, SetSlice(OsrsT, r, v)) == GetSlice(OsrsP, r)
    ensures GetSlice(Mode, SetSlice(OsrsT, r, v)) == GetSlice(Mode, r)
  {}

  lemma ReachedOsrsP(r: bv8, v: bv8)
    ensures GetSlice(OsrsP, SetSlice(OsrsP, r, v)) == Truncate(OsrsP, v)
  {}

  lemma KeptOsrsP(r: bv8, v: bv8)
    ensures GetSlice(OsrsT, SetSlice(OsrsP, r, v)) == GetSlice(OsrsT, r)
    ensures GetSlice(Mode, SetSlice(OsrsP, r, v)) == GetSlice(Mode, r)
  {}

  lemma ReachedMode(r: bv8, v: bv8)
    ensures GetSlice(Mode, SetSlice(Mode, r, v)) == Truncate(Mode, v)
  {}

  lemma KeptMode(r: bv8, v: bv8)
    ensures GetSlice(OsrsT, SetSlice(Mode, r, v)) == GetSlice(OsrsT, r)
    ensures GetSlice(OsrsP, SetSlice(Mode, r, v)) == GetSlice(OsrsP, r)
  {}

  lemma ReachedTsb(r: bv8, v: bv8)
    ensures GetSlice(Tsb, SetSlice(Tsb, r, v)) == Truncate(Tsb, v)
  {}

  lemma KeptTsb(r: bv8, v: bv8)
    ensures GetSlice(Filter, SetSlice(Tsb, r, v)) == GetSlice(Filter, r)
    ensures GetSlice(Spi3, SetSlice(Tsb, r, v)) == GetSlice(Spi3, r)
    ensures Reserved(CONFIG_REG, SetSlice(Tsb, r, v)) == Reserved(CONFIG_REG, r)
  {}

  lemma ReachedFilter(r: bv8, v: bv8)
    ensures GetSlice(Filter, SetSlice(Filter, r, v)) == Truncate(Filter, v)
  {}

  lemma KeptFilter(r: bv8, v: bv8)
    ensures GetSlice(Tsb, SetSlice(Filter, r, v)) == GetSlice(Tsb, r)
    ensures GetSlice(Spi3, SetSlice(Filter, r, v)) == GetSlice(Spi3, r)
    ensures Reserved(CONFIG_REG, SetSlice(Filter, r, v)) == Reserved(CONFIG_REG, r)
  {}

  lemma ReachedSpi3(r: bv8, v: bv8)
    ensures GetSlice(Spi3, SetSlice(Spi3, r, v)) == Truncate(Spi3, v)
  {}

  lemma KeptSpi3(r: bv8, v: bv8)
    ensures GetSlice(Tsb, SetSlice(Spi3, r, v)) == GetSlice(Tsb, r)
    ensures GetSlice(Filter, SetSlice(Spi3, r, v)) == GetSlice(Filter, r)
    ensures Reserved(CONFIG_REG, SetSlice(Spi3, r, v)) == Reserved(CONFIG_REG, r)
  {}

  lemma IsolatedOsrsH(r: bv8, v: bv8)
    ensures GetSlice(OsrsH, SetSlice(OsrsH, r, v)) == Truncate(OsrsH, v)
    ensures Reserved(CTRL_HUM_REG, SetSlice(OsrsH, r, v)) == Reserved(CTRL_HUM_REG, r)
  {}

  /** Writing one field changes that field, to the truncated value, and no other bit. */
  lemma SetSliceIsolated(f: Field, g: Field, r: bv8, v: bv8)
    requires Home(g) == Home(f)
    ensures GetSlice(g, SetSlice(f, r, v)) == if g == f then Truncate(f, v) else GetSlice(g, r)
    ensures Reserved(Home(f), SetSlice(f, r, v)) == Reserved(Home(f), r)
  {
    hide GetSlice, SetSlice, Truncate;
    match f
    case OsrsT => ReachedOsrsT(r, v); KeptOsrsT(r, v);
    case OsrsP => ReachedOsrsP(r, v); KeptOsrsP(r, v);
    case Mode => ReachedMode(r, v); KeptMode(r, v);
    case OsrsH => IsolatedOsrsH(r, v);
    case Tsb => ReachedTsb(r, v); KeptTsb(r, v);
    case Filter => ReachedFilter(r, v); KeptFilter(r, v);
    case Spi3 => ReachedSpi3(r, v); KeptSpi3(r, v);
  }

  /** A register is the sum of its fields and its reserved bits: two bytes that agree
      on all of those are the same byte. */
  lemma FieldsDetermineRegister(reg: int, r: bv8, r': bv8)
    requires reg in {CTRL_HUM_REG, CTRL_MEAS_REG, CONFIG_REG}
    requires forall f: Field :: Home(f) == reg ==> GetSlice(f, r) == GetSlice(f, r')
    requires Reserved(reg, r) == Reserved(reg, r')
    ensures r == r'
  {
    if reg == CTRL_MEAS_REG {
      assert GetSlice(OsrsT, r) == GetSlice(OsrsT, r');
      assert GetSlice(OsrsP, r) == GetSlice(OsrsP, r');
      assert GetSlice(Mode, r) == GetSlice(Mode, r');
    } else if reg == CTRL_HUM_REG {
      assert GetSlice(OsrsH, r) == GetSlice(OsrsH, r');
    } else {
      assert GetSlice(Tsb, r) == GetSlice(Tsb, r');
      assert GetSlice(Filter, r) == GetSlice(Filter, r');
      assert GetSlice(Spi3, r) == GetSlice(Spi3, r');
    }
  }

  /** The mode bits of ctrl_meas. */
  function ModeOf(meas: bv8): bv8 { meas & 0x03 }

  /** ctrl_meas with the mode bits cleared. */
  function Slept(meas: bv8): bv8 { meas & 0xFC }

  /** The humidity oversampling in ctrl_hum. */
  function LatchOf(hum: bv8): bv8 { hum & 0x07 }

  lemma SlicesSpelledOut(r: bv8)
    ensures ModeOf(r) == GetSlice(Mode, r) && Slept(r) == SetSlice(Mode, r, SLEEP_MODE)
            && LatchOf(r) == GetSlice(OsrsH, r)
  {}

  /** The layout of the three registers, as numbers (BME280 datasheet, sections 5.4.3, 5.4.5 and 5.4.6). */
  lemma RegistersSpelledOut(r: bv8)
    ensures Home(OsrsH) == 0xF2 && Home(OsrsT) == Home(OsrsP) == Home(Mode) == 0xF4
    ensures Home(Tsb) == Home(Filter) == Home(Spi3) == 0xF5
    ensures var t, p, m := GetSlice(OsrsT, r) as int, GetSlice(OsrsP, r) as int, GetSlice(Mode, r) as int;
            r as int == 32 * t + 4 * p + m && t <= 7 && p <= 7 && m <= 3
    ensures var t, f, spare, e := GetSlice(Tsb, r) as int, GetSlice(Filter, r) as int,
                                  Reserved(CONFIG_REG, r) as int, GetSlice(Spi3, r) as int;
            r as int == 32 * t + 4 * f + spare + e && t <= 7 && f <= 7 && (spare == 0 || spare == 2) && e <= 1
    ensures var h, spare := GetSlice(OsrsH, r) as int, Reserved(CTRL_HUM_REG, r) as int;
            r as int == spare + h && h <= 7 && spare % 8 == 0
  {
    CtrlMeasSpelledOut(r);
    ConfigSpelledOut(r);
    CtrlHumSpelledOut(r);
    hide GetSlice, Reserved;
  }

  lemma CtrlMeasSpelledOut(r: bv8)
    ensures var t, p, m := GetSlice(OsrsT, r) as int, GetSlice(OsrsP, r) as int, GetSlice(Mode, r) as int;
            r as int == 32 * t + 4 * p + m && t <= 7 && p <= 7 && m <= 3
  {}

  lemma ConfigSpelledOut(r: bv8)
    ensures var t, f, spare, e := GetSlice(Tsb, r) as int, GetSlice(Filter, r) as int,
                                  Reserved(CONFIG_REG, r) as int, GetSlice(Spi3, r) as int;
            r as int == 32 * t + 4 * f + spare + e && t <= 7 && f <= 7 && (spare == 0 || spare == 2) && e <= 1
  {}

  lemma CtrlHumSpelledOut(r: bv8)
    ensures var h, spare := GetSlice(OsrsH, r) as int, Reserved(CTRL_HUM_REG, r) as int;
            r as int == spare + h && h <= 7 && spare % 8 == 0
  {}
}
