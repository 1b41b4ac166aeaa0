/** The declarations of include/bme280.h: the enumerations and their register codes,
    the configuration and calibration records, the register map and the protocol
    constants. */
module Defs {
  import opened Errors
  import opened Machine

  /** Power mode, bits 1-0 of the ctrl_meas register. */
  datatype Mode = Sleep | Forced | Normal {
    function Code(): (c: nat)
      ensures c < 4
    {
      match this
      case Sleep => 0
      case Forced => 1
      case Normal => 3
    }
  }

  /** IIR filter coefficient, bits 4-2 of the config register. */
  datatype Filter = FilterOff | Filter2 | Filter4 | Filter8 | Filter16 {
    function Code(): (c: nat)
      ensures c < 8
    {
      match this
      case FilterOff => 0
      case Filter2 => 1
      case Filter4 => 2
      case Filter8 => 3
      case Filter16 => 4
    }
  }

  /** Oversampling of one channel: skipped, x1, x2, x4, x8 or x16. */
  datatype Oversampling = Skipped | UltraLowPower | LowPower | Standard | HighRes | UltraHighRes {
    function Code(): (c: nat)
      ensures c < 8
    {
      match this
      case Skipped => 0
      case UltraLowPower => 1
      case LowPower => 2
      case Standard => 3
      case HighRes => 4
      case UltraHighRes => 5
    }
  }

  /** Inactive time between two measurements in normal mode, bits 7-5 of the config register. */
  datatype StandbyTime = Standby0_5ms | Standby62_5ms | Standby125ms | Standby250ms
                       | Standby500ms | Standby1000ms | Standby2000ms | Standby4000ms {
    function Code(): (c: nat)
      ensures c < 8
    {
      match this
      case Standby0_5ms => 0
      case Standby62_5ms => 1
      case Standby125ms => 2
      case Standby250ms => 3
      case Standby500ms => 4
      case Standby1000ms => 5
      case Standby2000ms => 6
      case Standby4000ms => 7
    }
  }

  function ModeOf(code: int): (m: Option<Mode>)
    ensures m.Some? ==> m.value.Code() == code
    ensures m.None? <==> code !in {0, 1, 3}
  {
    if code == 0 then Some(Sleep)
    else if code == 1 then Some(Forced)
    else if code == 3 then Some(Normal)
    else None
  }

  function FilterOf(code: int): (f: Option<Filter>)
    ensures f.Some? ==> f.value.Code() == code
    ensures f.None? <==> !(0 <= code <= 4)
  {
    if code == 0 then Some(FilterOff)
    else if code == 1 then Some(Filter2)
    else if code == 2 then Some(Filter4)
    else if code == 3 then Some(Filter8)
    else if code == 4 then Some(Filter16)
    else None
  }

  function OversamplingOf(code: int): (o: Option<Oversampling>)
    ensures o.Some? ==> o.value.Code() == code
    ensures o.None? <==> !(0 <= code <= 5)
  {
    if code == 0 then Some(Skipped)
    else if code == 1 then Some(UltraLowPower)
    else if code == 2 then Some(LowPower)
    else if code == 3 then Some(Standard)
    else if code == 4 then Some(HighRes)
    else if code == 5 then Some(UltraHighRes)
    else None
  }

  function StandbyTimeOf(code: int): (t: Option<StandbyTime>)
    ensures t.Some? ==> t.value.Code() == code
    ensures t.None? <==> !(0 <= code <= 7)
  {
    if code == 0 then Some(Standby0_5ms)
    else if code == 1 then Some(Standby62_5ms)
    else if code == 2 then Some(Standby125ms)
    else if code == 3 then Some(Standby250ms)
    else if code == 4 then Some(Standby500ms)
    else if code == 5 then Some(Standby1000ms)
    else if code == 6 then Some(Standby2000ms)
    else if code == 7 then Some(Standby4000ms)
    else None
  }

  /** Every enumerator is recovered from its code. */
  lemma CodesAreInjective(m: Mode, f: Filter, o: Oversampling, t: StandbyTime)
    ensures ModeOf(m.Code()) == Some(m)
    ensures FilterOf(f.Code()) == Some(f)
    ensures OversamplingOf(o.Code()) == Some(o)
    ensures StandbyTimeOf(t.Code()) == Some(t)
  {
  }

  /** Fields in declaration order, which is also the order of DEFAULT_CONFIGURATION's initialiser. */
  datatype Config = Config(
    mode: Mode,
    filter: Filter,
    oversamplingPressure: Oversampling,
    oversamplingTemperature: Oversampling,
    oversamplingHumidity: Oversampling,
    standby: StandbyTime)

  const DEFAULT_CONFIGURATION: Config :=
    Config(Normal, FilterOff, Standard, Standard, Standard, Standby500ms)

  /** Trimming coefficients as declared, each with its C++ width, and the time of the last read. */
  datatype Calibration = Calibration(
    T1: UInt16, T2: Int16, T3: Int16,
    P1: UInt16, P2: Int16, P3: Int16, P4: Int16, P5: Int16,
    P6: Int16, P7: Int16, P8: Int16, P9: Int16,
    H1: Byte, H2: Int16, H3: Byte, H4: Int16, H5: Int16, H6: Int8,
    updateTime: int)

  /** The record as the default member initialisers leave it. */
  const UNCALIBRATED: Calibration :=
    Calibration(0, 0, 0, 0, 0, 0, 0, 0, 0, 0, 0, 0, 0, 0, 0, 0, 0, 0, 0)

  /** wasCalibration(): a calibration has completed once updateTime is set. */
  predicate WasCalibrated(c: Calibration) {
    c.updateTime != 0
  }

  // Register map
  const TEMP_PRESS_CALIB_DATA_ADDR: Byte := 0x88
  const CHIP_ID_REG: Byte := 0xD0
  const HUM_LSB: Byte := 0xFE
  const HUM_MSB: Byte := 0xFD
  const TEMP_XLSB: Byte := 0xFC
  const TEMP_LSB: Byte := 0xFB
  const TEMP_MSB: Byte := 0xFA
  const PRESS_XLSB: Byte := 0xF9
  const PRESS_LSB: Byte := 0xF8
  const PRESS_MSB: Byte := 0xF7
  const CONFIG: Byte := 0xF5
  const CTRL: Byte := 0xF4
  const STATUS: Byte := 0xF3
  const CTRL_HUM: Byte := 0xF2
  const HUM_CALIB_H1: Byte := 0xA1
  const HUM_CALIB_H2_LSB: Byte := 0xE1
  const HUM_CALIB_H2_MSB: Byte := 0xE2
  const HUM_CALIB_H3: Byte := 0xE3
  const HUM_CALIB_H4_MSB: Byte := 0xE5
  const HUM_CALIB_H4_LSB: Byte := 0xE4
  const HUM_CALIB_H5_MSB: Byte := 0xE6
  const HUM_CALIB_H5_LSB: Byte := 0xE5
  const HUM_CALIB_H6: Byte := 0xE7
  const SOFT_RESET_REG: Byte := 0xE0

  // Protocol constants
  const TIMEOUT_FOR_SOFT_RESET: nat := 1000
  const TEMP_PRESS_CALIB_DATA_LEN: nat := 24
  const CLOSE: int := -1
  const CHIP_ID: Byte := 0x60
  const SOFT_RESET_COMMAND: Byte := 0xB6
  const STATUS_OK: Byte := 0

  /** The layout facts the driver relies on: the temperature/pressure trimming block is
      0x88..0x9F, the measurement registers are contiguous and MSB first, and the
      humidity trimming registers do not overlap that block or the control registers. */
  lemma RegisterLayout()
    ensures TEMP_PRESS_CALIB_DATA_ADDR + TEMP_PRESS_CALIB_DATA_LEN - 1 == 0x9F
    ensures PRESS_LSB == PRESS_MSB + 1 && PRESS_XLSB == PRESS_MSB + 2
    ensures TEMP_MSB == PRESS_XLSB + 1 && TEMP_LSB == TEMP_MSB + 1 && TEMP_XLSB == TEMP_MSB + 2
    ensures HUM_MSB == TEMP_XLSB + 1 && HUM_LSB == HUM_MSB + 1
    ensures HUM_CALIB_H4_MSB == HUM_CALIB_H5_LSB
    ensures HUM_CALIB_H4_LSB + 1 == HUM_CALIB_H4_MSB && HUM_CALIB_H5_LSB + 1 == HUM_CALIB_H5_MSB
    ensures HUM_CALIB_H1 > TEMP_PRESS_CALIB_DATA_ADDR + TEMP_PRESS_CALIB_DATA_LEN - 1
    ensures SOFT_RESET_REG < HUM_CALIB_H2_LSB && HUM_CALIB_H6 < CTRL_HUM
  {
  }
}
