/** The register values setConfig writes (source/bme280.cpp:68-75): the three control
    registers of the BME280, packed from a Config with shifts and bitwise or. */
module Control {
  import opened Errors
  import opened Machine
  import opened Defs

  /** `(hi << 5) | (mid << 2) | lo` on a byte. The fields never overlap (OrIsSum), so the
      or is a sum, and each field is recovered from the byte. */
  function Pack(hi: nat, mid: nat, lo: nat): (r: Byte)
    requires hi < 8 && mid < 8 && lo < 4
    ensures r / 32 == hi && (r / 4) % 8 == mid && r % 4 == lo
  {
    FieldsOfSum(hi, mid, lo);
    hi * 32 + mid * 4 + lo
  }

  /** On bytes, or-ing fields of bits 7-5, 4-2 and 1-0 is adding them. */
  lemma OrIsSum(hi: bv8, mid: bv8, lo: bv8)
    requires hi < 8 && mid < 8 && lo < 4
    ensures (hi << 5) | (mid << 2) | lo == (hi << 5) + (mid << 2) + lo
    ensures (hi << 5) + (mid << 2) + lo == hi * 32 + mid * 4 + lo
  {
  }

  lemma FieldsOfSum(hi: nat, mid: nat, lo: nat)
    requires hi < 8 && mid < 8 && lo < 4
    ensures var r := hi * 32 + mid * 4 + lo;
            r / 32 == hi && (r / 4) % 8 == mid && r % 4 == lo
  {
    var r := hi * 32 + mid * 4 + lo;
    assert r / 4 == hi * 8 + mid;
  }

  /** config (0xF5): t_sb in bits 7-5, filter in bits 4-2, spi3w_en (bit 0) left at 0. */
  function ConfigRegister(c: Config): (b: Byte)
    ensures b / 32 == c.standby.Code() && (b / 4) % 8 == c.filter.Code() && b % 4 == 0
  {
    Pack(c.standby.Code(), c.filter.Code(), 0)
  }

  /** ctrl_hum (0xF2): osrs_h in bits 2-0. */
  function CtrlHumRegister(c: Config): (b: Byte)
    ensures b < 8 && OversamplingOf(b) == Some(c.oversamplingHumidity)
  {
    c.oversamplingHumidity.Code()
  }

  /** ctrl_meas (0xF4): osrs_t in bits 7-5, osrs_p in bits 4-2, mode in bits 1-0. */
  function CtrlRegister(c: Config): (b: Byte)
    ensures b / 32 == c.oversamplingTemperature.Code()
    ensures (b / 4) % 8 == c.oversamplingPressure.Code()
    ensures b % 4 == c.mode.Code()
  {
    Pack(c.oversamplingTemperature.Code(), c.oversamplingPressure.Code(), c.mode.Code())
  }

  /** Reads a configuration back from the three register values; None when a field holds
      a code that is not an enumerator or a bit the driver never sets is 1. */
  function DecodeControl(config: Byte, ctrlHum: Byte, ctrl: Byte): (r: Option<Config>)
  {
    var standby := StandbyTimeOf(config / 32);
    var filter := FilterOf((config / 4) % 8);
    var osrsH := OversamplingOf(ctrlHum);
    var osrsT := OversamplingOf(ctrl / 32);
    var osrsP := OversamplingOf((ctrl / 4) % 8);
    var mode := ModeOf(ctrl % 4);
    if config % 4 == 0 && standby.Some? && filter.Some? && osrsH.Some?
       && osrsT.Some? && osrsP.Some? && mode.Some?
    then Some(Config(mode.value, filter.value, osrsP.value, osrsT.value, osrsH.value, standby.value))
    else None
  }

  /** Every field of a configuration can be recovered from the bytes setConfig writes. */
  lemma ControlRoundTrip(c: Config)
    ensures DecodeControl(ConfigRegister(c), CtrlHumRegister(c), CtrlRegister(c)) == Some(c)
  {
    CodesAreInjective(c.mode, c.filter, c.oversamplingPressure, c.standby);
    CodesAreInjective(c.mode, c.filter, c.oversamplingTemperature, c.standby);
    CodesAreInjective(c.mode, c.filter, c.oversamplingHumidity, c.standby);
  }

  /** Conversely, register bytes that decode to a configuration are exactly the bytes
      setConfig would write for it. */
  lemma ControlDecodeEncode(config: Byte, ctrlHum: Byte, ctrl: Byte)
    requires DecodeControl(config, ctrlHum, ctrl).Some?
    ensures var c := DecodeControl(config, ctrlHum, ctrl).value;
            ConfigRegister(c) == config && CtrlHumRegister(c) == ctrlHum && CtrlRegister(c) == ctrl
  {
    var c := DecodeControl(config, ctrlHum, ctrl).value;
    assert config == (config / 32) * 32 + ((config / 4) % 8) * 4 + config % 4;
    assert ctrl == (ctrl / 32) * 32 + ((ctrl / 4) % 8) * 4 + ctrl % 4;
  }

  /** The default configuration writes 0x80 to config, 0x03 to ctrl_hum and 0x6F to ctrl_meas. */
  lemma DefaultRegisters()
    ensures ConfigRegister(DEFAULT_CONFIGURATION) == 0x80
    ensures CtrlHumRegister(DEFAULT_CONFIGURATION) == 0x03
    ensures CtrlRegister(DEFAULT_CONFIGURATION) == 0x6F
  {
  }
}
