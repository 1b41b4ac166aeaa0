/** One BME280 session (class BME280 of source/bme280.cpp): the device path, the handle of the
    opened device file, the last configuration and the calibration coefficients. The operating
    system and the sensor behind the handle are the transport `bus`. */
module Session {
  import opened Errors
  import opened Machine
  import opened Defs
  import opened Control
  import opened Trimming
  import opened Raw
  import opened Compensation
  import opened Reset
  import opened Bus

  /** The three writes of setConfig, in order: CONFIG, then CTRL_HUM, then CTRL (the humidity
      setting takes effect only once CTRL is written). */
  function ConfigWrites(c: Config): (ops: seq<Op>)
    ensures |ops| == 3
  {
    [WriteCall(CONFIG, ConfigRegister(c)), WriteCall(CTRL_HUM, CtrlHumRegister(c)),
     WriteCall(CTRL, CtrlRegister(c))]
  }

  /** The register file after the first n writes of setConfig have succeeded. */
  function ConfigStored(regs: seq<Byte>, c: Config, n: nat): (r: seq<Byte>)
    requires |regs| == 256 && n <= 3
    ensures |r| == 256
    ensures forall i :: 0 <= i < 256 && i != CONFIG && i != CTRL_HUM && i != CTRL ==> r[i] == regs[i]
    ensures n == 3 ==> DecodeControl(r[CONFIG], r[CTRL_HUM], r[CTRL]) == Some(c)
  {
    ControlRoundTrip(c);
    var config: Byte, ctrlHum: Byte, ctrl: Byte := ConfigRegister(c), CtrlHumRegister(c), CtrlRegister(c);
    if n == 0 then regs
    else if n == 1 then regs[CONFIG := config]
    else if n == 2 then regs[CONFIG := config][CTRL_HUM := ctrlHum]
    else regs[CONFIG := config][CTRL_HUM := ctrlHum][CTRL := ctrl]
  }

  /** The STATUS reads of n polls. */
  function StatusReads(n: nat): (ops: seq<Op>)
    ensures |ops| == n && forall i :: 0 <= i < n ==> ops[i] == ReadCall(STATUS)
  {
    seq(n, _ => ReadCall(STATUS))
  }

  /** The scripted status answers left after k reads. */
  function Remaining(script: seq<Byte>, k: nat): seq<Byte> {
    if k < |script| then script[k..] else []
  }

  /** How many STATUS reads a poll made. */
  function PollCount(p: PollResult): nat {
    match p
    case Ready(n) => n
    case BusError(n) => n
    case TimedOut => TIMEOUT_FOR_SOFT_RESET
  }

  /** How many status answers a poll consumed: a failed read consumes none. */
  function PollAnswers(p: PollResult): nat {
    match p
    case Ready(n) => n
    case BusError(n) => if n == 0 then 0 else n - 1
    case TimedOut => TIMEOUT_FOR_SOFT_RESET
  }

  /** What softReset reports for each ending of the poll. */
  function PollOutcome(p: PollResult): Outcome {
    match p
    case Ready(_) => Pass
    case BusError(_) => Fail(IoError)
    case TimedOut => Fail(ResetTimeout)
  }

  /** The 24-byte buffer of calibration() after a block read that reported `count` bytes: the
      registers from 0x88 on, then the zeros of the memset. */
  function TrimmingImage(regs: seq<Byte>, count: nat): (block: seq<Byte>)
    requires |regs| == 256
    ensures |block| == TEMP_PRESS_CALIB_DATA_LEN
    ensures count >= TEMP_PRESS_CALIB_DATA_LEN ==>
      block == regs[TEMP_PRESS_CALIB_DATA_ADDR..TEMP_PRESS_CALIB_DATA_ADDR + TEMP_PRESS_CALIB_DATA_LEN]
  {
    seq(TEMP_PRESS_CALIB_DATA_LEN, i requires 0 <= i < TEMP_PRESS_CALIB_DATA_LEN =>
      if i < count then regs[TEMP_PRESS_CALIB_DATA_ADDR + i] else 0)
  }

  /** A zero-filled buffer into which a block read stored its first count bytes holds the
      trimming image. */
  lemma TrimmingImageOfBlock(regs: seq<Byte>, count: nat, zeros: seq<Byte>, buffer: seq<Byte>)
    requires |regs| == 256 && count <= TEMP_PRESS_CALIB_DATA_LEN
    requires |zeros| == |buffer| == TEMP_PRESS_CALIB_DATA_LEN
    requires forall i :: 0 <= i < |zeros| ==> zeros[i] == 0
    requires buffer[..count] == RegisterBlock(regs, TEMP_PRESS_CALIB_DATA_ADDR, count)
    requires buffer[count..] == zeros[count..]
    ensures buffer == TrimmingImage(regs, count)
  {
    forall i | 0 <= i < TEMP_PRESS_CALIB_DATA_LEN
      ensures buffer[i] == TrimmingImage(regs, count)[i]
    {
      if i < count {
        assert buffer[i] == buffer[..count][i];
      } else {
        assert buffer[i] == buffer[count..][i - count];
      }
    }
  }

  /** The nine reads of the humidity trimming registers, in the order calibration() makes
      them (the operands of each `|` read left to right). */
  function HumidityReads(): (ops: seq<Op>)
    ensures |ops| == 9
  {
    [ReadCall(HUM_CALIB_H1), ReadCall(HUM_CALIB_H2_MSB), ReadCall(HUM_CALIB_H2_LSB),
     ReadCall(HUM_CALIB_H3), ReadCall(HUM_CALIB_H4_MSB), ReadCall(HUM_CALIB_H4_LSB),
     ReadCall(HUM_CALIB_H5_MSB), ReadCall(HUM_CALIB_H5_LSB), ReadCall(HUM_CALIB_H6)]
  }

  /** The calls of a complete calibration() whose reset poll made n STATUS reads: the reset
      write, the poll, the trimming block read from 0x88, then the humidity reads. */
  function CalibrationCalls(n: nat): (ops: seq<Op>)
    ensures |ops| == n + 11
    ensures ops[0] == WriteCall(SOFT_RESET_REG, SOFT_RESET_COMMAND) && ops[1..n + 1] == StatusReads(n)
    ensures ops[n + 1] == BlockReadCall(TEMP_PRESS_CALIB_DATA_ADDR, TEMP_PRESS_CALIB_DATA_LEN)
    ensures ops[n + 2..] == HumidityReads()
  {
    [WriteCall(SOFT_RESET_REG, SOFT_RESET_COMMAND)] + StatusReads(n) +
    [BlockReadCall(TEMP_PRESS_CALIB_DATA_ADDR, TEMP_PRESS_CALIB_DATA_LEN)] + HumidityReads()
  }

  /** The calls made up to the k-th humidity read form a prefix of CalibrationCalls. */
  lemma CalibrationCallsPrefix(n: nat, k: nat)
    requires k <= 9
    ensures CalibrationCalls(n)[..n + 2 + k] ==
      [WriteCall(SOFT_RESET_REG, SOFT_RESET_COMMAND)] + StatusReads(n) +
      [BlockReadCall(TEMP_PRESS_CALIB_DATA_ADDR, TEMP_PRESS_CALIB_DATA_LEN)] + HumidityReads()[..k]
  {
  }

  /** A log holding the first j calls of a calibration() run is a proper extension of the
      log before the run and a prefix of the complete run's log. */
  lemma CalibrationLog(log0: seq<Op>, log: seq<Op>, n: nat, j: nat)
    requires 1 <= j <= n + 11 && log == log0 + CalibrationCalls(n)[..j]
    ensures log0 < log <= log0 + CalibrationCalls(n)
    ensures j == n + 11 ==> log == log0 + CalibrationCalls(n)
  {
    var calls := CalibrationCalls(n);
    assert (log0 + calls)[..|log0| + j] == log;
  }

  /** The humidity reads continue the log of the reset and the trimming block read. */
  lemma CalibrationLogExtends(log0: seq<Op>, n: nat, k: nat)
    requires k <= 9
    ensures (log0 + CalibrationCalls(n)[..n + 2]) + HumidityReads()[..k] == log0 + CalibrationCalls(n)[..n + 2 + k]
  {
    CalibrationCallsPrefix(n, 0);
    CalibrationCallsPrefix(n, k);
  }

  /** The coefficients calibration() leaves: the trimming block as read (`count` bytes of it),
      the humidity registers, and the time of the run. */
  function CalibrationOf(c: Calibration, regs: seq<Byte>, count: nat, now: int): (r: Calibration)
    requires |regs| == 256
    ensures r.updateTime == now
    ensures count >= TEMP_PRESS_CALIB_DATA_LEN ==>
      EncodeTrimming(r) == regs[TEMP_PRESS_CALIB_DATA_ADDR..TEMP_PRESS_CALIB_DATA_ADDR + TEMP_PRESS_CALIB_DATA_LEN]
    ensures HumidityEncodable(r) && EncodeHumidity(r) == HumidityRegisters(regs)
  {
    var block := TrimmingImage(regs, count);
    var trimmed := WithTrimming(c, block);
    TrimmingBytesRoundTrip(c, block);
    StampedHumidity(trimmed, HumidityRegisters(regs), now);
    WithHumidity(trimmed, HumidityRegisters(regs)).(updateTime := now)
  }

  /** Decoding the humidity registers and stamping the time leave the trimming encoding as it
      was, and the humidity registers encode back. */
  lemma StampedHumidity(c: Calibration, h: seq<Byte>, now: int)
    requires |h| == 8
    ensures var r := WithHumidity(c, h).(updateTime := now);
      EncodeTrimming(r) == EncodeTrimming(c) && HumidityEncodable(r) && EncodeHumidity(r) == h
  {
    var humid := WithHumidity(c, h);
    HumidityBytesRoundTrip(c, h);
    assert TrimmingWords(humid.(updateTime := now)) == TrimmingWords(c);
    assert EncodeHumidity(humid.(updateTime := now)) == EncodeHumidity(humid);
  }

  /** Registers outside the trimming block and the humidity trimming registers (the control
      registers among them) do not enter the coefficients. */
  lemma CalibrationFrame(c: Calibration, regs: seq<Byte>, regs': seq<Byte>, count: nat, now: int)
    requires |regs| == |regs'| == 256
    requires forall i :: TEMP_PRESS_CALIB_DATA_ADDR <= i < TEMP_PRESS_CALIB_DATA_ADDR + TEMP_PRESS_CALIB_DATA_LEN ==> regs[i] == regs'[i]
    requires forall i :: HUM_CALIB_H2_LSB <= i <= HUM_CALIB_H6 ==> regs[i] == regs'[i]
    requires regs[HUM_CALIB_H1] == regs'[HUM_CALIB_H1]
    ensures CalibrationOf(c, regs, count, now) == CalibrationOf(c, regs', count, now)
  {
    assert TrimmingImage(regs, count) == TrimmingImage(regs', count);
    assert HumidityRegisters(regs) == HumidityRegisters(regs');
  }

  /** After a block read that reported at most 6 bytes the memset zeros reach P1, so every
      pressure computed with the coefficients fails. */
  lemma {:induction false} ShortTrimmingRead(c: Calibration, regs: seq<Byte>, count: nat, now: int)
    requires |regs| == 256 && count <= 6
    ensures CalibrationOf(c, regs, count, now).P1 == 0
    ensures forall regs': seq<Byte> | |regs'| == 256 :: PressureOf(regs', CalibrationOf(c, regs, count, now)).Err?
  {
    var block := TrimmingImage(regs, count);
    assert block[6] == 0 && block[7] == 0;
  }

  /** The reads of getRawTemperature, MSB first. */
  function TemperatureReads(): (ops: seq<Op>)
    ensures |ops| == 3
  {
    [ReadCall(TEMP_MSB), ReadCall(TEMP_LSB), ReadCall(TEMP_XLSB)]
  }

  /** The reads of getRawPressure, MSB first. */
  function PressureReads(): (ops: seq<Op>)
    ensures |ops| == 3
  {
    [ReadCall(PRESS_MSB), ReadCall(PRESS_LSB), ReadCall(PRESS_XLSB)]
  }

  /** The reads of readRawHumidity, MSB first. */
  function HumidityRawReads(): (ops: seq<Op>)
    ensures |ops| == 2
  {
    [ReadCall(HUM_MSB), ReadCall(HUM_LSB)]
  }

  /** The raw temperature the registers hold. */
  function RawTemperatureOf(regs: seq<Byte>): Result<Int32>
    requires |regs| == 256
  {
    Raw20(regs[TEMP_MSB], regs[TEMP_LSB], regs[TEMP_XLSB])
  }

  /** The raw pressure the registers hold. */
  function RawPressureOf(regs: seq<Byte>): Result<Int32>
    requires |regs| == 256
  {
    Raw20(regs[PRESS_MSB], regs[PRESS_LSB], regs[PRESS_XLSB])
  }

  /** The raw humidity the registers hold. */
  function RawHumidityOf(regs: seq<Byte>): Result<UInt32>
    requires |regs| == 256
  {
    Raw16(regs[HUM_MSB], regs[HUM_LSB])
  }

  /** getFineTemperature over a register file and a set of coefficients. */
  function FineTemperatureOf(regs: seq<Byte>, c: Calibration): (r: Result<Int32>)
    requires |regs| == 256
    ensures r.Err? ==> r.error == NotReady || r.error == Overflow
    ensures r.Err? && r.error == NotReady <==> RawTemperatureOf(regs).Err?
  {
    var raw :- RawTemperatureOf(regs);
    FineTemperature(raw, c)
  }

  /** The integer part of getTemperature, in hundredths of a degree. */
  function TemperatureOf(regs: seq<Byte>, c: Calibration): (r: Result<Int32>)
    requires |regs| == 256
    ensures r.Err? ==> r.error == NotReady || r.error == Overflow
    ensures r.Ok? ==> FineTemperatureOf(regs, c).Ok? &&
                      r.value * 256 - 128 <= FineTemperatureOf(regs, c).value * 5 < r.value * 256 + 128
  {
    var fine :- FineTemperatureOf(regs, c);
    CentiCelsius(fine)
  }

  /** The integer part of getHumidity: humidity in 1/1024 %RH. */
  function HumidityOf(regs: seq<Byte>, c: Calibration): (r: Result<UInt32>)
    requires |regs| == 256
    ensures r.Err? ==> r.error == NotReady || r.error == Overflow
    ensures RawHumidityOf(regs).Err? ==> r == Err(NotReady)
    ensures r.Ok? ==> FineTemperatureOf(regs, c).Ok?
  {
    var raw :- RawHumidityOf(regs);
    var fine :- FineTemperatureOf(regs, c);
    CalcHumidity(raw, fine, c)
  }

  /** getQfePressure: pressure in Pa. */
  function PressureOf(regs: seq<Byte>, c: Calibration): (r: Result<UInt32>)
    requires |regs| == 256
    ensures r.Err? ==> r.error == NotReady || r.error == Overflow || r.error == DivisionByZero
    ensures RawPressureOf(regs).Err? ==> r == Err(NotReady)
    ensures r.Ok? ==> FineTemperatureOf(regs, c).Ok? && c.P1 != 0
  {
    var raw :- RawPressureOf(regs);
    var fine :- FineTemperatureOf(regs, c);
    if c.P1 == 0 then PressureNeedsP1(raw, fine, c); CalcPressure(raw, fine, c)
    else CalcPressure(raw, fine, c)
  }

  /** With the coefficients a session holds before calibration (every one 0) the fine
      temperature of a raw temperature below 741376 is 0, and no pressure is reported. */
  lemma {:induction false} ReadingsWithoutCoefficients(regs: seq<Byte>, c: Calibration)
    requires |regs| == 256
    requires c.T1 == 0 && c.T2 == 0 && c.T3 == 0
    requires c.P1 == 0 && c.P3 == 0 && c.P4 == 0 && c.P5 == 0 && c.P6 == 0
    requires RawTemperatureOf(regs).Ok? && RawTemperatureOf(regs).value < 0xB_5000
    ensures FineTemperatureOf(regs, c) == Ok(0)
    ensures RawPressureOf(regs).Ok? ==> PressureOf(regs, c) == Err(DivisionByZero)
  {
    TemperatureWithoutCoefficients(RawTemperatureOf(regs).value, c);
    if RawPressureOf(regs).Ok? {
      PressureWithoutCoefficients(RawPressureOf(regs).value, 0, c);
    }
  }

  lemma UncalibratedReadings(regs: seq<Byte>)
    requires |regs| == 256
    requires RawTemperatureOf(regs).Ok? && RawTemperatureOf(regs).value < 0xB_5000
    ensures FineTemperatureOf(regs, UNCALIBRATED) == Ok(0)
    ensures RawPressureOf(regs).Ok? ==> PressureOf(regs, UNCALIBRATED) == Err(DivisionByZero)
  {
    ReadingsWithoutCoefficients(regs, UNCALIBRATED);
  }

  /** How many reads getHumidity makes: the temperature is read only once the raw humidity
      is ready. */
  function HumidityReadCount(regs: seq<Byte>): nat
    requires |regs| == 256
  {
    if RawHumidityOf(regs).Ok? then 5 else 2
  }

  /** How many reads getQfePressure makes. */
  function PressureReadCount(regs: seq<Byte>): nat
    requires |regs| == 256
  {
    if RawPressureOf(regs).Ok? then 6 else 3
  }

  /** WithHumidity is the two halves of the humidity reads of calibration(). */
  lemma HumidityAssignments(c: Calibration, regs: seq<Byte>, high: Calibration)
    requires |regs| == 256
    requires
      var h4 := Word(regs[HUM_CALIB_H4_LSB], regs[HUM_CALIB_H4_MSB]);
      var h5 := Word(regs[HUM_CALIB_H5_LSB], regs[HUM_CALIB_H5_MSB]);
      high == c.(
        H1 := regs[HUM_CALIB_H1], H2 := SignedWord(regs[HUM_CALIB_H2_LSB], regs[HUM_CALIB_H2_MSB]),
        H3 := regs[HUM_CALIB_H3], H4 := (h4 % 0x100) * 0x10 + (h4 / 0x100) % 0x10, H5 := h5 / 0x10,
        H6 := SignedByte(regs[HUM_CALIB_H6]))
    ensures high == WithHumidity(c, HumidityRegisters(regs))
  {
  }

  /** A log that extends an extension of `log0` extends `log0`. */
  lemma LogExtends(log0: seq<Op>, log1: seq<Op>, log: seq<Op>)
    requires log0 < log1 <= log
    ensures log0 < log
  {
    assert log[..|log0|] == log1[..|log0|];
  }

  /** A log that extends one made of `log0` and the opening call starts with that call. */
  lemma StartsWithOpen(log0: seq<Op>, first: seq<Op>, log: seq<Op>)
    requires log0 + [OpenCall] <= first <= log
    ensures |log0| < |log| && log[..|log0|] == log0 && log[|log0|] == OpenCall
  {
    assert first[..|log0| + 1] == log0 + [OpenCall];
  }

  class Bme280 {
    /** The device path, the key of the session table. */
    const device: string
    /** The device file behind the path. */
    const bus: I2cBus
    /** `_address`: indeterminate in C++ until instance() sets it; 0 here. */
    var address: UInt16
    /** `_i2c`: the handle, CLOSE when closed. */
    var handle: int
    /** `_config`: indeterminate in C++ until setConfig() assigns it. */
    var config: Option<Config>
    /** `_calibration`. */
    var calibration: Calibration

    predicate Valid() {
      bus.Valid()
    }

    /** `BME280(device)`: closed, uncalibrated. */
    constructor (device: string, bus: I2cBus)
      requires bus.Valid()
      ensures Valid() && this.device == device && this.bus == bus
      ensures address == 0 && handle == CLOSE && config == None && calibration == UNCALIBRATED
      ensures !Opened() && !WasCalibration()
    {
      this.device := device;
      this.bus := bus;
      address := 0;
      handle := CLOSE;
      config := None;
      calibration := UNCALIBRATED;
    }

    /** `opened()`. */
    predicate Opened()
      reads this
    {
      handle > CLOSE
    }

    /** `wasCalibration()`. */
    predicate WasCalibration()
      reads this
    {
      WasCalibrated(calibration)
    }

    /** `writedByteData`: one SMBus byte-data write through the handle. */
    method WriteByteData(register: Byte, value: Byte) returns (outcome: Outcome)
      requires Valid()
      modifies bus, bus.regs
      ensures bus.log == old(bus.log) + [WriteCall(register, value)]
      ensures outcome == if bus.Fails(handle, |old(bus.log)|) then Fail(IoError) else Pass
      ensures bus.regs[..] == if outcome.Pass? then old(bus.regs[..])[register := value] else old(bus.regs[..])
      ensures bus.script == old(bus.script)
    {
      var ok := bus.Write(handle, register, value);
      outcome := if ok then Pass else Fail(IoError);
    }

    /** `readByteData`: one SMBus byte-data read through the handle. */
    method ReadByteData(register: Byte) returns (r: Result<Byte>)
      requires Valid()
      modifies bus
      ensures bus.log == old(bus.log) + [ReadCall(register)]
      ensures r.Err? <==> bus.Fails(handle, |old(bus.log)|)
      ensures r.Err? ==> r.error == IoError && bus.script == old(bus.script)
      ensures r.Ok? && register == STATUS && old(bus.script) != [] ==>
        r.value == old(bus.script)[0] && bus.script == old(bus.script)[1..]
      ensures r.Ok? && register == STATUS && old(bus.script) == [] ==>
        r.value == bus.regs[STATUS] && bus.script == []
      ensures r.Ok? && register != STATUS ==> r.value == bus.regs[register] && bus.script == old(bus.script)
    {
      var value, ok := bus.Read(handle, register);
      r := if ok then Ok(value) else Err(IoError);
    }

    /** `open`: opens the device file, then binds the slave address. When the bind fails the
        handle stays open. */
    method Open() returns (outcome: Outcome)
      requires Valid()
      modifies this, bus
      ensures handle == if |old(bus.log)| in bus.faults then -1 else bus.fd
      ensures Opened() <==> |old(bus.log)| !in bus.faults
      ensures !Opened() ==> bus.log == old(bus.log) + [OpenCall] && outcome == Fail(IoError)
      ensures Opened() ==> bus.log == old(bus.log) + [OpenCall, BindCall(address)]
      ensures Opened() ==> outcome == if |old(bus.log)| + 1 in bus.faults then Fail(IoError) else Pass
      ensures address == old(address) && config == old(config) && calibration == old(calibration)
      ensures bus.script == old(bus.script)
    {
      handle := bus.OpenFile();
      if handle < 0 {
        return Fail(IoError);
      }
      var ok := bus.Bind(handle, address);
      outcome := if ok then Pass else Fail(IoError);
    }

    /** `check`: the chip-id register must hold 0x60. */
    method Check() returns (outcome: Outcome)
      requires Valid()
      modifies bus
      ensures bus.log == old(bus.log) + [ReadCall(CHIP_ID_REG)]
      ensures outcome == if bus.Fails(handle, |old(bus.log)|) then Fail(IoError)
                         else if bus.regs[CHIP_ID_REG] != CHIP_ID then Fail(UnexpectedDevice)
                         else Pass
      ensures bus.script == old(bus.script)
    {
      var id := ReadByteData(CHIP_ID_REG);
      if id.Err? {
        return Fail(IoError);
      }
      outcome := if id.value != CHIP_ID then Fail(UnexpectedDevice) else Pass;
    }

    /** `close`: nothing when closed; on an OS failure the handle stays open. */
    method Close() returns (outcome: Outcome)
      requires Valid()
      modifies this, bus
      ensures !old(Opened()) ==> outcome == Pass && handle == old(handle) && bus.log == old(bus.log)
      ensures old(Opened()) ==> bus.log == old(bus.log) + [CloseCall]
      ensures old(Opened()) ==> outcome == if |old(bus.log)| in bus.faults then Fail(IoError) else Pass
      ensures old(Opened()) ==> handle == if outcome.Pass? then CLOSE else old(handle)
      ensures address == old(address) && config == old(config) && calibration == old(calibration)
      ensures bus.script == old(bus.script)
    {
      outcome := Pass;
      if Opened() {
        var ok := bus.CloseFile(handle);
        if !ok {
          return Fail(IoError);
        }
        handle := CLOSE;
      }
    }

    /** `setConfig`: stores the configuration, then writes CONFIG, CTRL_HUM and CTRL, stopping
        at the first failed write. Once all three succeed the control registers read back as
        the configuration. */
    method SetConfig(c: Config) returns (outcome: Outcome)
      requires Valid()
      modifies this, bus, bus.regs
      ensures config == Some(c)
      ensures bus.log == old(bus.log) + ConfigWrites(c)[..bus.Attempted(handle, |old(bus.log)|, 3)]
      ensures outcome.Pass? <==> bus.Succeeding(handle, |old(bus.log)|, 3) == 3
      ensures outcome.Fail? ==> outcome.error == IoError
      ensures bus.regs[..] == ConfigStored(old(bus.regs[..]), c, bus.Succeeding(handle, |old(bus.log)|, 3))
      ensures outcome.Pass? ==> DecodeControl(bus.regs[CONFIG], bus.regs[CTRL_HUM], bus.regs[CTRL]) == Some(c)
      ensures handle == old(handle) && address == old(address) && calibration == old(calibration)
      ensures bus.script == old(bus.script)
    {
      config := Some(c);
      ghost var at := |bus.log|;
      ghost var log0 := bus.log;
      ghost var regs0 := bus.regs[..];
      ghost var writes := ConfigWrites(c);
      outcome := WriteByteData(CONFIG, ConfigRegister(c));
      if outcome.Fail? {
        assert bus.Succeeding(handle, at, 3) == 0;
        assert bus.log == log0 + writes[..1];
        return;
      }
      outcome := WriteByteData(CTRL_HUM, CtrlHumRegister(c));
      if outcome.Fail? {
        assert bus.Succeeding(handle, at + 1, 2) == 0;
        assert bus.log == log0 + writes[..2];
        return;
      }
      outcome := WriteByteData(CTRL, CtrlRegister(c));
      if outcome.Fail? {
        assert bus.Succeeding(handle, at + 2, 1) == 0;
        assert bus.log == log0 + writes[..3];
        return;
      }
      assert bus.Succeeding(handle, at + 2, 1) == 1;
      assert bus.log == log0 + writes[..3];
    }

    /** `softReset`: writes the reset command, then polls STATUS until it reads 0, giving up
        after TIMEOUT_FOR_SOFT_RESET reads; the poll is the function Poll of the status
        answers. */
    method SoftReset() returns (outcome: Outcome)
      requires Valid()
      modifies bus, bus.regs
      ensures bus.Fails(handle, |old(bus.log)|) ==>
        outcome == Fail(IoError) && bus.log == old(bus.log) + [WriteCall(SOFT_RESET_REG, SOFT_RESET_COMMAND)] &&
        bus.regs[..] == old(bus.regs[..]) && bus.script == old(bus.script)
      ensures !bus.Fails(handle, |old(bus.log)|) ==>
        var p := Poll(old(bus.script), old(bus.regs[STATUS]), bus.faults, |old(bus.log)| + 1, 0);
        outcome == PollOutcome(p) &&
        bus.log == old(bus.log) + [WriteCall(SOFT_RESET_REG, SOFT_RESET_COMMAND)] + StatusReads(PollCount(p)) &&
        bus.regs[..] == old(bus.regs[..])[SOFT_RESET_REG := SOFT_RESET_COMMAND] &&
        bus.script == Remaining(old(bus.script), PollAnswers(p))
    {
      outcome := WriteByteData(SOFT_RESET_REG, SOFT_RESET_COMMAND);
      if outcome.Fail? {
        return;
      }
      ghost var log0 := bus.log;
      ghost var at := |log0|;
      ghost var script0 := bus.script;
      ghost var regs1 := bus.regs[..];
      ghost var idle := bus.regs[STATUS];
      var timeout: nat := TIMEOUT_FOR_SOFT_RESET;
      while true
        invariant 0 < timeout <= TIMEOUT_FOR_SOFT_RESET
        invariant bus.log == log0 + StatusReads(TIMEOUT_FOR_SOFT_RESET - timeout)
        invariant bus.script == Remaining(script0, TIMEOUT_FOR_SOFT_RESET - timeout)
        invariant bus.regs[..] == regs1
        invariant Poll(script0, idle, bus.faults, at, 0) == Poll(script0, idle, bus.faults, at, TIMEOUT_FOR_SOFT_RESET - timeout)
        decreases timeout
      {
        ghost var k := TIMEOUT_FOR_SOFT_RESET - timeout;
        var status := ReadByteData(STATUS);
        assert bus.log == log0 + StatusReads(k + 1);
        if status.Err? {
          return Fail(IoError);
        }
        assert status.value == StatusAnswer(script0, idle, k);
        if status.value == STATUS_OK {
          return Pass;
        }
        timeout := timeout - 1;
        if timeout == 0 {
          return Fail(ResetTimeout);
        }
      }
    }

    /** `readBlockData`: asks for `length` bytes (truncated to the 8-bit count field), fails
        when the reported count exceeds `length`, and otherwise copies exactly that many bytes
        to the front of `values`, leaving the rest untouched. */
    method ReadBlockData(register: Byte, values: array<Byte>, length: nat) returns (count: nat, outcome: Outcome)
      requires Valid() && length <= values.Length && values != bus.regs
      modifies bus, values
      ensures bus.log == old(bus.log) + [BlockReadCall(register, length % 256)]
      ensures bus.script == old(bus.script)
      ensures bus.Fails(handle, |old(bus.log)|) ==> outcome == Fail(IoError) && values[..] == old(values[..])
      ensures !bus.Fails(handle, |old(bus.log)|) ==>
        count == bus.Reply(length % 256) && (outcome.Pass? <==> count <= length)
      ensures outcome == Fail(OutOfRange) ==> values[..] == old(values[..])
      ensures outcome.Fail? ==> outcome.error == IoError || outcome.error == OutOfRange
      ensures outcome.Pass? ==>
        count <= length && values[..count] == RegisterBlock(bus.regs[..], register, count) &&
        values[count..] == old(values[count..])
    {
      var data, ok := bus.ReadBlock(handle, register, length % 256);
      if !ok {
        return 0, Fail(IoError);
      }
      count := |data|;
      if length < count {
        return count, Fail(OutOfRange);
      }
      for i := 0 to count
        modifies values
        invariant values[..i] == data[..i]
        invariant values[i..] == old(values[i..])
      {
        values[i] := data[i];
      }
      outcome := Pass;
    }

    /** The humidity half of calibration(), first part: H1, H2 and H3, each assigned as soon
        as its registers are read, stopping at the first failed read. */
    method ReadHumidityTrimmingLow() returns (outcome: Outcome)
      requires Valid()
      modifies this, bus
      ensures outcome.Pass? <==> forall i :: |old(bus.log)| <= i < |old(bus.log)| + 4 ==> !bus.Fails(handle, i)
      ensures outcome.Pass? ==> bus.log == old(bus.log) + HumidityReads()[..4]
      ensures |old(bus.log)| < |bus.log| <= |old(bus.log)| + 4
      ensures bus.log == old(bus.log) + HumidityReads()[..|bus.log| - |old(bus.log)|]
      ensures outcome.Fail? ==> outcome == Fail(IoError)
      ensures outcome.Pass? ==>
        calibration == old(calibration).(H1 := bus.regs[HUM_CALIB_H1],
                                         H2 := SignedWord(bus.regs[HUM_CALIB_H2_LSB], bus.regs[HUM_CALIB_H2_MSB]),
                                         H3 := bus.regs[HUM_CALIB_H3])
      ensures calibration.(H1 := old(calibration).H1, H2 := old(calibration).H2, H3 := old(calibration).H3)
              == old(calibration)
      ensures handle == old(handle) && address == old(address) && config == old(config)
      ensures bus.script == old(bus.script)
    {
      var h1 := ReadByteData(HUM_CALIB_H1);
      assert bus.log == old(bus.log) + HumidityReads()[..1];
      if h1.Err? {
        return Fail(IoError);
      }
      calibration := calibration.(H1 := h1.value);
      var h2msb := ReadByteData(HUM_CALIB_H2_MSB);
      assert bus.log == old(bus.log) + HumidityReads()[..2];
      if h2msb.Err? {
        return Fail(IoError);
      }
      var h2lsb := ReadByteData(HUM_CALIB_H2_LSB);
      assert bus.log == old(bus.log) + HumidityReads()[..3];
      if h2lsb.Err? {
        return Fail(IoError);
      }
      calibration := calibration.(H2 := SignedWord(h2lsb.value, h2msb.value));
      var h3 := ReadByteData(HUM_CALIB_H3);
      assert bus.log == old(bus.log) + HumidityReads()[..4];
      if h3.Err? {
        return Fail(IoError);
      }
      calibration := calibration.(H3 := h3.value);
      outcome := Pass;
    }

    /** The humidity half of calibration(), second part: H4 and H5 from the four reads of
        0xE5, 0xE4, 0xE6 and 0xE5 (the nibbles of 0xE5 are shared), then H6. */
    method ReadHumidityTrimmingHigh() returns (outcome: Outcome)
      requires Valid()
      modifies this, bus
      ensures outcome.Pass? <==> forall i :: |old(bus.log)| <= i < |old(bus.log)| + 5 ==> !bus.Fails(handle, i)
      ensures outcome.Pass? ==> bus.log == old(bus.log) + HumidityReads()[4..]
      ensures |old(bus.log)| < |bus.log| <= |old(bus.log)| + 5
      ensures bus.log == old(bus.log) + HumidityReads()[4..4 + |bus.log| - |old(bus.log)|]
      ensures outcome.Fail? ==> outcome == Fail(IoError)
      ensures outcome.Pass? ==>
        var h4 := Word(bus.regs[HUM_CALIB_H4_LSB], bus.regs[HUM_CALIB_H4_MSB]);
        var h5 := Word(bus.regs[HUM_CALIB_H5_LSB], bus.regs[HUM_CALIB_H5_MSB]);
        calibration == old(calibration).(H4 := (h4 % 0x100) * 0x10 + (h4 / 0x100) % 0x10,
                                         H5 := h5 / 0x10,
                                         H6 := SignedByte(bus.regs[HUM_CALIB_H6]))
      ensures calibration.(H4 := old(calibration).H4, H5 := old(calibration).H5, H6 := old(calibration).H6)
              == old(calibration)
      ensures handle == old(handle) && address == old(address) && config == old(config)
      ensures bus.script == old(bus.script)
    {
      var h4msb := ReadByteData(HUM_CALIB_H4_MSB);
      assert bus.log == old(bus.log) + HumidityReads()[4..5];
      if h4msb.Err? {
        return Fail(IoError);
      }
      var h4lsb := ReadByteData(HUM_CALIB_H4_LSB);
      assert bus.log == old(bus.log) + HumidityReads()[4..6];
      if h4lsb.Err? {
        return Fail(IoError);
      }
      var h4 := Word(h4lsb.value, h4msb.value);
      var h5msb := ReadByteData(HUM_CALIB_H5_MSB);
      assert bus.log == old(bus.log) + HumidityReads()[4..7];
      if h5msb.Err? {
        return Fail(IoError);
      }
      var h5lsb := ReadByteData(HUM_CALIB_H5_LSB);
      assert bus.log == old(bus.log) + HumidityReads()[4..8];
      if h5lsb.Err? {
        return Fail(IoError);
      }
      var h5 := Word(h5lsb.value, h5msb.value);
      calibration := calibration.(H4 := (h4 % 0x100) * 0x10 + (h4 / 0x100) % 0x10, H5 := h5 / 0x10);
      var h6 := ReadByteData(HUM_CALIB_H6);
      assert bus.log == old(bus.log) + HumidityReads()[4..9];
      if h6.Err? {
        return Fail(IoError);
      }
      calibration := calibration.(H6 := SignedByte(h6.value));
      outcome := Pass;
    }

    /** `getRawTemperature`: three reads, then the reset check. */
    method ReadRawTemperature() returns (r: Result<Int32>)
      requires Valid()
      modifies bus
      ensures bus.log == old(bus.log) + TemperatureReads()[..bus.Attempted(handle, |old(bus.log)|, 3)]
      ensures r == if bus.Succeeding(handle, |old(bus.log)|, 3) < 3 then Err(IoError) else RawTemperatureOf(bus.regs[..])
      ensures bus.script == old(bus.script)
    {
      ghost var at := |bus.log|;
      ghost var expected := TemperatureReads();
      var msb := ReadByteData(TEMP_MSB);
      if msb.Err? {
        assert bus.Succeeding(handle, at, 3) == 0;
        assert expected[..1] == [ReadCall(TEMP_MSB)];
        return Err(IoError);
      }
      var lsb := ReadByteData(TEMP_LSB);
      if lsb.Err? {
        assert bus.Succeeding(handle, at + 1, 2) == 0;
        assert expected[..2] == [ReadCall(TEMP_MSB), ReadCall(TEMP_LSB)];
        return Err(IoError);
      }
      var xlsb := ReadByteData(TEMP_XLSB);
      if xlsb.Err? {
        assert bus.Succeeding(handle, at + 2, 1) == 0;
        return Err(IoError);
      }
      assert bus.Succeeding(handle, at + 2, 1) == 1;
      r := Raw20(msb.value, lsb.value, xlsb.value);
    }

    /** `getRawPressure`: three reads, then the reset check. */
    method ReadRawPressure() returns (r: Result<Int32>)
      requires Valid()
      modifies bus
      ensures bus.log == old(bus.log) + PressureReads()[..bus.Attempted(handle, |old(bus.log)|, 3)]
      ensures r == if bus.Succeeding(handle, |old(bus.log)|, 3) < 3 then Err(IoError) else RawPressureOf(bus.regs[..])
      ensures bus.script == old(bus.script)
    {
      ghost var at := |bus.log|;
      ghost var expected := PressureReads();
      var msb := ReadByteData(PRESS_MSB);
      if msb.Err? {
        assert bus.Succeeding(handle, at, 3) == 0;
        assert expected[..1] == [ReadCall(PRESS_MSB)];
        return Err(IoError);
      }
      var lsb := ReadByteData(PRESS_LSB);
      if lsb.Err? {
        assert bus.Succeeding(handle, at + 1, 2) == 0;
        assert expected[..2] == [ReadCall(PRESS_MSB), ReadCall(PRESS_LSB)];
        return Err(IoError);
      }
      var xlsb := ReadByteData(PRESS_XLSB);
      if xlsb.Err? {
        assert bus.Succeeding(handle, at + 2, 1) == 0;
        return Err(IoError);
      }
      assert bus.Succeeding(handle, at + 2, 1) == 1;
      r := Raw20(msb.value, lsb.value, xlsb.value);
    }

    /** `readRawHumidity`: two reads, then the reset check. */
    method ReadRawHumidity() returns (r: Result<UInt32>)
      requires Valid()
      modifies bus
      ensures bus.log == old(bus.log) + HumidityRawReads()[..bus.Attempted(handle, |old(bus.log)|, 2)]
      ensures r == if bus.Succeeding(handle, |old(bus.log)|, 2) < 2 then Err(IoError) else RawHumidityOf(bus.regs[..])
      ensures bus.script == old(bus.script)
    {
      ghost var at := |bus.log|;
      var msb := ReadByteData(HUM_MSB);
      if msb.Err? {
        assert bus.Succeeding(handle, at, 2) == 0;
        assert HumidityRawReads()[..1] == [ReadCall(HUM_MSB)];
        return Err(IoError);
      }
      var lsb := ReadByteData(HUM_LSB);
      if lsb.Err? {
        assert bus.Succeeding(handle, at + 1, 1) == 0;
        return Err(IoError);
      }
      assert bus.Succeeding(handle, at + 1, 1) == 1;
      r := Raw16(msb.value, lsb.value);
    }

    /** `getFineTemperature`: the raw temperature compensated with the stored coefficients. */
    method ReadFineTemperature() returns (r: Result<Int32>)
      requires Valid()
      modifies bus
      ensures bus.log == old(bus.log) + TemperatureReads()[..bus.Attempted(handle, |old(bus.log)|, 3)]
      ensures r == if bus.Succeeding(handle, |old(bus.log)|, 3) < 3 then Err(IoError)
                   else FineTemperatureOf(bus.regs[..], calibration)
      ensures bus.script == old(bus.script)
    {
      var raw :- ReadRawTemperature();
      r := FineTemperature(raw, calibration);
    }

    /** The integer part of `getTemperature`: hundredths of a degree Celsius. */
    method ReadTemperature() returns (r: Result<Int32>)
      requires Valid()
      modifies bus
      ensures bus.log == old(bus.log) + TemperatureReads()[..bus.Attempted(handle, |old(bus.log)|, 3)]
      ensures r == if bus.Succeeding(handle, |old(bus.log)|, 3) < 3 then Err(IoError)
                   else TemperatureOf(bus.regs[..], calibration)
      ensures bus.script == old(bus.script)
    {
      var fine :- ReadFineTemperature();
      r := CentiCelsius(fine);
    }

    /** The integer part of `getHumidity`: the raw humidity, then (once it is ready) the fine
        temperature that calcHumidity reads for itself. */
    method ReadHumidity() returns (r: Result<UInt32>)
      requires Valid()
      modifies bus
      ensures var n := HumidityReadCount(bus.regs[..]);
        bus.log == old(bus.log) + (HumidityRawReads() + TemperatureReads())[..bus.Attempted(handle, |old(bus.log)|, n)]
      ensures r == if bus.Succeeding(handle, |old(bus.log)|, HumidityReadCount(bus.regs[..])) < HumidityReadCount(bus.regs[..])
                   then Err(IoError) else HumidityOf(bus.regs[..], calibration)
      ensures bus.script == old(bus.script)
    {
      ghost var at := |bus.log|;
      ghost var log0 := bus.log;
      bus.SucceedingSplit(handle, at, 2, 3);
      bus.SucceedingSplit(handle, at, 2, 0);
      var raw :- ReadRawHumidity();
      assert (HumidityRawReads() + TemperatureReads())[..2] == HumidityRawReads();
      var fine :- ReadFineTemperature();
      assert bus.log == log0 + HumidityRawReads() + TemperatureReads()[..bus.Attempted(handle, at + 2, 3)];
      r := CalcHumidity(raw, fine, calibration);
    }

    /** `getQfePressure`: the raw pressure, then (once it is ready) the fine temperature that
        calcPressure reads for itself. */
    method ReadPressure() returns (r: Result<UInt32>)
      requires Valid()
      modifies bus
      ensures var n := PressureReadCount(bus.regs[..]);
        bus.log == old(bus.log) + (PressureReads() + TemperatureReads())[..bus.Attempted(handle, |old(bus.log)|, n)]
      ensures r == if bus.Succeeding(handle, |old(bus.log)|, PressureReadCount(bus.regs[..])) < PressureReadCount(bus.regs[..])
                   then Err(IoError) else PressureOf(bus.regs[..], calibration)
      ensures bus.script == old(bus.script)
    {
      ghost var at := |bus.log|;
      ghost var log0 := bus.log;
      bus.SucceedingSplit(handle, at, 3, 3);
      bus.SucceedingSplit(handle, at, 3, 0);
      var raw :- ReadRawPressure();
      assert (PressureReads() + TemperatureReads())[..3] == PressureReads();
      var fine :- ReadFineTemperature();
      assert bus.log == log0 + PressureReads() + TemperatureReads()[..bus.Attempted(handle, at + 3, 3)];
      r := CalcPressure(raw, fine, calibration);
    }

    /** The buffer of the temperature and pressure half of calibration(): 24 zeroed bytes
        filled by readBlockData from 0x88. */
    method ReadTrimmingBlock() returns (block: seq<Byte>, outcome: Outcome)
      requires Valid()
      modifies bus
      ensures outcome.Pass? <==> !bus.Fails(handle, |old(bus.log)|) && bus.Reply(TEMP_PRESS_CALIB_DATA_LEN) <= TEMP_PRESS_CALIB_DATA_LEN
      ensures outcome.Pass? ==> block == TrimmingImage(bus.regs[..], bus.Reply(TEMP_PRESS_CALIB_DATA_LEN))
      ensures outcome.Fail? ==> outcome.error == IoError || outcome.error == OutOfRange
      ensures bus.log == old(bus.log) + [BlockReadCall(TEMP_PRESS_CALIB_DATA_ADDR, TEMP_PRESS_CALIB_DATA_LEN)]
      ensures bus.script == old(bus.script)
    {
      var buffer := new Byte[TEMP_PRESS_CALIB_DATA_LEN](_ => 0);
      ghost var zeros := buffer[..];
      var count;
      count, outcome := ReadBlockData(TEMP_PRESS_CALIB_DATA_ADDR, buffer, TEMP_PRESS_CALIB_DATA_LEN);
      block := buffer[..];
      if outcome.Pass? {
        TrimmingImageOfBlock(bus.regs[..], count, zeros, block);
      }
    }

    /** The temperature and pressure half of calibration(): the block decoded into T1..P9. */
    method ReadTrimming() returns (outcome: Outcome)
      requires Valid()
      modifies this, bus
      ensures outcome.Pass? <==> !bus.Fails(handle, |old(bus.log)|) && bus.Reply(TEMP_PRESS_CALIB_DATA_LEN) <= TEMP_PRESS_CALIB_DATA_LEN
      ensures outcome.Pass? ==>
        calibration == WithTrimming(old(calibration), TrimmingImage(bus.regs[..], bus.Reply(TEMP_PRESS_CALIB_DATA_LEN)))
      ensures outcome.Fail? ==> calibration == old(calibration)
      ensures outcome.Fail? ==> outcome.error == IoError || outcome.error == OutOfRange
      ensures bus.log == old(bus.log) + [BlockReadCall(TEMP_PRESS_CALIB_DATA_ADDR, TEMP_PRESS_CALIB_DATA_LEN)]
      ensures handle == old(handle) && address == old(address) && config == old(config)
      ensures bus.script == old(bus.script)
    {
      var block;
      block, outcome := ReadTrimmingBlock();
      if outcome.Pass? {
        calibration := WithTrimming(calibration, block);
      }
    }

    /** The first half of calibration(): the soft reset, then the trimming block. The calls
        made are a prefix of CalibrationCalls that ends with the block read on success. */
    method ResetAndReadTrimming() returns (outcome: Outcome)
      requires Valid()
      modifies this, bus, bus.regs
      ensures var p := Poll(old(bus.script), old(bus.regs[STATUS]), bus.faults, |old(bus.log)| + 1, 0);
              var j := |bus.log| - |old(bus.log)|;
              1 <= j <= PollCount(p) + 2 && bus.log == old(bus.log) + CalibrationCalls(PollCount(p))[..j] &&
              (outcome.Pass? ==> j == PollCount(p) + 2 && bus.script == Remaining(old(bus.script), PollAnswers(p)))
      ensures outcome.Pass? ==>
        calibration == WithTrimming(old(calibration), TrimmingImage(bus.regs[..], bus.Reply(TEMP_PRESS_CALIB_DATA_LEN))) &&
        bus.Reply(TEMP_PRESS_CALIB_DATA_LEN) <= TEMP_PRESS_CALIB_DATA_LEN
      ensures outcome.Pass? ==> bus.regs[..] == old(bus.regs[..])[SOFT_RESET_REG := SOFT_RESET_COMMAND]
      ensures outcome.Fail? ==> calibration == old(calibration)
      ensures outcome.Fail? ==> outcome.error == IoError || outcome.error == ResetTimeout || outcome.error == OutOfRange
      ensures handle == old(handle) && address == old(address) && config == old(config)
    {
      ghost var log0 := bus.log;
      ghost var n := PollCount(Poll(bus.script, bus.regs[STATUS], bus.faults, |bus.log| + 1, 0));
      ghost var calls := CalibrationCalls(n);
      outcome := SoftReset();
      if outcome.Fail? {
        assert bus.log == log0 + calls[..|bus.log| - |log0|];
        return;
      }
      assert bus.log == log0 + calls[..n + 1];
      outcome := ReadTrimming();
      CalibrationCallsPrefix(n, 0);
      assert bus.log == log0 + calls[..n + 2];
    }

    /** The humidity half of calibration(): the nine reads of H1..H6, stopping at the first
        failed read. */
    method ReadHumidityTrimming() returns (outcome: Outcome)
      requires Valid()
      modifies this, bus
      ensures var j := |bus.log| - |old(bus.log)|;
              1 <= j <= 9 && bus.log == old(bus.log) + HumidityReads()[..j] && (outcome.Pass? ==> j == 9)
      ensures outcome.Fail? ==> outcome == Fail(IoError) && calibration.updateTime == old(calibration.updateTime)
      ensures outcome.Pass? ==> calibration == WithHumidity(old(calibration), HumidityRegisters(bus.regs[..]))
      ensures handle == old(handle) && address == old(address) && config == old(config)
      ensures bus.script == old(bus.script)
    {
      outcome := ReadHumidityTrimmingLow();
      if outcome.Fail? {
        return;
      }
      ghost var log1 := bus.log;
      outcome := ReadHumidityTrimmingHigh();
      ghost var k := 4 + |bus.log| - |log1|;
      assert HumidityReads()[..k] == HumidityReads()[..4] + HumidityReads()[4..k];
      if outcome.Pass? {
        HumidityAssignments(old(calibration), bus.regs[..], calibration);
      }
    }

    /** `calibration`: soft reset, the trimming block, the humidity registers, then the
        timestamp `now` (std::time, supplied by the caller). Only a complete run sets
        updateTime. */
    method Calibration(now: int) returns (outcome: Outcome)
      requires Valid() && now > 0
      modifies this, bus, bus.regs
      ensures outcome.Pass? ==>
        calibration == CalibrationOf(old(calibration), bus.regs[..], bus.Reply(TEMP_PRESS_CALIB_DATA_LEN), now)
      ensures outcome.Pass? ==> WasCalibration() && bus.Reply(TEMP_PRESS_CALIB_DATA_LEN) <= TEMP_PRESS_CALIB_DATA_LEN
      ensures outcome.Pass? ==> bus.regs[..] == old(bus.regs[..])[SOFT_RESET_REG := SOFT_RESET_COMMAND]
      ensures outcome.Fail? ==> calibration.updateTime == old(calibration.updateTime)
      ensures outcome.Fail? ==> outcome.error == IoError || outcome.error == ResetTimeout || outcome.error == OutOfRange
      ensures var p := Poll(old(bus.script), old(bus.regs[STATUS]), bus.faults, |old(bus.log)| + 1, 0);
              outcome.Pass? ==>
                bus.log == old(bus.log) + CalibrationCalls(PollCount(p)) &&
                bus.script == Remaining(old(bus.script), PollAnswers(p))
      ensures var p := Poll(old(bus.script), old(bus.regs[STATUS]), bus.faults, |old(bus.log)| + 1, 0);
              old(bus.log) < bus.log <= old(bus.log) + CalibrationCalls(PollCount(p))
      ensures handle == old(handle) && address == old(address) && config == old(config)
    {
      ghost var log0 := bus.log;
      ghost var n := PollCount(Poll(bus.script, bus.regs[STATUS], bus.faults, |bus.log| + 1, 0));
      outcome := ResetAndReadTrimming();
      ghost var j := |bus.log| - |log0|;
      if outcome.Pass? {
        ghost var log2 := bus.log;
        outcome := ReadHumidityTrimming();
        ghost var k := |bus.log| - |log2|;
        CalibrationLogExtends(log0, n, k);
        j := n + 2 + k;
        if outcome.Pass? {
          calibration := calibration.(updateTime := now);
        }
      }
      CalibrationLog(log0, bus.log, n, j);
    }

    /** Lines 38-40 of instance() on a freshly opened session: check, calibration and
        setConfig, stopping at the first failure. None of them touches the handle. */
    method CheckCalibrateConfigure(c: Config, now: int) returns (outcome: Outcome)
      requires Valid() && now > 0
      modifies this, bus, bus.regs
      ensures outcome.Pass? ==> WasCalibration() && config == Some(c)
      ensures outcome.Pass? ==> DecodeControl(bus.regs[CONFIG], bus.regs[CTRL_HUM], bus.regs[CTRL]) == Some(c)
      ensures outcome.Pass? ==>
        calibration == CalibrationOf(old(calibration), bus.regs[..], bus.Reply(TEMP_PRESS_CALIB_DATA_LEN), now)
      ensures outcome.Pass? ==> bus.regs[CHIP_ID_REG] == CHIP_ID
      ensures outcome.Fail? ==> outcome.error in {IoError, UnexpectedDevice, ResetTimeout, OutOfRange}
      ensures config == old(config) || config == Some(c)
      ensures handle == old(handle) && address == old(address)
      ensures old(bus.log) < bus.log
    {
      ghost var log0 := bus.log;
      outcome := Check();
      ghost var checked := bus.log;
      if outcome.Pass? {
        outcome := Calibration(now);
        ghost var calibrated := bus.log;
        if outcome.Pass? {
          ghost var regs := bus.regs[..];
          ghost var count := bus.Reply(TEMP_PRESS_CALIB_DATA_LEN);
          outcome := SetConfig(c);
          if outcome.Pass? {
            CalibrationFrame(old(calibration), regs, bus.regs[..], count, now);
          }
          LogExtends(checked, calibrated, bus.log);
        }
        LogExtends(log0, checked, bus.log);
      }
    }

    /** The start-up sequence of instance() for a session that is not opened: open, then the
        rest of the sequence once the open has succeeded. A failure after the open leaves the
        handle open. */
    method Start(c: Config, now: int) returns (outcome: Outcome)
      requires Valid() && now > 0
      modifies this, bus, bus.regs
      ensures outcome.Pass? ==> Opened() && WasCalibration() && config == Some(c)
      ensures outcome.Pass? ==> DecodeControl(bus.regs[CONFIG], bus.regs[CTRL_HUM], bus.regs[CTRL]) == Some(c)
      ensures outcome.Pass? ==>
        calibration == CalibrationOf(old(calibration), bus.regs[..], bus.Reply(TEMP_PRESS_CALIB_DATA_LEN), now)
      ensures outcome.Pass? ==> bus.regs[CHIP_ID_REG] == CHIP_ID
      ensures outcome.Fail? ==> outcome.error in {IoError, UnexpectedDevice, ResetTimeout, OutOfRange}
      ensures config == old(config) || config == Some(c)
      ensures address == old(address)
      ensures handle == if |old(bus.log)| in bus.faults then CLOSE else bus.fd
      ensures Opened() <==> |old(bus.log)| !in bus.faults
      ensures |old(bus.log)| in bus.faults ==> outcome == Fail(IoError) && bus.log == old(bus.log) + [OpenCall]
      ensures |old(bus.log)| < |bus.log| && bus.log[..|old(bus.log)|] == old(bus.log) && bus.log[|old(bus.log)|] == OpenCall
    {
      ghost var log0 := bus.log;
      outcome := Open();
      ghost var first := bus.log;
      if outcome.Pass? {
        outcome := CheckCalibrateConfigure(c, now);
      }
      StartsWithOpen(log0, first, bus.log);
    }
  }
}
