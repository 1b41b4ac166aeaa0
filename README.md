# BME280 driver model

A Dafny model of the Linux user-space driver for the Bosch BME280 humidity, temperature and
pressure sensor (class `BME280`, `source/bme280.cpp` and `include/bme280.h`). The model covers:

- the register-level protocol: the configuration writes, the soft reset with its bounded
  status poll, the block read of the trimming data, the chip-id check and open/close;
- decoding of the trimming (calibration) registers into the `Calibration` record, with the
  encoding that inverts it;
- assembly of the raw measurements and the check for the power-on-reset value;
- the integer compensation formulas for temperature, pressure and humidity, with C++ integer
  semantics written out;
- the session table of `instance()` and the destructor.

Modules, one per file:

- `Errors`: the error kinds and the `Result`/`Outcome` wrappers.
- `Machine`: fixed-width C++ arithmetic. Signed `>>` is floor division, `/` truncates, and
  signed left shifts follow C++20. A signed overflow, undefined in C++, yields
  `Err(Overflow)`; a division by zero yields `Err(DivisionByZero)`.
- `Defs`: the declarations of `bme280.h`.
- `Control`: the control register bytes.
- `Trimming`: calibration decoding.
- `Raw`: raw value assembly.
- `Compensation`: the formulas.
- `Reset`: the soft-reset poll as a function of the status answers.
- `Bus`: a transport class standing in for the device file and the SMBus `ioctl`s. It holds
  a 256-byte register file, a call log, scripted status answers, and the log indices of the
  calls that fail.
- `Session`: class `Bme280`.
- `Registry`: the `_interfaces` table.

The reading methods of `Bme280` are specified by functions of the register file and the
coefficients (`FineTemperatureOf`, `TemperatureOf`, `HumidityOf`, `PressureOf`). Each method
returns its function's value unless one of the transfers it makes fails.

Where the code and the design notes of the driver disagree, the model follows the code:

- H4 and H5 are decoded without 12-bit sign extension (`source/bme280.cpp:120-121`), although
  the header comment calls them 12-bit signed. Neither can hold a negative value.
- Nothing stops a reading on a closed or uncalibrated session. On a closed session every
  transfer fails on the bad handle (`IoError`). On an uncalibrated session the formulas run
  with zero coefficients: for a raw temperature below 741376 the fine temperature is 0 and
  pressure then divides by zero (`UncalibratedReadings`).
- `calcPressure` has no guard against a zero `var1`, and `calcHumidity` has no clamp. Both
  are modelled as written.

## Model

| member | source | states |
|---|---|---|
| Machine.Asr | source/bme280.cpp:174-175 | signed `>>`: the result r satisfies r·2^k ≤ x < (r+1)·2^k (floor), keeps the sign of x and does not grow its magnitude |
| Machine.TDiv | source/bme280.cpp:242 | C++ `/`: \|q\| = \|a\| div \|b\| and q is positive iff the operands have the same sign (truncation towards zero) |
| Machine.TDivOfNonNegative | source/bme280.cpp:247 | truncating and floor division agree for a non-negative dividend |
| Machine.TDivIsNotFloor | source/bme280.cpp:242 | they differ for negative dividends: -1 / 256 is 0 in C++ and -1 under floor division (an illustration) |
| Machine.Shl32 | source/bme280.cpp:174 | int32 `<<`: congruent to x·2^k modulo 2^32, and equal to it when that fits |
| Machine.Shl64 | source/bme280.cpp:236-239 | int64 `<<`: congruent to x·2^k modulo 2^64, and equal to it when that fits |
| Machine.ToUInt32 | source/bme280.cpp:207 | conversion to uint32: congruent modulo 2^32, identity on [0, 2^32) |
| Machine.ToInt32 | source/bme280.cpp:207-208 | conversion to int32: congruent modulo 2^32, identity on int32 values |
| Machine.ToInt64 | source/bme280.cpp:234 | conversion to int64: congruent modulo 2^64, identity on int64 values |
| Machine.I32 | source/bme280.cpp:174-176 | a signed int32 result is Ok exactly when it fits; otherwise Err(Overflow) |
| Machine.I64 | source/bme280.cpp:235-246 | a signed int64 result is Ok exactly when it fits; otherwise Err(Overflow) |
| Machine.Div64 | source/bme280.cpp:242 | int64 `/`: Err(DivisionByZero) for a zero divisor, otherwise the truncated quotient |
| Defs.ModeOf | include/bme280.h:9-13 | decodes the mode codes 0, 1, 3 and nothing else; the code of the decoded mode is the input |
| Defs.FilterOf | include/bme280.h:15-21 | decodes exactly the filter codes 0..4 |
| Defs.OversamplingOf | include/bme280.h:24-31 | decodes exactly the oversampling codes 0..5 |
| Defs.StandbyTimeOf | include/bme280.h:34-43 | decodes exactly the standby codes 0..7 |
| Defs.CodesAreInjective | include/bme280.h:9-43 | every enumerator is recovered from its code |
| Defs.RegisterLayout | include/bme280.h:121-151 | the trimming block spans 0x88..0x9F; the pressure, temperature and humidity registers are contiguous and MSB first; H4 and H5 share 0xE5; the humidity trimming registers lie outside the block |
| Control.Pack | source/bme280.cpp:71-73 | each of the three fields is recovered from the packed byte |
| Control.OrIsSum | source/bme280.cpp:71-73 | on bytes, the shifted-or of three non-overlapping fields is their weighted sum |
| Control.ConfigRegister | source/bme280.cpp:71 | CONFIG holds standby in bits 7-5, filter in bits 4-2 and 0 in bits 1-0 |
| Control.CtrlHumRegister | source/bme280.cpp:72 | CTRL_HUM is below 8 and decodes back to the humidity oversampling |
| Control.CtrlRegister | source/bme280.cpp:73 | CTRL holds osrs_t in bits 7-5, osrs_p in bits 4-2 and the mode in bits 1-0 |
| Control.ControlRoundTrip | source/bme280.cpp:68-73 | every field of a configuration is recovered from the three bytes written |
| Control.ControlDecodeEncode | source/bme280.cpp:68-73 | bytes that decode to a configuration are exactly the bytes written for it |
| Control.DefaultRegisters | include/bme280.h:56-63 | DEFAULT_CONFIGURATION writes 0x80, 0x03 and 0x6F |
| Trimming.Word | source/bme280.cpp:99 | the unsigned word has the high byte as its quotient by 256 and the low byte as remainder |
| Trimming.SignedWord | source/bme280.cpp:100 | the int16 cast is congruent to the word modulo 2^16, and negative iff the high byte is at least 0x80 |
| Trimming.SignedByte | source/bme280.cpp:122 | the int8 cast is congruent modulo 256, and negative iff the byte is at least 0x80 |
| Trimming.WithTrimming | source/bme280.cpp:98-112 | T1 and P1 are the unsigned words at bytes (0,1) and (6,7); nothing else changes |
| Trimming.TrimmingRoundTrip | source/bme280.cpp:98-112 | decoding the encoding of any coefficients gives them back |
| Trimming.TrimmingBytesRoundTrip | source/bme280.cpp:98-112 | encoding the decoded coefficients gives back any 24-byte block, so coefficient k carries exactly the little-endian word at bytes (2k, 2k+1) |
| Trimming.HumidityRegisters | source/bme280.cpp:115-122 | the eight humidity trimming registers, in the order of the decoder |
| Trimming.WithHumidity | source/bme280.cpp:115-122 | H1, H3 are the bytes; H2 is the signed word of 0xE1/0xE2; H4 = 0xE4·16 + low nibble of 0xE5; H5 = 0xE6·16 + high nibble of 0xE5, both in [0, 4095]; H6 is the signed byte; nothing else changes |
| Trimming.HumidityRoundTrip | source/bme280.cpp:115-122 | decoding recovers every humidity coefficient whose H4, H5 fit in [0, 4095] |
| Trimming.HumidityBytesRoundTrip | source/bme280.cpp:115-122 | decoding loses no bit of the eight registers |
| Trimming.TwelveBitPatternsReadUnsigned | source/bme280.cpp:120-121 | the all-ones 12-bit pattern decodes to 4095, not -1; no register contents give H5 = -50 |
| Raw.Raw20 | source/bme280.cpp:161-170 | msb·2^12 + lsb·2^4 + xlsb div 16, in [0, 2^20); Err(NotReady) exactly for 0x80, 0x00, 0x00 |
| Raw.Raw16 | source/bme280.cpp:194-202 | msb·256 + lsb, in [0, 65535]; Err(NotReady) exactly for 0x80, 0x00 |
| Raw.Raw20RoundTrip | source/bme280.cpp:221-230 | every 20-bit value is read back from its register bytes, except 0x80000, which reads as not ready |
| Raw.Raw16RoundTrip | source/bme280.cpp:194-202 | every 16-bit value is read back, except 0x8000 |
| Compensation.TemperatureVar1 | source/bme280.cpp:174 | Ok iff ((raw >> 3) - 2·T1)·T2 fits in int32 (the `<< 1` never wraps); var1 is then that product divided by 2^11, rounded down, within [-2^20, 2^20) |
| Compensation.TemperatureVar2 | source/bme280.cpp:175 | Ok iff d·d and ((d·d) >> 12)·T3 fit in int32, for d = (raw >> 4) - T1; var2 is then in [-2^17, 2^17) |
| Compensation.FineTemperature | source/bme280.cpp:172-177 | Ok iff var1 and var2 are (the sum never overflows); t_fine is then in [-0x120000, 0x120000); errors are overflow |
| Compensation.SampleTemperatureDefined | source/bme280.cpp:172-177 | with the datasheet's T1..T3, every 20-bit raw temperature has a fine temperature |
| Compensation.CentiCelsius | source/bme280.cpp:189 | Ok iff fine·5 and fine·5+128 fit in int32; the result is fine·5/256 rounded to nearest |
| Compensation.PressureTerms | source/bme280.cpp:234-239 | fails only by overflow; a zero P1 gives a zero var1 |
| Compensation.SamplePressureTermsDefined | source/bme280.cpp:234-239 | with the datasheet's P1..P6, both terms are defined at every fine temperature FineTemperature can return; var1 ≥ 2^28 and var2 in [0, 2^47) |
| Compensation.SampleSecondTerm | source/bme280.cpp:234-237 | with the datasheet's P4..P6 and var1 = t_fine - 128000 in range, no step of var2 overflows and var2 lies in [0, 2^47) |
| Compensation.SampleFirstTerm | source/bme280.cpp:238-239 | with the datasheet's P1..P3 and the same range, no step of var1 overflows and var1 after the `>> 33` is at least 2^28 |
| Compensation.PressureFromTerms | source/bme280.cpp:241-247 | a zero var1 never yields a pressure; errors are overflow or division by zero |
| Compensation.PressureFromTermsDefined | source/bme280.cpp:241-247 | for any coefficients, a 20-bit raw pressure, var1 ≥ 2^28 and var2 in [0, 2^47) give a pressure: no product after the division overflows |
| Compensation.SamplePressureDefined | source/bme280.cpp:232-248 | with the datasheet's P1..P6, calcPressure has a value for every 20-bit raw pressure at every fine temperature FineTemperature can return |
| Compensation.SampleCompensationDefined | source/bme280.cpp:172-248 | with the datasheet's T and P coefficients, every pair of 20-bit raw temperature and pressure readings gives a fine temperature and a pressure |
| Compensation.CalcPressure | source/bme280.cpp:232-248 | fails only by overflow or division by zero |
| Compensation.PressureNeedsP1 | source/bme280.cpp:239-242 | with P1 = 0 calcPressure has no value |
| Compensation.PressureOffsetRange | source/bme280.cpp:241-242 | for a 20-bit raw value, `1048576 - raw` fits in int32 and `pres << 31` is the exact product: the offset step cannot fail or wrap |
| Compensation.HumidityOffsetFactor | source/bme280.cpp:207 | the unsigned first factor is the 32-bit wrap of the exact numerator, shifted logically by 15, below 2^17; it fails iff H5·x1 overflows |
| Compensation.OffsetFactorVersusSigned | source/bme280.cpp:207 | it equals the signed shift on a non-negative bracket, and is at least 65536 where the signed one would be negative |
| Compensation.HumidityScaleFactor | source/bme280.cpp:208 | the second factor fails only by overflow |
| Compensation.SampleHumidityFactorsDefined | source/bme280.cpp:206-209 | with the sample's H2, H3, H5, H6, both factors are defined at every fine temperature FineTemperature can return, the second within [2^14, 0x12000); calcHumidity then fails exactly when the saturation step of line 209 overflows on the wrapped product |
| Compensation.HumiditySaturation | source/bme280.cpp:209 | the saturation correction never increases x1 |
| Compensation.HumidityReport | source/bme280.cpp:210 | x1 >> 12 as uint32: x1 div 4096 for non-negative x1, a wrapped value ≥ 2^32 - 2^19 for negative x1 |
| Compensation.VendorHumidityReport | source/bme280.cpp:210 | the vendor's clamped ending never exceeds 100 %RH (102400) |
| Compensation.HumidityReportVersusVendor | source/bme280.cpp:210 | the driver's ending agrees with the clamped one exactly on [0, 419430400], and is larger outside it |
| Compensation.CalcHumidity | source/bme280.cpp:204-211 | calcHumidity fails only by overflow |
| Compensation.VendorTemperatureSample | source/bme280.cpp:172-189 | the datasheet example: raw 519888 gives t_fine 128422 and 2508 hundredths of a degree |
| Compensation.PressureTermsSample | source/bme280.cpp:234-239 | the datasheet coefficients at t_fine 128422 give var1 597560748 |
| Compensation.PressureDivisionSample | source/bme280.cpp:241-247 | with the example's P7..P9, the division and corrections of the datasheet example give 100653 Pa |
| Compensation.VendorPressureSample | source/bme280.cpp:232-248 | the datasheet example: raw pressure 415148 gives 100653 Pa |
| Compensation.HumidityOffsetSample | source/bme280.cpp:207 | sample values of the first humidity factor, including a negative bracket that wraps |
| Compensation.HumidityScaleSample | source/bme280.cpp:208 | a sample value of the second humidity factor |
| Compensation.HumiditySaturationSample | source/bme280.cpp:209 | sample values of the saturation correction |
| Compensation.HumiditySamples | source/bme280.cpp:204-211 | raw 30000 gives 56317 (55 %RH); raw 0 gives 334285 (326 %RH), since the wrapped bracket is not clamped |
| Compensation.TemperatureWithoutCoefficients | source/bme280.cpp:172-177 | with zero T coefficients the fine temperature of a raw value below 741376 is 0 |
| Compensation.PressureTermsWithoutCoefficients | source/bme280.cpp:234-239 | with P1, P3-P6 zero both pressure terms are 0 |
| Compensation.PressureWithoutCoefficients | source/bme280.cpp:232-248 | with P1, P3-P6 zero every 20-bit raw pressure gives Err(DivisionByZero) |
| Compensation.UncalibratedCompensation | include/bme280.h:95-119 | with the zero-initialised record and a raw temperature below 741376, the fine temperature is 0 and pressure divides by zero |
| Reset.PollEndings | source/bme280.cpp:81-87 | the poll times out iff 1000 reads all succeed with non-zero answers; it is ready after n reads iff answer n is 0 and those before are not; a bus error ends it at the failing read |
| Reset.PollSucceedsIffIdleSeen | source/bme280.cpp:77-88 | without faults the reset succeeds iff one of the first 1000 answers is 0 |
| Bus.I2cBus.constructor | source/bme280.cpp:144 | a device file with the given registers, answers and faults, and an empty log |
| Bus.I2cBus.Succeeding | source/bme280.cpp:287-289 | the number of transfers that succeed before the first failure |
| Bus.I2cBus.Attempted | source/bme280.cpp:287-289 | the transfers attempted: up to and including the first failure |
| Bus.I2cBus.SucceedingSplit | source/bme280.cpp:287-289 | a run of m + n transfers succeeds as the first m then the next n do |
| Bus.I2cBus.OpenFile | source/bme280.cpp:144 | `::open` returns the handle or -1 |
| Bus.I2cBus.Bind | source/bme280.cpp:149 | `ioctl(I2C_SLAVE)` succeeds unless the call fails |
| Bus.I2cBus.CloseFile | source/bme280.cpp:60 | `::close` succeeds unless the call fails |
| Bus.I2cBus.Write | source/bme280.cpp:292-297 | a successful byte write stores the value in the register and changes nothing else |
| Bus.I2cBus.Read | source/bme280.cpp:299-304 | a read gives the register's value, or the next scripted STATUS answer |
| Bus.I2cBus.ReadBlock | source/bme280.cpp:306-310 | a block read gives the reported number of consecutive registers |
| Bus.RegisterBlock | source/bme280.cpp:316 | n consecutive registers from the start register |
| Session.ConfigWrites | source/bme280.cpp:71-73 | the three writes of setConfig, in order |
| Session.ConfigStored | source/bme280.cpp:71-73 | the registers after n of the three writes: only CONFIG, CTRL_HUM and CTRL change, and after all three they decode to the configuration |
| Session.StatusReads | source/bme280.cpp:82 | n reads of STATUS |
| Session.TrimmingImage | source/bme280.cpp:94-96 | the buffer after a block read of count bytes: registers from 0x88 on, then zeros; after a full read it is exactly the 24 registers from 0x88 |
| Session.HumidityReads | source/bme280.cpp:115-122 | the nine humidity trimming reads |
| Session.CalibrationCalls | source/bme280.cpp:90-122 | the calls of a complete calibration(): the reset write, n STATUS reads, the 24-byte block read from 0x88, then the nine humidity reads |
| Session.CalibrationLog | source/bme280.cpp:90-122 | a log holding the first j of those calls extends the earlier log and is a prefix of the complete run's log |
| Session.CalibrationOf | source/bme280.cpp:90-125 | the record calibration() leaves: encoding it gives back the trimming block after a full read and the humidity registers, and updateTime is the run's time |
| Session.StampedHumidity | source/bme280.cpp:115-125 | decoding the humidity registers and stamping updateTime leave the trimming encoding unchanged, and the humidity registers encode back |
| Session.CalibrationFrame | source/bme280.cpp:90-125 | the record depends only on the trimming block and the humidity trimming registers |
| Session.ShortTrimmingRead | source/bme280.cpp:94-96 | after a block read of at most 6 bytes P1 stays 0, so no pressure is ever reported |
| Session.TemperatureReads | source/bme280.cpp:163-165 | the three reads of the raw temperature |
| Session.PressureReads | source/bme280.cpp:223-225 | the three reads of the raw pressure |
| Session.HumidityRawReads | source/bme280.cpp:196-197 | the two reads of the raw humidity |
| Session.FineTemperatureOf | source/bme280.cpp:179-183 | fails with NotReady exactly when the raw temperature is the reset value; otherwise only by overflow |
| Session.TemperatureOf | source/bme280.cpp:186-191 | hundredths of a degree, fine·5/256 rounded to nearest |
| Session.HumidityOf | source/bme280.cpp:214-219 | NotReady when the raw humidity is the reset value; a value needs a fine temperature |
| Session.PressureOf | source/bme280.cpp:260-264 | NotReady when the raw pressure is the reset value; a value needs a fine temperature and a non-zero P1 |
| Session.ReadingsWithoutCoefficients | source/bme280.cpp:172-248 | zero T and P coefficients and a raw temperature below 741376 give a fine temperature of 0 and no pressure |
| Session.UncalibratedReadings | include/bme280.h:95-119 | a session that never calibrated, with a raw temperature below 741376, reports a fine temperature of 0 and no pressure |
| Session.HumidityAssignments | source/bme280.cpp:115-122 | the field-by-field H1..H6 assignments of calibration() give WithHumidity of the eight humidity registers |
| Session.Bme280.constructor | source/bme280.cpp:45-49 | a new session is closed (handle CLOSE), unconfigured and uncalibrated |
| Session.Bme280.WriteByteData | source/bme280.cpp:292-297 | one logged write; Pass iff the transfer succeeds, and only then the register changes |
| Session.Bme280.ReadByteData | source/bme280.cpp:299-304 | one logged read; Err iff the transfer fails; otherwise the register's value or the next STATUS answer |
| Session.Bme280.Open | source/bme280.cpp:142-152 | the handle is the OS result; a failed bind fails open but leaves the session opened |
| Session.Bme280.Check | source/bme280.cpp:154-159 | fails with UnexpectedDevice iff the chip-id register is not 0x60 |
| Session.Bme280.Close | source/bme280.cpp:57-66 | no call when closed; on OS failure the handle is kept; on success it becomes CLOSE |
| Session.Bme280.SetConfig | source/bme280.cpp:68-75 | stores the config, then writes CONFIG, CTRL_HUM, CTRL in order, stopping at the first failure; after success the registers decode to the config |
| Session.Bme280.SoftReset | source/bme280.cpp:77-88 | writes 0xB6 to 0xE0, then makes exactly the STATUS reads of Poll and reports its ending |
| Session.Bme280.ReadBlockData | source/bme280.cpp:306-318 | fails iff the transfer fails or the count exceeds length; otherwise copies exactly count bytes and leaves the rest of the buffer untouched |
| Session.Bme280.ReadHumidityTrimmingLow | source/bme280.cpp:115-117 | four reads; on success H1, H2, H3 take the decoded register values and nothing else changes |
| Session.Bme280.ReadHumidityTrimmingHigh | source/bme280.cpp:118-122 | five reads; on success H4, H5, H6 take the decoded register values and nothing else changes |
| Session.Bme280.ReadRawTemperature | source/bme280.cpp:161-170 | the raw temperature of the registers unless one of its three reads fails |
| Session.Bme280.ReadRawPressure | source/bme280.cpp:221-230 | the raw pressure of the registers unless one of its three reads fails |
| Session.Bme280.ReadRawHumidity | source/bme280.cpp:194-202 | the raw humidity of the registers unless one of its two reads fails |
| Session.Bme280.ReadFineTemperature | source/bme280.cpp:179-183 | FineTemperatureOf unless a read fails |
| Session.Bme280.ReadTemperature | source/bme280.cpp:186-191 | TemperatureOf unless a read fails |
| Session.Bme280.ReadHumidity | source/bme280.cpp:214-219 | HumidityOf unless one of its reads fails; the temperature is read only once the raw humidity is ready |
| Session.Bme280.ReadPressure | source/bme280.cpp:260-264 | PressureOf unless one of its reads fails; the temperature is read only once the raw pressure is ready |
| Session.TrimmingImageOfBlock | source/bme280.cpp:94-96 | a zeroed buffer holding the first count bytes of a block read is the trimming image |
| Session.Bme280.ReadTrimmingBlock | source/bme280.cpp:94-96 | one block read of 24 bytes from 0x88; succeeds exactly when the transfer does and the reply fits, and then returns the trimming image |
| Session.Bme280.ReadTrimming | source/bme280.cpp:94-112 | on success T1..P9 are decoded from the buffer image; on failure the record is unchanged |
| Session.Bme280.ResetAndReadTrimming | source/bme280.cpp:92-112 | the soft reset, then the trimming block; its calls are a prefix of CalibrationCalls ending with the block read on success, and T1..P9 are decoded on success |
| Session.Bme280.ReadHumidityTrimming | source/bme280.cpp:115-122 | the nine humidity reads, stopping at the first failure; on success the record is WithHumidity of the eight registers |
| Session.Bme280.Calibration | source/bme280.cpp:90-125 | on success the record is CalibrationOf the registers, wasCalibration holds, and the log is exactly the reset write, the poll's STATUS reads, the block read from 0x88 and the nine humidity reads; after a failure the log is a prefix of that; a failed run leaves updateTime unchanged |
| Session.Bme280.CheckCalibrateConfigure | source/bme280.cpp:38-40 | on success the chip id was 0x60, the session is calibrated from the registers and configured; the handle is untouched and the log grows |
| Session.Bme280.Start | source/bme280.cpp:36-41 | on success the session is opened, calibrated from the registers, configured, and the chip id was 0x60; in every case the handle is the opened file's unless the open failed, so a later failure leaves the session opened; the log starts with the open |
| Registry.StartIfClosed | source/bme280.cpp:35-41 | sets the address; an opened session is left untouched with no bus call; otherwise the start-up runs, and the session ends opened exactly when the open succeeded, whatever fails later |
| Registry.StartOrDiscard | source/bme280.cpp:35-41 | the start-up of an unopened session, and for a session created by this call the destructor's close after a failure: its log then starts with the open and ends with the close, or is the open alone when that failed |
| Registry.Registry.constructor | include/bme280.h:182 | the table starts empty |
| Registry.Registry.OneSessionPerPath | include/bme280.h:182 | two paths never share a session |
| Registry.Registry.Instance | source/bme280.cpp:24-43 | the same session for the same path; start-up only when not opened; the address is overwritten; an existing session whose start-up fails after the open stays opened, so the next call skips the start-up; a failed new session is not kept, and when it was opened its last bus call is the destructor's close |
| Registry.Registry.Register | source/bme280.cpp:28-33 | the table holds the session under its path with one more owner, and stays valid |
| Registry.Registry.Release | source/bme280.cpp:51-55 | the last release closes the handle and erases the path; earlier releases only decrement, with no bus call and the session's handle, address, configuration and calibration unchanged |

## Left out

- `source/main.cpp` (option parsing, the polling loop, printing) is not part of this model.
- Floating point is not modelled: `getTemperature`'s `/ 100`, `getHumidity`'s `/ 1024`,
  `getQnhPressure`, `paToHg` and `calcDewpoint`. The integer values that feed them are
  modelled (`ReadTemperature`, `ReadHumidity`, `ReadPressure`).
- `getTimeLastCalibration` is a plain getter of `updateTime` and has no member of its own.
- The OS calls (`::open`, `::ioctl`, `::close`, `errno` and `strerror`) are replaced by the
  transport class `Bus.I2cBus`. So is the `i2c_smbus_ioctl_data` marshalling. Exception
  messages are not modelled.
- `sleep_for` is left out, since delays are not observable. The reset poll counts reads
  instead.
- `std::time` becomes the parameter `now`, which must be positive.
- `shared_ptr`/`weak_ptr` become explicit owner counts, single-threaded. The table entry is
  written once the start-up has succeeded rather than before it. With one thread the
  difference cannot be observed.
- Registry.Registry.Instance: the close made by the destructor of a failed new session can
  throw from a destructor, which ends the program (std::terminate). That is not modelled:
  the close's outcome is ignored.
- The range preconditions on the compensation inputs are not used. Every overflowing signed
  operation yields `Err(Overflow)` and a zero divisor `Err(DivisionByZero)`, so all inputs
  are allowed.
- `_address` and `_config` are indeterminate in C++ until they are assigned. The model uses
  0 and `None`.
- The two reads that form each humidity word are made left operand first. C++ leaves the
  order of the operands of `|` unspecified.
- The byte count of a block read is taken modulo 256, as the `data.block[0]` byte stores it.
  The kernel's own limit of 32 bytes per block is not modelled.
- Compensation.CalcHumidity: states only the error kind. Its values are pinned by
  `HumiditySamples` and the per-factor members, not by a closed formula. Where it is defined
  is stated only for the sample's coefficients, and only up to the saturation step
  (`SampleHumidityFactorsDefined`).
- Compensation.CalcPressure: states only the error kinds and the zero-`P1` failure. Values
  are pinned by `VendorPressureSample`. Where it is defined is proved only for the
  datasheet's coefficients (`SamplePressureDefined`).
- Compensation.PressureTerms: does not state when it has a value for arbitrary coefficients.
  That depends on P1..P6 jointly, and for P1 near 65535 the last product can overflow. It is
  proved only for the datasheet's coefficients (`SamplePressureTermsDefined`).
- Compensation.PressureFromTerms: states a sufficient condition for a value
  (`PressureFromTermsDefined`), not an exact one.
- Compensation.HumidityScaleFactor: does not state when it has a value for arbitrary
  coefficients. For large H2 the product with H2 overflows at every fine temperature. It is
  proved only for the sample's coefficients (`SampleHumidityFactorsDefined`).
- Registry.Registry.Release: when the last release's close fails, the C++ destructor throws,
  which ends the program (std::terminate). The model returns `Fail` and still erases the
  entry.
- Session.Bme280.Start: states the outcome, the resulting state on success and the handle in
  every case. Of the call log it states only the opening call, not the rest of the sequence.
