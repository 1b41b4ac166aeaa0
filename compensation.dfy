/** The integer compensation formulas (source/bme280.cpp:172-248), which follow section
    4.2.3 of the BME280 datasheet. Each takes the fine temperature as a parameter instead of
    re-reading the sensor; every C++ operation keeps its width, a signed overflow (undefined
    in C++) yields Err(Overflow), and a division by zero yields Err(DivisionByZero). */
module Compensation {
  import opened Errors
  import opened Machine
  import opened Defs

  /** var1 of calcTemperature (line 174). The difference cannot overflow; the product can. */
  function TemperatureVar1(raw: Int32, c: Calibration): (r: Result<Int32>)
    ensures r.Ok? <==> InInt32((Asr(raw, 3) - 2 * c.T1) * c.T2)
    ensures r.Err? ==> r.error == Overflow
    ensures r.Ok? ==>
      r.value * 0x800 <= (Asr(raw, 3) - 2 * c.T1) * c.T2 < r.value * 0x800 + 0x800
    ensures r.Ok? ==> -0x10_0000 <= r.value < 0x10_0000
  {
    assert Shl32(c.T1, 1) == 2 * c.T1 by {
      assert Pow2(1) == 2;
    }
    var d1: Int32 := Asr(raw, 3) - Shl32(c.T1, 1);
    var p1 :- I32(d1 * c.T2);
    Ok(Asr(p1, 11))
  }

  /** var2 of calcTemperature (line 175). The difference cannot overflow; the products can. */
  function TemperatureVar2(raw: Int32, c: Calibration): (r: Result<Int32>)
    ensures r.Ok? <==>
      var d2 := Asr(raw, 4) - c.T1;
      InInt32(d2 * d2) && InInt32(Asr(d2 * d2, 12) * c.T3)
    ensures r.Err? ==> r.error == Overflow
    ensures r.Ok? ==> -0x2_0000 <= r.value < 0x2_0000
  {
    var d2: Int32 := Asr(raw, 4) - c.T1;
    var sq :- I32(d2 * d2);
    var p2 :- I32(Asr(sq, 12) * c.T3);
    Ok(Asr(p2, 14))
  }

  /** calcTemperature: the fine temperature t_fine, in 1/5120 degC; the sum cannot overflow,
      so it has a value exactly when the products of var1 and var2 fit in int32. */
  function FineTemperature(raw: Int32, c: Calibration): (r: Result<Int32>)
    ensures r.Ok? <==> TemperatureVar1(raw, c).Ok? && TemperatureVar2(raw, c).Ok?
    ensures r.Err? ==> r.error == Overflow
    ensures r.Ok? ==> -0x12_0000 <= r.value < 0x12_0000
  {
    var var1 :- TemperatureVar1(raw, c);
    var var2 :- TemperatureVar2(raw, c);
    Ok(var1 + var2)
  }

  /** The integer part of getTemperature: `(t_fine * 5 + 128) >> 8`, hundredths of a degree
      rounded to the nearest (t_fine * 5 / 256, with ties upwards). */
  function CentiCelsius(fine: Int32): (r: Result<Int32>)
    ensures r.Ok? <==> InInt32(fine * 5) && InInt32(fine * 5 + 128)
    ensures r.Ok? ==> r.value * 256 - 128 <= fine * 5 < r.value * 256 + 128
  {
    var scaled :- I32(fine * 5);
    var rounded :- I32(scaled + 128);
    Ok(Asr(rounded, 8))
  }

  /** Lines 234-239 of calcPressure: the pair (var1, var2) that the pressure formula divides
      by and subtracts. */
  function PressureTerms(fine: Int32, c: Calibration): (r: Result<(Int64, Int64)>)
    ensures r.Err? ==> r.error == Overflow
    ensures r.Ok? && c.P1 == 0 ==> r.value.0 == 0
  {
    // var1 * var1, var1 * P5, var1 * P2 and the new var1 cannot overflow; the rest can.
    var v1a: Int64 := fine - 128000;
    MulBound(v1a, v1a, 0x8000_0000 + 128000, 0x8000_0000 + 128000);
    var sq: Int64 := v1a * v1a;
    var v2a :- I64(sq * c.P6);
    MulBound(v1a, c.P5, 0x8000_0000 + 128000, 0x8000);
    var t5: Int64 := v1a * c.P5;
    var v2b :- I64(v2a + Shl64(t5, 17));
    var v2c :- I64(v2b + Shl64(c.P4, 35));
    var t3 :- I64(sq * c.P3);
    MulBound(v1a, c.P2, 0x8000_0000 + 128000, 0x8000);
    var t2: Int64 := v1a * c.P2;
    var v1b: Int64 := Asr(t3, 8) + Shl64(t2, 12);
    var t1p :- I64((Shl64(1, 47) + v1b) * c.P1);
    Ok((Asr(t1p, 33), v2c))
  }

  /** Lines 241-247 of calcPressure: the unguarded division by var1, the corrections by P7-P9
      and the conversion of the Q24.8 value to whole pascals (`/` truncates, the result is
      converted to uint32). */
  function PressureFromTerms(raw: Int32, var1: Int64, var2: Int64, c: Calibration): (r: Result<UInt32>)
    ensures r.Err? ==> r.error == Overflow || r.error == DivisionByZero
    ensures var1 == 0 ==> r.Err?
  {
    var offset :- I32(1048576 - raw);
    var num :- I64(Shl64(offset, 31) - var2);
    var num5 :- I64(num * 3125);
    var pa :- Div64(num5, var1);
    var p13 := Asr(pa, 13);
    var u :- I64(c.P9 * p13);
    var u2 :- I64(u * p13);
    var w :- I64(c.P8 * pa);
    var s1 :- I64(pa + Asr(u2, 25));
    var s2 :- I64(s1 + Asr(w, 19));
    var q248: Int64 := Asr(s2, 8) + Shl64(c.P7, 4);
    Ok(ToUInt32(TDiv(q248, 256)))
  }

  /** calcPressure (lines 233-248). */
  function CalcPressure(raw: Int32, fine: Int32, c: Calibration): (r: Result<UInt32>)
    ensures r.Err? ==> r.error == Overflow || r.error == DivisionByZero
  {
    var terms :- PressureTerms(fine, c);
    PressureFromTerms(raw, terms.0, terms.1, c)
  }

  /** A zero P1 coefficient (as before calibration) makes var1 zero, so calcPressure can never
      report a pressure. */
  lemma {:induction false} PressureNeedsP1(raw: Int32, fine: Int32, c: Calibration)
    requires c.P1 == 0
    ensures CalcPressure(raw, fine, c).Err?
  {
  }

  /** For any 20-bit raw pressure the first steps of line 242 are exact: `1048576 - raw`
      fits and `pres << 31` does not wrap. */
  lemma PressureOffsetRange(raw: Int32)
    requires 0 <= raw < 0x10_0000
    ensures I32(1048576 - raw) == Ok(1048576 - raw)
    ensures Shl64(1048576 - raw, 31) == (1048576 - raw) * 0x8000_0000
  {
    assert Pow2(31) == 0x8000_0000;
  }

  /** With the temperature coefficients of the datasheet's example, calcTemperature has a
      value for every 20-bit raw temperature. */
  lemma {:induction false} SampleTemperatureDefined(raw: Int32, c: Calibration)
    requires 0 <= raw < 0x10_0000
    requires c.T1 == 27504 && c.T2 == 26435 && c.T3 == -1000
    ensures FineTemperature(raw, c).Ok?
  {
    var d2 := Asr(raw, 4) - c.T1;
    assert -27504 <= d2 <= 38031;
    MulBound(d2, d2, 38031, 38031);
    assert 0 <= Asr(d2 * d2, 12) <= 353114;
  }

  /** With the pressure coefficients of the datasheet's example, both terms of calcPressure
      are defined for every fine temperature FineTemperature can return; var1 is at least
      2^28 and var2 lies in [0, 2^47). */
  lemma {:induction false} SamplePressureTermsDefined(fine: Int32, c: Calibration)
    requires -0x12_0000 <= fine < 0x12_0000
    requires c.P1 == 36477 && c.P2 == -10685 && c.P3 == 3024
    requires c.P4 == 2855 && c.P5 == 140 && c.P6 == -7
    ensures PressureTerms(fine, c).Ok?
    ensures 0x1000_0000 <= PressureTerms(fine, c).value.0
    ensures 0 <= PressureTerms(fine, c).value.1 < 0x8000_0000_0000
  {
    SampleSecondTerm(fine - 128000, c);
    SampleFirstTerm(fine - 128000, c);
  }

  /** var2 of calcPressure with the datasheet's P4..P6, for the var1 = t_fine - 128000 of any
      t_fine in range: no step overflows and the result lies in [0, 2^47). */
  lemma {:induction false} SampleSecondTerm(v: int, c: Calibration)
    requires -1307648 <= v <= 1051647
    requires c.P4 == 2855 && c.P5 == 140 && c.P6 == -7
    ensures var v2a := v * v * c.P6;
            var v2b := v2a + Shl64(v * c.P5, 17);
            var v2c := v2b + Shl64(c.P4, 35);
            InInt64(v2a) && InInt64(v2b) && InInt64(v2c) && 0 <= v2c < 0x8000_0000_0000
  {
    MulBound(v, v, 1307648, 1307648);
    assert 0 <= v * v <= 1709943291904;
    assert Pow2(17) == 0x2_0000 && Pow2(35) == 0x8_0000_0000;
  }

  /** var1 of calcPressure with the datasheet's P1..P3, for the same range: no step overflows
      and the value after the `>> 33` is at least 2^28. */
  lemma {:induction false} SampleFirstTerm(v: int, c: Calibration)
    requires -1307648 <= v <= 1051647
    requires c.P1 == 36477 && c.P2 == -10685 && c.P3 == 3024
    ensures var t3 := v * v * c.P3;
            var t1p := (Shl64(1, 47) + (Asr(t3, 8) + Shl64(v * c.P2, 12))) * c.P1;
            InInt64(t3) && InInt64(t1p) && 0x1000_0000 <= Asr(t1p, 33)
  {
    MulBound(v, v, 1307648, 1307648);
    var sq := v * v;
    assert 0 <= sq <= 1709943291904;
    assert Pow2(12) == 0x1000 && Pow2(8) == 0x100 && Pow2(33) == 0x2_0000_0000 && Pow2(47) == 0x8000_0000_0000;
    var t3 := sq * c.P3;
    assert 0 <= Asr(t3, 8) <= 20198705135616;
    var t2 := v * -43765760;
    assert Shl64(v * c.P2, 12) == t2;
    assert -46026130206720 <= t2 <= 57230208532480;
  }

  /** The division and corrections of calcPressure have a value, for any coefficients, once the
      raw pressure has 20 bits, var1 is at least 2^28 and var2 lies in [0, 2^47): the
      quotient is then at most 2^23 * 3125 in magnitude and no later product overflows. */
  lemma {:induction false} PressureFromTermsDefined(raw: Int32, var1: Int64, var2: Int64, c: Calibration)
    requires 0 <= raw < 0x10_0000
    requires 0x1000_0000 <= var1 && 0 <= var2 < 0x8000_0000_0000
    ensures PressureFromTerms(raw, var1, var2, c).Ok?
  {
    PressureOffsetRange(raw);
    var offset := 1048576 - raw;
    var num: Int64 := offset * 0x8000_0000 - var2;
    assert I64(num) == Ok(num);
    var num5: Int64 := num * 3125;
    assert I64(num5) == Ok(num5);
    var pa := TDiv(num5, var1);
    assert Abs(pa) <= 26214400000 by {
      DivByLarger(Abs(num5), var1, 0x1000_0000);
    }
    assert Div64(num5, var1) == Ok(pa);
    var p13 := Asr(pa, 13);
    assert Abs(p13) <= 3200000;
    MulBound(c.P9, p13, 0x8000, 3200000);
    var u := c.P9 * p13;
    assert I64(u) == Ok(u);
    MulBound(u, p13, 0x8000 * 3200000, 3200000);
    assert I64(u * p13) == Ok(u * p13);
    MulBound(c.P8, pa, 0x8000, 26214400000);
    assert I64(c.P8 * pa) == Ok(c.P8 * pa);
  }

  /** With the datasheet's pressure coefficients calcPressure has a value for every 20-bit raw
      pressure at every fine temperature FineTemperature can return. */
  lemma {:induction false} SamplePressureDefined(raw: Int32, fine: Int32, c: Calibration)
    requires 0 <= raw < 0x10_0000 && -0x12_0000 <= fine < 0x12_0000
    requires c.P1 == 36477 && c.P2 == -10685 && c.P3 == 3024
    requires c.P4 == 2855 && c.P5 == 140 && c.P6 == -7
    ensures CalcPressure(raw, fine, c).Ok?
  {
    SamplePressureTermsDefined(fine, c);
    var terms := PressureTerms(fine, c).value;
    PressureFromTermsDefined(raw, terms.0, terms.1, c);
  }

  /** The numerator of the first humidity factor, in unbounded arithmetic. */
  function HumidityNumerator(raw: int, x1: int, c: Calibration): int {
    raw * 0x4000 - c.H4 * 0x10_0000 - c.H5 * x1 + 16384
  }

  lemma ModShift(x: int, q: int)
    ensures ToUInt32(x - q * TWO_32) == ToUInt32(x)
  {
    var m := TWO_32;
    var k := x / m;
    assert x == k * m + x % m;
    assert x - q * m == (k - q) * m + x % m;
  }

  lemma ModAdd(a: int, b: int)
    ensures ToUInt32(ToUInt32(a) + b) == ToUInt32(a + b)
  {
    var q := a / TWO_32;
    assert a == q * TWO_32 + ToUInt32(a);
    ModShift(a + b, q);
  }

  /** The first factor of line 207. `raw` is uint32, so `raw << 14` is unsigned and the whole
      bracket is computed modulo 2^32; `>> 15` is then a logical shift. */
  function HumidityOffsetFactor(raw: UInt32, x1: Int32, c: Calibration): (r: Result<UInt32>)
    ensures r.Err? <==> !InInt32(c.H5 * x1)
    ensures r.Err? ==> r.error == Overflow
    ensures r.Ok? ==> r.value < 0x2_0000 && r.value == ToUInt32(HumidityNumerator(raw, x1, c)) / 0x8000
  {
    var h5x: int :- I32(c.H5 * x1);
    var shifted := ToUInt32(raw * Pow2(14));
    var h4s: int := Shl32(c.H4, 20);
    var n1 := ToUInt32(shifted - h4s);
    var n2 := ToUInt32(n1 - h5x);
    var n3 := ToUInt32(n2 + 16384);
    assert n3 == ToUInt32(HumidityNumerator(raw, x1, c)) by {
      ModAdd(raw * Pow2(14), -h4s);
      ModAdd(raw * Pow2(14) - h4s, -h5x);
      ModAdd(raw * Pow2(14) - h4s - h5x, 16384);
      var q := (c.H4 * 0x10_0000 - h4s) / TWO_32;
      assert c.H4 * 0x10_0000 - h4s == q * TWO_32;
      ModShift(raw * Pow2(14) - h4s - h5x + 16384, q);
    }
    Ok(n3 / Pow2(15))
  }

  /** Where the bracket of line 207 is a non-negative 32-bit value the unsigned factor is the
      signed formula's; a negative bracket gives a factor of at least 65536 instead of a
      negative one. */
  lemma OffsetFactorVersusSigned(n: int)
    requires -0x8000_0000 <= n < TWO_32
    ensures 0 <= n ==> ToUInt32(n) / 0x8000 == Asr(n, 15)
    ensures n < 0 ==> ToUInt32(n) / 0x8000 >= 0x1_0000 && Asr(n, 15) < 0
  {
    if n < 0 {
      assert ToUInt32(n) == n + TWO_32;
    }
  }

  /** The second factor of line 208, in int32 (the two additions cannot overflow). */
  function HumidityScaleFactor(x1: Int32, c: Calibration): (r: Result<Int32>)
    ensures r.Err? ==> r.error == Overflow
  {
    var a :- I32(x1 * c.H6);
    var b :- I32(x1 * c.H3);
    var b2: Int32 := Asr(b, 11) + 32768;
    var m :- I32(Asr(a, 10) * b2);
    var s: Int32 := Asr(m, 10) + 2097152;
    var t :- I32(s * c.H2);
    var t2 :- I32(t + 8192);
    Ok(Asr(t2, 14))
  }

  /** Line 209: `x1 - (((((x1 >> 15) * (x1 >> 15)) >> 7) * H1) >> 4)`. */
  function HumiditySaturation(x1: Int32, h1: Byte): (r: Result<Int32>)
    ensures r.Err? ==> r.error == Overflow
    ensures r.Ok? ==> r.value <= x1
  {
    var s := Asr(x1, 15);
    var sq :- I32(s * s);
    var t :- I32(Asr(sq, 7) * h1);
    I32(x1 - Asr(t, 4))
  }

  /** Line 210: `return (x1 >> 12)` from a function returning uint32, without the vendor's
      clamp; the value is in Q22.10 %RH. */
  function HumidityReport(y: Int32): (r: UInt32)
    ensures 0 <= y ==> r == y / 0x1000 && r <= 0x8_0000
    ensures y < 0 ==> r >= TWO_32 - 0x8_0000
  {
    ToUInt32(Asr(y, 12))
  }

  /** The vendor's reference ending (section 4.2.3 of the datasheet): the value is clamped to
      [0, 419430400] before the shift, so the result never exceeds 100 %RH (102400). */
  function VendorHumidityReport(y: Int32): (r: UInt32)
    ensures r <= 102400
  {
    var clamped := if y < 0 then 0 else if y > 419430400 then 419430400 else y;
    Asr(clamped, 12)
  }

  /** The driver's ending agrees with the vendor's exactly when the value lies within
      [0, 419430400]; below it the driver reports a wrapped value above 4 million %RH where the
      vendor reports 0, above it at least the vendor's 100 %RH. */
  lemma {:induction false} HumidityReportVersusVendor(y: Int32)
    ensures 0 <= y <= 419430400 ==> HumidityReport(y) == VendorHumidityReport(y)
    ensures y < 0 ==> VendorHumidityReport(y) == 0 && HumidityReport(y) > 102400
    ensures y > 419430400 ==> HumidityReport(y) >= VendorHumidityReport(y) == 102400
  {
    if y > 419430400 {
      assert Asr(419430400, 12) == 102400;
    }
  }

  /** calcHumidity: the 32-bit pipeline of lines 206-210. The product of lines 207-208 is a
      uint32 product (the first factor is unsigned) stored back into the int32 x1. */
  function CalcHumidity(raw: UInt32, fine: Int32, c: Calibration): (r: Result<UInt32>)
    ensures r.Err? ==> r.error == Overflow
  {
    var x1 :- I32(fine - 76800);
    var f1 :- HumidityOffsetFactor(raw, x1, c);
    var f2 :- HumidityScaleFactor(x1, c);
    var y :- HumiditySaturation(ToInt32(f1 * f2), c.H1);
    Ok(HumidityReport(y))
  }

  /** With the humidity coefficients of the sample record, both factors of lines 207-208 have
      a value at every fine temperature FineTemperature can return, the second one within
      [2^14, 0x1_2000). calcHumidity can then fail only in the saturation step of line 209,
      on the wrapped product of the two factors. */
  lemma {:induction false} SampleHumidityFactorsDefined(raw: UInt32, fine: Int32, c: Calibration)
    requires -0x12_0000 <= fine < 0x12_0000
    requires c.H2 == 362 && c.H3 == 0 && c.H5 == 50 && c.H6 == 30
    ensures HumidityOffsetFactor(raw, fine - 76800, c).Ok?
    ensures HumidityScaleFactor(fine - 76800, c).Ok?
    ensures 0x4000 <= HumidityScaleFactor(fine - 76800, c).value < 0x1_2000
    ensures CalcHumidity(raw, fine, c).Ok? <==>
      HumiditySaturation(ToInt32(HumidityOffsetFactor(raw, fine - 76800, c).value *
                                 HumidityScaleFactor(fine - 76800, c).value), c.H1).Ok?
  {
    var x1: Int32 := fine - 76800;
    assert I32(fine - 76800) == Ok(x1);
    var a := x1 * 30;
    assert Pow2(10) == 0x400 && Pow2(14) == 0x4000;
    var a10 := Asr(a, 10);
    assert -36818 <= a10 <= 32309;
    assert Asr(0, 11) == 0;
    var m := a10 * 32768;
    assert Asr(m, 10) == a10 * 32 by {
      DivModOfSum(a10 * 32, 0, 0x400);
    }
    var s := a10 * 32 + 2097152;
    assert 918976 <= s <= 3131040;
    assert 0x4000 <= Asr(s * 362 + 8192, 14) < 0x1_2000;
  }

  /** With the sample's temperature and pressure coefficients, every pair of 20-bit raw
      temperature and pressure readings is compensated to a pressure. */
  lemma {:induction false} SampleCompensationDefined(rawT: Int32, rawP: Int32, c: Calibration)
    requires 0 <= rawT < 0x10_0000 && 0 <= rawP < 0x10_0000
    requires c.T1 == 27504 && c.T2 == 26435 && c.T3 == -1000
    requires c.P1 == 36477 && c.P2 == -10685 && c.P3 == 3024
    requires c.P4 == 2855 && c.P5 == 140 && c.P6 == -7
    ensures FineTemperature(rawT, c).Ok?
    ensures CalcPressure(rawP, FineTemperature(rawT, c).value, c).Ok?
  {
    SampleTemperatureDefined(rawT, c);
    SamplePressureDefined(rawP, FineTemperature(rawT, c).value, c);
  }

  /** The coefficients of the worked example of the Bosch BMP280 datasheet (section 8.2),
      with typical humidity coefficients added. */
  const SAMPLE: Calibration :=
    Calibration(27504, 26435, -1000,
                36477, -10685, 3024, 2855, 140, -7, 15500, -14600, 6000,
                75, 362, 0, 313, 50, 30,
                1)

  /** The datasheet's worked example, bit for bit: raw temperature 519888 gives t_fine 128422
      and 25.08 degC. */
  lemma VendorTemperatureSample()
    ensures FineTemperature(519888, SAMPLE) == Ok(128422)
    ensures CentiCelsius(128422) == Ok(2508)
  {
    assert Asr(519888, 3) == 64986;
    assert Shl32(27504, 1) == 55008;
    assert Asr(263768430, 11) == 128793;
    assert Asr(519888, 4) == 32493;
    assert Asr(24890121, 12) == 6076;
    assert Asr(-6076000, 14) == -371;
    assert Asr(642238, 8) == 2508;
  }

  lemma PressureTermsSample()
    ensures PressureTerms(128422, SAMPLE) == Ok((597560748, 98104795527812))
  {
    assert Shl64(59080, 17) == 7743733760;
    assert Shl64(2855, 35) == 98097053040640;
    assert Asr(538526016, 8) == 2103617;
    assert Shl64(-4509070, 12) == -18469150720;
    assert Shl64(1, 47) == 140737488355328;
    assert Asr(5133007740260123325, 33) == 597560748;
  }

  lemma PressureDivisionSample(c: Calibration)
    requires c.P7 == 15500 && c.P8 == -14600 && c.P9 == 6000
    ensures PressureFromTerms(415148, 597560748, 98104795527812, c) == Ok(100653)
  {
    assert Shl64(633428, 31) == 1360276272185344;
    assert Div64(3944285864554787500, 597560748) == Ok(6600644165);
    assert Asr(6600644165, 13) == 805742;
    assert Asr(3895321023384000, 25) == 116089612;
    assert Asr(-96369404809000, 19) == -183810053;
    assert Asr(6532923724, 8) == 25519233;
    assert Shl64(15500, 4) == 248000;
    assert TDiv(25767233, 256) == 100653;
  }

  /** The datasheet's worked example: at t_fine 128422 a raw pressure of 415148 gives
      25767233 / 256 Pa, reported as 100653 Pa. */
  lemma VendorPressureSample()
    ensures CalcPressure(415148, 128422, SAMPLE) == Ok(100653)
  {
    PressureTermsSample();
    PressureDivisionSample(SAMPLE);
  }

  lemma HumidityOffsetSample()
    ensures HumidityOffsetFactor(30000, 51622, SAMPLE) == Ok(4905)
    ensures HumidityOffsetFactor(0, 51622, SAMPLE) == Ok(120977)
  {
  }

  lemma HumidityScaleSample()
    ensures HumidityScaleFactor(51622, SAMPLE) == Ok(47405)
  {
    assert Asr(1548660, 10) == 1512;
    assert Asr(0, 11) == 0;
    assert Asr(49545216, 10) == 48384;
    assert Asr(776692224, 14) == 47405;
  }

  lemma HumiditySaturationSample()
    ensures HumiditySaturation(232521525, 75) == Ok(230678058)
    ensures HumiditySaturation(1439947389, 75) == Ok(1369232529)
  {
    assert Asr(232521525, 15) == 7095;
    assert Asr(50339025, 7) == 393273;
    assert Asr(29495475, 4) == 1843467;
    assert Asr(1439947389, 15) == 43943;
    assert Asr(1930987249, 7) == 15085837;
    assert Asr(1131437775, 4) == 70714860;
  }

  /** A raw humidity of 30000 reads as 56317 / 1024 = 55 %RH. A raw reading of 0 (dry air)
      makes the bracket of line 207 negative, so it wraps: the reading is 334285 / 1024 =
      326 %RH. */
  lemma HumiditySamples()
    ensures CalcHumidity(30000, 128422, SAMPLE) == Ok(56317)
    ensures HumidityNumerator(0, 51622, SAMPLE) < 0
    ensures CalcHumidity(0, 128422, SAMPLE) == Ok(334285)
  {
    HumidityOffsetSample();
    HumidityScaleSample();
    HumiditySaturationSample();
    assert ToInt32(4905 * 47405) == 232521525;
    assert ToInt32(120977 * 47405) == 1439947389;
    assert Asr(230678058, 12) == 56317;
    assert Asr(1369232529, 12) == 334285;
  }

  /** With zero temperature coefficients (as before calibration) a raw temperature below
      741376, where `(raw >> 4) * (raw >> 4)` still fits in int32, gives a fine temperature
      of 0. */
  lemma TemperatureWithoutCoefficients(raw: Int32, c: Calibration)
    requires c.T1 == 0 && c.T2 == 0 && c.T3 == 0
    requires 0 <= raw < 0xB_5000
    ensures FineTemperature(raw, c) == Ok(0)
  {
    assert TemperatureVar1(raw, c) == Ok(0) by {
      assert Shl32(0, 1) == 0;
      assert Asr(0, 11) == 0;
    }
    assert TemperatureVar2(raw, c) == Ok(0) by {
      var d2: Int32 := Asr(raw, 4);
      assert 0 <= d2 * d2 < 0x8000_0000 by {
        MulBound(d2, d2, 46336, 46336);
      }
      assert Asr(0, 14) == 0;
    }
  }

  /** With P1 and P3-P6 zero (as before calibration) calcPressure divides by zero, whatever
      the fine temperature and the 20-bit raw pressure. */
  lemma PressureWithoutCoefficients(raw: Int32, fine: Int32, c: Calibration)
    requires c.P1 == 0 && c.P3 == 0 && c.P4 == 0 && c.P5 == 0 && c.P6 == 0
    requires 0 <= raw < 0x10_0000
    ensures CalcPressure(raw, fine, c) == Err(DivisionByZero)
  {
    PressureTermsWithoutCoefficients(fine, c);
    var offset := 1048576 - raw;
    assert I32(offset) == Ok(offset);
    var num := Shl64(offset, 31);
    assert Pow2(31) == 0x8000_0000;
    assert 0 < num == offset * 0x8000_0000 <= 0x8_0000_0000_0000;
    assert I64(num - 0) == Ok(num);
    assert I64(num * 3125) == Ok(num * 3125);
    assert Div64(num * 3125, 0) == Err(DivisionByZero);
  }

  lemma PressureTermsWithoutCoefficients(fine: Int32, c: Calibration)
    requires c.P1 == 0 && c.P3 == 0 && c.P4 == 0 && c.P5 == 0 && c.P6 == 0
    ensures PressureTerms(fine, c) == Ok((0, 0))
  {
    var v1 := fine - 128000;
    MulBound(v1, v1, 0x8000_0000 + 128000, 0x8000_0000 + 128000);
    assert Shl64(0, 17) == 0 && Shl64(0, 35) == 0;
    assert Asr(0, 33) == 0;
  }

  /** Before calibration (every coefficient 0) the fine temperature of a raw reading below
      741376 is 0 and calcPressure divides by zero. */
  lemma UncalibratedCompensation(raw: Int32, fine: Int32)
    requires 0 <= raw < 0xB_5000
    ensures FineTemperature(raw, UNCALIBRATED) == Ok(0)
    ensures CalcPressure(raw, fine, UNCALIBRATED) == Err(DivisionByZero)
  {
    TemperatureWithoutCoefficients(raw, UNCALIBRATED);
    PressureWithoutCoefficients(raw, fine, UNCALIBRATED);
  }
}
