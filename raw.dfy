/** Assembly of raw ADC values from the measurement registers, and the power-on-reset
    check (source/bme280.cpp:161-170, 194-202, 221-230; reset values from sections
    5.4.7 to 5.4.9 of the BME280 datasheet). */
module Raw {
  import opened Errors
  import opened Machine

  /** getRawTemperature and getRawPressure: `(msb << 12) | (lsb << 4) | (xlsb >> 4)`, a 20-bit
      value, refused while the three registers still hold their reset value 0x80, 0x00, 0x00. */
  function Raw20(msb: Byte, lsb: Byte, xlsb: Byte): (r: Result<Int32>)
    ensures r.Err? <==> msb == 0x80 && lsb == 0 && xlsb == 0
    ensures r.Err? ==> r.error == NotReady
    ensures r.Ok? ==> 0 <= r.value < 0x10_0000
    ensures r.Ok? ==> r.value / 0x1000 == msb && (r.value / 0x10) % 0x100 == lsb
                      && r.value % 0x10 == xlsb / 0x10
  {
    if msb == 0x80 && lsb == 0x00 && xlsb == 0x00 then Err(NotReady)
    else
      var low := xlsb / 0x10;
      DivModOfSum(msb, lsb * 0x10 + low, 0x1000);
      DivModOfSum(msb * 0x100 + lsb, low, 0x10);
      DivModOfSum(msb, lsb, 0x100);
      Ok(msb * 0x1000 + lsb * 0x10 + low)
  }

  /** readRawHumidity: `(msb << 8) | lsb`, a 16-bit value, refused while the two registers
      still hold their reset value 0x80, 0x00. */
  function Raw16(msb: Byte, lsb: Byte): (r: Result<UInt32>)
    ensures r.Err? <==> msb == 0x80 && lsb == 0
    ensures r.Err? ==> r.error == NotReady
    ensures r.Ok? ==> 0 <= r.value < 0x1_0000 && r.value / 0x100 == msb && r.value % 0x100 == lsb
  {
    if msb == 0x80 && lsb == 0x00 then Err(NotReady)
    else Ok(msb * 0x100 + lsb)
  }

  /** The three registers, MSB first, in which the sensor reports a 20-bit value
      (the low nibble of the XLSB register is unused). */
  function Bytes20(raw: int): (b: seq<Byte>)
    requires 0 <= raw < 0x10_0000
    ensures |b| == 3 && b[2] % 0x10 == 0
  {
    [raw / 0x1000, (raw / 0x10) % 0x100, (raw % 0x10) * 0x10]
  }

  /** The two registers, MSB first, in which the sensor reports a 16-bit value. */
  function Bytes16(raw: int): (b: seq<Byte>)
    requires 0 <= raw < 0x1_0000
    ensures |b| == 2
  {
    [raw / 0x100, raw % 0x100]
  }

  /** Every 20-bit reading is assembled back exactly, except 0x80000: its bytes are the reset
      pattern, so that one value can never be read. */
  lemma {:induction false} Raw20RoundTrip(raw: int)
    requires 0 <= raw < 0x10_0000
    ensures var b := Bytes20(raw);
            Raw20(b[0], b[1], b[2]) == if raw == 0x8_0000 then Err(NotReady) else Ok(raw)
  {
    var b := Bytes20(raw);
    assert raw == b[0] as int * 0x1000 + b[1] as int * 0x10 + b[2] / 0x10;
    if raw != 0x8_0000 {
      assert !(b[0] == 0x80 && b[1] == 0 && b[2] == 0);
    }
  }

  /** Every 16-bit reading is assembled back exactly, except 0x8000, the reset pattern. */
  lemma {:induction false} Raw16RoundTrip(raw: int)
    requires 0 <= raw < 0x1_0000
    ensures var b := Bytes16(raw);
            Raw16(b[0], b[1]) == if raw == 0x8000 then Err(NotReady) else Ok(raw)
  {
    var b := Bytes16(raw);
    assert raw == b[0] as int * 0x100 + b[1];
  }
}
