/** Decoding of the trimming (calibration) registers into the Calibration record
    (source/bme280.cpp:90-125), following the register layout of section 4.2.2 of the
    Bosch BME280 datasheet, together with the encoding that inverts it. */
module Trimming {
  import opened Machine
  import opened Defs

  /** `(hi << 8) | lo` as an unsigned 16-bit word; the two bytes occupy disjoint bits,
      so the or is a sum. */
  function Word(lo: Byte, hi: Byte): (w: UInt16)
    ensures w / 0x100 == hi && w % 0x100 == lo
  {
    hi * 0x100 + lo
  }

  /** `(int16_t)((hi << 8) | lo)`: the word read as two's complement. */
  function SignedWord(lo: Byte, hi: Byte): (v: Int16)
    ensures (v - (hi as int * 256 + lo)) % 0x1_0000 == 0
    ensures v < 0 <==> hi >= 0x80
  {
    var w := Word(lo, hi);
    if w < 0x8000 then w else w - 0x1_0000
  }

  /** `(int8_t)b`. */
  function SignedByte(b: Byte): (v: Int8)
    ensures (v - b) % 0x100 == 0
    ensures v < 0 <==> b >= 0x80
  {
    if b < 0x80 then b else b - 0x100
  }

  /** The two bytes, low byte first, that hold v as a 16-bit word (two's complement when negative). */
  function LittleEndian(v: int): (b: seq<Byte>)
    requires -0x8000 <= v < 0x1_0000
    ensures |b| == 2
  {
    var u := v % 0x1_0000;
    [u % 0x100, u / 0x100]
  }

  lemma WordRoundTrip(v: UInt16)
    ensures Word(LittleEndian(v)[0], LittleEndian(v)[1]) == v
  {
  }

  lemma SignedWordRoundTrip(v: Int16)
    ensures SignedWord(LittleEndian(v)[0], LittleEndian(v)[1]) == v
  {
  }

  lemma WordBytes(lo: Byte, hi: Byte)
    ensures LittleEndian(Word(lo, hi)) == [lo, hi]
    ensures LittleEndian(SignedWord(lo, hi)) == [lo, hi]
  {
    var w := Word(lo, hi);
    assert w % 0x1_0000 == w;
    assert (w as int - 0x1_0000) % 0x1_0000 == w;
  }

  /** The twelve coefficients of the 24-byte block at 0x88, in block order. */
  function TrimmingWords(c: Calibration): (w: seq<int>)
    ensures |w| == 12 && forall k :: 0 <= k < 12 ==> -0x8000 <= w[k] < 0x1_0000
  {
    [c.T1, c.T2, c.T3, c.P1, c.P2, c.P3, c.P4, c.P5, c.P6, c.P7, c.P8, c.P9]
  }

  /** The temperature and pressure half of calibration(): T1..P9 from the 24-byte block,
      word k at bytes 2k (low) and 2k + 1 (high); T1 and P1 unsigned, the others signed. */
  function WithTrimming(c: Calibration, block: seq<Byte>): (r: Calibration)
    requires |block| == TEMP_PRESS_CALIB_DATA_LEN
    ensures r.T1 == block[1] as int * 256 + block[0] && r.P1 == block[7] as int * 256 + block[6]
    ensures r.(T1 := c.T1, T2 := c.T2, T3 := c.T3, P1 := c.P1, P2 := c.P2, P3 := c.P3,
               P4 := c.P4, P5 := c.P5, P6 := c.P6, P7 := c.P7, P8 := c.P8, P9 := c.P9) == c
  {
    c.(T1 := Word(block[0], block[1]),
       T2 := SignedWord(block[2], block[3]),
       T3 := SignedWord(block[4], block[5]),
       P1 := Word(block[6], block[7]),
       P2 := SignedWord(block[8], block[9]),
       P3 := SignedWord(block[10], block[11]),
       P4 := SignedWord(block[12], block[13]),
       P5 := SignedWord(block[14], block[15]),
       P6 := SignedWord(block[16], block[17]),
       P7 := SignedWord(block[18], block[19]),
       P8 := SignedWord(block[20], block[21]),
       P9 := SignedWord(block[22], block[23]))
  }

  /** The block a sensor with these coefficients holds at 0x88..0x9F: word k, low byte first,
      at bytes 2k and 2k + 1. */
  function EncodeTrimming(c: Calibration): (block: seq<Byte>)
    ensures |block| == TEMP_PRESS_CALIB_DATA_LEN
  {
    var w := TrimmingWords(c);
    seq(TEMP_PRESS_CALIB_DATA_LEN, i requires 0 <= i < TEMP_PRESS_CALIB_DATA_LEN => LittleEndian(w[i / 2])[i % 2])
  }

  /** Byte 2k of the encoding is the low byte of word k, byte 2k + 1 its high byte. */
  lemma EncodedWord(c: Calibration, k: nat)
    requires k < 12
    ensures EncodeTrimming(c)[2 * k] == LittleEndian(TrimmingWords(c)[k])[0]
    ensures EncodeTrimming(c)[2 * k + 1] == LittleEndian(TrimmingWords(c)[k])[1]
  {
    assert (2 * k) / 2 == k && (2 * k) % 2 == 0;
    assert (2 * k + 1) / 2 == k && (2 * k + 1) % 2 == 1;
  }

  /** Decoding recovers every temperature and pressure coefficient that was encoded. */
  lemma {:induction false} TrimmingRoundTrip(c: Calibration)
    ensures WithTrimming(c, EncodeTrimming(c)) == c
  {
    EncodedWord(c, 0);
    EncodedWord(c, 1);
    EncodedWord(c, 2);
    EncodedWord(c, 3);
    EncodedWord(c, 4);
    EncodedWord(c, 5);
    EncodedWord(c, 6);
    EncodedWord(c, 7);
    EncodedWord(c, 8);
    EncodedWord(c, 9);
    EncodedWord(c, 10);
    EncodedWord(c, 11);
    WordRoundTrip(c.T1);
    WordRoundTrip(c.P1);
    SignedWordRoundTrip(c.T2);
    SignedWordRoundTrip(c.T3);
    SignedWordRoundTrip(c.P2);
    SignedWordRoundTrip(c.P3);
    SignedWordRoundTrip(c.P4);
    SignedWordRoundTrip(c.P5);
    SignedWordRoundTrip(c.P6);
    SignedWordRoundTrip(c.P7);
    SignedWordRoundTrip(c.P8);
    SignedWordRoundTrip(c.P9);
  }

  /** Word k of the decoded coefficients is encoded back into bytes 2k and 2k + 1. */
  lemma DecodedWord(c: Calibration, block: seq<Byte>, k: nat)
    requires |block| == TEMP_PRESS_CALIB_DATA_LEN && k < 12
    ensures LittleEndian(TrimmingWords(WithTrimming(c, block))[k]) == [block[2 * k], block[2 * k + 1]]
  {
    var w := TrimmingWords(WithTrimming(c, block));
    WordBytes(block[2 * k], block[2 * k + 1]);
    if k == 0 || k == 3 {
      assert w[k] == Word(block[2 * k], block[2 * k + 1]);
    } else {
      assert w[k] == SignedWord(block[2 * k], block[2 * k + 1]);
    }
  }

  /** Every 24-byte block is the encoding of the coefficients decoded from it: no byte is
      lost, so each coefficient is the (signed or unsigned) word at bytes 2k and 2k + 1. */
  lemma {:induction false} TrimmingBytesRoundTrip(c: Calibration, block: seq<Byte>)
    requires |block| == TEMP_PRESS_CALIB_DATA_LEN
    ensures EncodeTrimming(WithTrimming(c, block)) == block
  {
    var r := WithTrimming(c, block);
    forall i | 0 <= i < TEMP_PRESS_CALIB_DATA_LEN
      ensures EncodeTrimming(r)[i] == block[i]
    {
      var k := i / 2;
      EncodedWord(r, k);
      DecodedWord(c, block, k);
      if i % 2 == 0 {
        assert i == 2 * k;
      } else {
        assert i == 2 * k + 1;
      }
    }
  }

  /** The eight humidity trimming registers in the order calibration() names them:
      0xA1, 0xE1, 0xE2, 0xE3, 0xE4, 0xE5, 0xE6, 0xE7. */
  function HumidityRegisters(regs: seq<Byte>): (h: seq<Byte>)
    requires |regs| == 0x100
    ensures |h| == 8
  {
    [regs[HUM_CALIB_H1], regs[HUM_CALIB_H2_LSB], regs[HUM_CALIB_H2_MSB], regs[HUM_CALIB_H3],
     regs[HUM_CALIB_H4_LSB], regs[HUM_CALIB_H4_MSB], regs[HUM_CALIB_H5_MSB], regs[HUM_CALIB_H6]]
  }

  /** The humidity half of calibration(). H4 and H5 share register 0xE5: H4 takes its low
      nibble below 0xE4, H5 its high nibble below 0xE6. Neither is sign-extended from 12 bits. */
  function WithHumidity(c: Calibration, h: seq<Byte>): (r: Calibration)
    requires |h| == 8
    ensures r.H1 == h[0] && r.H3 == h[3]
    ensures (r.H2 - (h[2] as int * 256 + h[1])) % 0x1_0000 == 0 && (r.H2 < 0 <==> h[2] >= 0x80)
    ensures r.H4 == h[4] as int * 16 + h[5] % 16 && 0 <= r.H4 < 0x1000
    ensures r.H5 == h[6] as int * 16 + h[5] / 16 && 0 <= r.H5 < 0x1000
    ensures (r.H6 - h[7]) % 0x100 == 0 && (r.H6 < 0 <==> h[7] >= 0x80)
    ensures r.(H1 := c.H1, H2 := c.H2, H3 := c.H3, H4 := c.H4, H5 := c.H5, H6 := c.H6) == c
  {
    var h4 := Word(h[4], h[5]);  // 0xE5 << 8 | 0xE4
    var h5 := Word(h[5], h[6]);  // 0xE6 << 8 | 0xE5
    c.(H1 := h[0],
       H2 := SignedWord(h[1], h[2]),
       H3 := h[3],
       H4 := (h4 % 0x100) * 0x10 + (h4 / 0x100) % 0x10,  // (h4 & 0x00FF) << 4 | (h4 & 0x0F00) >> 8
       H5 := h5 / 0x10,                                 // h5 >> 4
       H6 := SignedByte(h[7]))
  }

  /** Coefficients that fit the register layout: H4 and H5 in [0, 4095]. */
  predicate HumidityEncodable(c: Calibration) {
    0 <= c.H4 < 0x1000 && 0 <= c.H5 < 0x1000
  }

  /** The eight register values a sensor with these humidity coefficients holds. */
  function EncodeHumidity(c: Calibration): (h: seq<Byte>)
    requires HumidityEncodable(c)
    ensures |h| == 8
  {
    var h2 := LittleEndian(c.H2);
    [c.H1, h2[0], h2[1], c.H3, c.H4 / 16, (c.H5 % 16) * 16 + c.H4 % 16, c.H5 / 16, c.H6 % 0x100]
  }

  /** Decoding recovers every humidity coefficient that fits the layout. */
  lemma {:induction false} HumidityRoundTrip(c: Calibration)
    requires HumidityEncodable(c)
    ensures WithHumidity(c, EncodeHumidity(c)) == c
  {
    var h := EncodeHumidity(c);
    SignedWordRoundTrip(c.H2);
    assert h[5] % 16 == c.H4 % 16 && h[5] / 16 == c.H5 % 16;
  }

  /** No bit of the eight registers is lost by decoding. */
  lemma {:induction false} HumidityBytesRoundTrip(c: Calibration, h: seq<Byte>)
    requires |h| == 8
    ensures HumidityEncodable(WithHumidity(c, h))
    ensures EncodeHumidity(WithHumidity(c, h)) == h
  {
    var r := WithHumidity(c, h);
    WordBytes(h[1], h[2]);
    assert r.H4 / 16 == h[4] && r.H4 % 16 == h[5] % 16;
    assert r.H5 / 16 == h[6] && r.H5 % 16 == h[5] / 16;
    assert (r.H5 % 16) * 16 + r.H4 % 16 == h[5];
  }

  /** The header calls H4 a 12-bit signed value, but the pattern 0xFF, 0x_F that would read
      as -1 decodes to 4095; a negative H5 such as -50 therefore cannot survive a round trip. */
  lemma TwelveBitPatternsReadUnsigned(c: Calibration)
    ensures WithHumidity(c, [0, 0, 0, 0, 0xFF, 0xFF, 0xFF, 0]).H4 == 4095
    ensures WithHumidity(c, [0, 0, 0, 0, 0xFF, 0xFF, 0xFF, 0]).H5 == 4095
    ensures forall h: seq<Byte> | |h| == 8 :: WithHumidity(c, h).H5 != -50
  {
  }
}
