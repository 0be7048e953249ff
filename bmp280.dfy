/**
 * The integer arithmetic of the BMP280 temperature driver, identical in both
 * revisions: little-endian calibration words, the 20-bit raw reading, and the
 * 32-bit fixed-point compensation of section 3.11.3 of the Bosch BMP280
 * datasheet. The I2C transfers that fetch the bytes are not modelled; the bytes
 * are parameters.
 *
 * Shifts are written as arithmetic: `b << k` is b * 2^k, an OR of values whose
 * set bits do not overlap is their sum, and `x >> k` on a signed value is the
 * arithmetic shift, i.e. division by 2^k rounding down (Dafny's `/` with a
 * positive divisor rounds down).
 */
module Bmp280 {

  type byte = x: int | 0 <= x < 256

  /** read_u16: (buf[1] << 8) | buf[0], the little-endian word of two bytes. */
  function ReadU16(buf0: byte, buf1: byte): (r: int)
    ensures 0 <= r < 0x1_0000
  {
    buf1 * 256 + buf0
  }

  /** The two bytes read_u16 assembled come back out of the word, low byte first. */
  lemma ReadU16Bytes(buf0: byte, buf1: byte)
    ensures ReadU16(buf0, buf1) % 256 == buf0
    ensures ReadU16(buf0, buf1) / 256 == buf1
  {
  }

  /** read_s16: the (int16_t) reinterpretation of an unsigned word, two's complement. */
  function ReadS16(u: int): (r: int)
    requires 0 <= u < 0x1_0000
    ensures -0x8000 <= r < 0x8000
    ensures u < 0x8000 ==> r == u
    ensures u >= 0x8000 ==> r < 0
  {
    if u >= 0x8000 then u - 0x1_0000 else u
  }

  /** Casting the signed value back to uint16_t gives the original word. */
  lemma ReadS16RoundTrip(u: int)
    requires 0 <= u < 0x1_0000
    ensures ReadS16(u) % 0x1_0000 == u
  {
  }

  /** The calibration words dig_T1 (unsigned), dig_T2 and dig_T3 (signed). */
  datatype Calibration = Calibration(digT1: int, digT2: int, digT3: int)

  /**
   * bmp280_read_calibration: the six little-endian bytes of registers
   * 0x88..0x8D give dig_T1, dig_T2 and dig_T3.
   */
  function ReadCalibration(regs: seq<byte>): (c: Calibration)
    requires |regs| == 6
    ensures 0 <= c.digT1 < 0x1_0000 && -0x8000 <= c.digT2 < 0x8000 && -0x8000 <= c.digT3 < 0x8000
    ensures c.digT1 == regs[0] as int + 256 * regs[1] as int
    ensures c.digT2 % 0x1_0000 == regs[2] as int + 256 * regs[3] as int
    ensures c.digT3 % 0x1_0000 == regs[4] as int + 256 * regs[5] as int
  {
    ReadS16RoundTrip(ReadU16(regs[2], regs[3]));
    ReadS16RoundTrip(ReadU16(regs[4], regs[5]));
    Calibration(
      ReadU16(regs[0], regs[1]),
      ReadS16(ReadU16(regs[2], regs[3])),
      ReadS16(ReadU16(regs[4], regs[5])))
  }

  /** adc_T: (data[3] << 12) | (data[4] << 4) | (data[5] >> 4), a 20-bit value. */
  function AdcT(msb: byte, lsb: byte, xlsb: byte): (r: int)
    ensures 0 <= r < 0x10_0000
  {
    msb * 4096 + lsb * 16 + xlsb / 16
  }

  /** The 20-bit reading splits back into its fields: msb, lsb and the top 4 bits of xlsb. */
  lemma AdcTFields(msb: byte, lsb: byte, xlsb: byte)
    ensures AdcT(msb, lsb, xlsb) / 4096 == msb
    ensures AdcT(msb, lsb, xlsb) / 16 % 256 == lsb
    ensures AdcT(msb, lsb, xlsb) % 16 == xlsb / 16
  {
    var hi: int := msb as int * 256 + lsb as int;
    assert AdcT(msb, lsb, xlsb) == hi * 16 + xlsb / 16;
  }

  predicate Int32(x: int) {
    -0x8000_0000 <= x < 0x8000_0000
  }

  /** var1 before its shift: ((adc_T >> 3) - (dig_T1 << 1)) * dig_T2. */
  function Var1Product(adcT: int, cal: Calibration): int {
    (adcT / 8 - cal.digT1 * 2) * cal.digT2
  }

  /** The square in var2: ((adc_T >> 4) - dig_T1)^2. */
  function Var2Square(adcT: int, cal: Calibration): int {
    (adcT / 16 - cal.digT1) * (adcT / 16 - cal.digT1)
  }

  /** var2 before its shift by 14. */
  function Var2Product(adcT: int, cal: Calibration): int {
    Var2Square(adcT, cal) / 4096 * cal.digT3
  }

  /** t_fine = var1 + var2. */
  function FineTemperature(adcT: int, cal: Calibration): int {
    Var1Product(adcT, cal) / 2048 + Var2Product(adcT, cal) / 16384
  }

  /** Every intermediate of bmp280_compensate_T fits in int32_t: signed overflow is undefined in C. */
  predicate CompensationFits(adcT: int, cal: Calibration) {
    && Int32(adcT)
    && Int32(Var1Product(adcT, cal))
    && Int32(Var2Square(adcT, cal))
    && Int32(Var2Product(adcT, cal))
    && Int32(FineTemperature(adcT, cal) * 5 + 128)
  }

  /** The fine temperature t_fine (the global the C code writes) and the temperature in 0.01 C. */
  datatype Compensation = Compensation(tFine: int, temp: int)

  /**
   * bmp280_compensate_T: the result is t_fine * 5 / 256 rounded to the nearest
   * hundredth of a degree (halves rounded up), and it fits in int32_t.
   */
  function CompensateT(adcT: int, cal: Calibration): (c: Compensation)
    requires CompensationFits(adcT, cal)
    ensures c.tFine == FineTemperature(adcT, cal)
    ensures Int32(c.temp)
    ensures 256 * c.temp - 128 <= 5 * c.tFine < 256 * c.temp + 128
  {
    var tFine := FineTemperature(adcT, cal);
    Compensation(tFine, (tFine * 5 + 128) / 256)
  }

  /** The worked example of section 3.12 of the BMP280 datasheet: 25.08 C. */
  lemma DatasheetExample()
    ensures CompensationFits(519888, Calibration(27504, 26435, -1000))
    ensures CompensateT(519888, Calibration(27504, 26435, -1000)) == Compensation(128422, 2508)
  {
    var cal := Calibration(27504, 26435, -1000);
    assert 519888 / 8 == 64986 && 519888 / 16 == 32493;
    assert Var1Product(519888, cal) == 263768430;
    assert Var2Square(519888, cal) == 24890121;
    assert Var2Square(519888, cal) / 4096 == 6076;
    assert Var2Product(519888, cal) == -6076000;
    assert Var1Product(519888, cal) / 2048 == 128793;
    assert Var2Product(519888, cal) / 16384 == -371;
    assert FineTemperature(519888, cal) == 128422;
    assert (128422 * 5 + 128) / 256 == 2508;
  }

  /**
   * update_environment_data without the I2C transfer: the burst read from 0xF7
   * holds the temperature in bytes 3..5, compensated with the calibration words.
   */
  function ReadTemperature(data: seq<byte>, cal: Calibration): (c: Compensation)
    requires |data| == 6
    requires CompensationFits(AdcT(data[3], data[4], data[5]), cal)
    ensures c.tFine == FineTemperature(AdcT(data[3], data[4], data[5]), cal)
    ensures 256 * c.temp - 128 <= 5 * c.tFine < 256 * c.temp + 128
  {
    CompensateT(AdcT(data[3], data[4], data[5]), cal)
  }
}
