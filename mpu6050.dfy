/** The register arithmetic of the MPU6050 driver in app.py: a 16-bit
    measurement arrives as a high and a low byte, read from two consecutive
    registers, and is turned into a signed value. The I2C transfers become
    the two byte parameters. */
module Mpu6050 {

  /** One byte read from a register (`readfrom_mem(..., 1)[0]`). */
  type Byte = b: int | 0 <= b < 256

  /** `high << 8 | low`: the shift multiplies by 256 and leaves the low
      eight bits clear, so the OR with a byte adds it. */
  function Word(high: Byte, low: Byte): int
  {
    high * 256 + low
  }

  /** The decode of `read_raw_data` as written: subtract 65536 only from a
      word strictly above 32768. */
  function ReadRawData(high: Byte, low: Byte): (value: int)
  {
    var word := Word(high, low);
    if word > 32768 then word - 0x1_0000 else word
  }

  /** What the as-written decode yields: a value in [-32767, 32768] that
      agrees with the word modulo 2^16, equal to the word itself up to 0x8000. */
  lemma ReadRawDataRange(high: Byte, low: Byte)
    ensures -32767 <= ReadRawData(high, low) <= 32768
    ensures (ReadRawData(high, low) - Word(high, low)) % 0x1_0000 == 0
    ensures Word(high, low) <= 32768 <==> ReadRawData(high, low) == Word(high, low)
  {
  }

  /** The two's-complement reading of the word (the register holds a signed
      16-bit value): subtract 65536 from every word with its top bit set. */
  function SignedValue(high: Byte, low: Byte): (value: int)
    ensures -0x8000 <= value < 0x8000
    ensures (value - Word(high, low)) % 0x1_0000 == 0
    ensures value < 0 <==> high >= 0x80
  {
    var word := Word(high, low);
    if word >= 32768 then word - 0x1_0000 else word
  }

  /** The register bytes that hold a signed 16-bit value. */
  function Encode(value: int): (bytes: (Byte, Byte))
    requires -0x8000 <= value < 0x8000
    ensures Word(bytes.0, bytes.1) == if value < 0 then value + 0x1_0000 else value
  {
    var word := if value < 0 then value + 0x1_0000 else value;
    (word / 256, word % 256)
  }

  /** Decoding what was encoded gives the value back. */
  lemma DecodeEncode(value: int)
    requires -0x8000 <= value < 0x8000
    ensures SignedValue(Encode(value).0, Encode(value).1) == value
  {
  }

  /** Encoding what was decoded gives the bytes back. */
  lemma EncodeDecode(high: Byte, low: Byte)
    ensures Encode(SignedValue(high, low)) == (high, low)
  {
    var word := Word(high, low);
    assert (if SignedValue(high, low) < 0 then SignedValue(high, low) + 0x1_0000 else SignedValue(high, low)) == word;
    assert word / 256 == high && word % 256 == low by {
      DivModUnique(word, high, low);
    }
  }

  /** `Word(high, low)` has quotient `high` and remainder `low` by 256. */
  lemma DivModUnique(word: int, high: Byte, low: Byte)
    requires word == Word(high, low)
    ensures word / 256 == high && word % 256 == low
  {
  }

  /** The as-written decode agrees with the two's-complement one on every
      pair of bytes but one: 0x80 0x00, the most negative reading. */
  lemma ReadRawDataAgrees(high: Byte, low: Byte)
    ensures ReadRawData(high, low) == SignedValue(high, low) <==> !(high == 0x80 && low == 0)
  {
  }

  /** The most negative reading, -32768, comes out of the as-written decode
      as +32768, a value no 16-bit signed register holds. */
  lemma MostNegativeReadingMisdecoded()
    ensures SignedValue(0x80, 0x00) == -32768
    ensures ReadRawData(0x80, 0x00) == 32768
    ensures Encode(-32768) == (0x80, 0x00)
  {
  }

  /** An acceleration axis of `read_accel_data` in g: the register as
      `read_raw_data` decodes it, over 16384. The most negative reading,
      which that decode turns into +32768, comes out as +2 g. */
  function AccelerationValue(high: Byte, low: Byte): (g: real)
    ensures -32767.0 / 16384.0 <= g <= 2.0
    ensures g * 16384.0 == ReadRawData(high, low) as real
  {
    ReadRawDataRange(high, low);
    ReadRawData(high, low) as real / 16384.0
  }

  /** A gyro axis of `read_gyro_data`: the register as `read_raw_data`
      decodes it, over 250. */
  function GyroValue(high: Byte, low: Byte): (rate: real)
    ensures -131.068 <= rate <= 131.072
    ensures rate * 250.0 == ReadRawData(high, low) as real
  {
    ReadRawDataRange(high, low);
    ReadRawData(high, low) as real / 250.0
  }

  /** The acceleration axis over the two's-complement decode: within the
      sensor's [-2, 2) g range. */
  function SignedAccelerationValue(high: Byte, low: Byte): (g: real)
    ensures -2.0 <= g < 2.0
    ensures g * 16384.0 == SignedValue(high, low) as real
  {
    SignedValue(high, low) as real / 16384.0
  }

  /** The gyro axis over the two's-complement decode: within
      [-131.072, 131.072). */
  function SignedGyroValue(high: Byte, low: Byte): (rate: real)
    ensures -131.072 <= rate < 131.072
    ensures rate * 250.0 == SignedValue(high, low) as real
  {
    SignedValue(high, low) as real / 250.0
  }

  /** The scaled axes follow the decode they are built on: they agree with
      the two's-complement ones on every byte pair but 0x80 0x00, where the
      as-written ones give the largest positive reading instead of the most
      negative one. */
  lemma ScaledReadingsAgree(high: Byte, low: Byte)
    ensures AccelerationValue(high, low) == SignedAccelerationValue(high, low) <==> !(high == 0x80 && low == 0)
    ensures GyroValue(high, low) == SignedGyroValue(high, low) <==> !(high == 0x80 && low == 0)
  {
    ReadRawDataAgrees(high, low);
  }

  /** Bytes 0x80 0x00 (-32768 in the register) are read as +2 g and
      +131.072, where the two's-complement reading gives -2 g and -131.072. */
  lemma MostNegativeScaledReading()
    ensures AccelerationValue(0x80, 0x00) == 2.0 && SignedAccelerationValue(0x80, 0x00) == -2.0
    ensures GyroValue(0x80, 0x00) == 131.072 && SignedGyroValue(0x80, 0x00) == -131.072
  {
    MostNegativeReadingMisdecoded();
  }
}
