/** adc.c: the temperature the game speed follows, read from the LM75
    sensor over I2C. The I2C read (lm75Read) is outside the model: its
    return code and the three bytes it fills in are inputs. */
module Adc {
  import opened ByteOrder

  /** lm75Read's code for a completed read. */
  const LM75_OK: int := 1
  /** The half-degree reading assumed when the sensor does not answer. */
  const FALLBACK_HALF_DEGREES: U16 := 52

  /** The sensor's two temperature bytes as the 9-bit reading in half
      degrees: `((d0 << 8) + d1) >> 7` on 16 bits. */
  function HalfDegrees(d0: Byte, d1: Byte): (h: U16)
  {
    U16Of(Shl(d0, 8) + d1) / 128
  }

  /** getTemperature: the reading halved, or 52 / 2 when the read fails.
      `data` is the 3-byte buffer lm75Read fills; its third byte is never
      used. */
  function GetTemperature(status: int, data: seq<Byte>): (t: U16)
    requires |data| == 3
    ensures status != LM75_OK ==> t == 26
    ensures status == LM75_OK ==> t == data[0]
  {
    TemperatureIsHighByte(data[0], data[1]);
    (if status == LM75_OK then HalfDegrees(data[0], data[1]) else FALLBACK_HALF_DEGREES) / 2
  }

  /** For 8-bit sensor bytes the shift and the halving leave the whole
      degrees, the high byte: the low byte and its fraction drop out. */
  lemma TemperatureIsHighByte(d0: Byte, d1: Byte)
    ensures HalfDegrees(d0, d1) / 2 == d0
    ensures HalfDegrees(d0, d1) % 2 == d1 / 128
  {
    ShlMul(d0, 8);
    assert Pow2(8) == 256;
    var w := 256 * d0 + d1;
    assert w < TWO16;
    FitsUnchanged(w);
    DivModUnique(w, 128, 2 * d0 + d1 / 128, d1 % 128);
  }
}
