/** spi.c: the SPI0 master that the SD card hangs off. The card is seen only
    through the bus: every transfer writes one byte and clocks one byte back.
    The card is an input stream of answers and the bus keeps a log of every
    byte written. */
module Spi {
  import opened ByteOrder

  /** SPI_PRESCALE_MIN: the smallest prescale the driver ever programs. */
  const SPI_PRESCALE_MIN: Byte := 64
  /** The byte sent while only clocking, and the card's idle answer. */
  const IDLE: Byte := 0xFF

  /** The card's answer to the n-th transfer: its recorded stream, then
      the idle level once the stream is used up. */
  function Answer(card: seq<Byte>, n: nat): Byte
  {
    if n < |card| then card[n] else IDLE
  }

  /** n transfers of the idle byte. */
  function Idle(n: nat): (s: seq<Byte>)
    ensures |s| == n && forall k :: 0 <= k < n ==> s[k] == IDLE
  {
    seq(n, _ => IDLE)
  }

  lemma IdleSplit(m: nat, n: nat)
    ensures Idle(m) + Idle(n) == Idle(m + n)
  {
    assert forall k :: 0 <= k < m + n ==> (Idle(m) + Idle(n))[k] == IDLE;
  }

  /** setSpiSpeed: the prescale it programs for a requested speed, bit 0
      cleared and raised to the minimum. */
  function Prescale(speed: Byte): Byte
  {
    var even := BitAnd(speed, 0xFE);
    if even < SPI_PRESCALE_MIN then SPI_PRESCALE_MIN else even
  }

  /** `speed & 0xFE` clears bit 0 of a byte and keeps the rest. */
  lemma ClearBitZero(speed: Byte)
    ensures BitAnd(speed, 0xFE) == speed - speed % 2
  {
    if speed > 0 {
      var h := speed / 2;
      assert speed == 2 * h + speed % 2 && h < 128;
      assert Pow2(7) == 128;
      BitAndLowMask(h, 7);
      assert h % 128 == h;
      assert BitAnd(h, 0x7F) == h;
      assert BitAnd(speed, 0xFE) == 2 * BitAnd(h, 0x7F);
    }
  }

  /** The programmed prescale is even and at least the minimum; an even
      request at or above the minimum is kept as it is. */
  lemma PrescaleRange(speed: Byte)
    ensures Prescale(speed) % 2 == 0
    ensures Prescale(speed) >= SPI_PRESCALE_MIN
    ensures speed % 2 == 0 && speed >= SPI_PRESCALE_MIN ==> Prescale(speed) == speed
    ensures speed % 2 == 1 && speed > SPI_PRESCALE_MIN ==> Prescale(speed) == speed - 1
    ensures speed <= SPI_PRESCALE_MIN ==> Prescale(speed) == SPI_PRESCALE_MIN
  {
    ClearBitZero(speed);
  }

  /** Programming the prescale twice is the same as once. */
  lemma PrescaleIdempotent(speed: Byte)
    ensures Prescale(Prescale(speed)) == Prescale(speed)
  {
    PrescaleRange(speed);
    PrescaleRange(Prescale(speed));
  }

  /** The bus: the card's answers, the MOSI log, the chip-select line and the
      prescale register. */
  class Bus {
    /** The card's answers, transfer by transfer. */
    const card: seq<Byte>
    /** Every byte written to the data register S0SPDR, in order. */
    var sent: seq<Byte>
    /** The card's chip select is asserted. */
    var selected: bool
    /** The prescale register S0SPCCR. */
    var prescale: Byte

    constructor (answers: seq<Byte>, reg: Byte)
      ensures card == answers && sent == [] && !selected && prescale == reg
    {
      card := answers;
      sent := [];
      selected := false;
      prescale := reg;
    }

    /** spiSend (and its twin my_spiSend): one write of the data register,
        returning the byte read back once the transfer completes. */
    method Send(b: Byte) returns (incoming: Byte)
      modifies this`sent
      ensures sent == old(sent) + [b]
      ensures incoming == Answer(card, |old(sent)|)
    {
      incoming := Answer(card, |sent|);
      sent := sent + [b];
    }

    method Select()
      modifies this`selected
      ensures selected
    {
      selected := true;
    }

    method Unselect()
      modifies this`selected
      ensures !selected
    {
      selected := false;
    }

    /** setSpiSpeed. */
    method SetSpeed(speed: Byte)
      modifies this`prescale
      ensures prescale == Prescale(speed)
    {
      var s := BitAnd(speed, 0xFE);
      if s < SPI_PRESCALE_MIN {
        s := SPI_PRESCALE_MIN;
      }
      prescale := s;
    }

    /** initSpi: the card deselected, the slowest even prescale, then 21 idle
        bytes clocked with the card not selected. */
    method Init()
      modifies this`sent, this`selected, this`prescale
      ensures !selected && prescale == 254
      ensures sent == old(sent) + Idle(21)
    {
      Unselect();
      SetSpeed(254);
      ClearBitZero(254);
      var i := 0;
      while i < 21
        invariant 0 <= i <= 21 && sent == old(sent) + Idle(i)
        invariant !selected && prescale == 254
      {
        var _ := Send(IDLE);
        IdleSplit(i, 1);
        i := i + 1;
      }
    }
  }
}
