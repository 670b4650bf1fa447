/** pca9532.c: the PCA9532 LED driver behind the I2C bus. The chip is a bank
    of ten registers (INPUT0, INPUT1, PSC0, PWM0, PSC1, PWM1, LS0..LS3); the
    four LED selector registers LS0..LS3 hold a 2-bit field for each of the
    sixteen pins. The I2C layer (pca9532() in eeprom.c) is not part of this
    model: a transfer is the bytes written, the bytes read back and the code
    the bus reports. */
module Pca9532 {
  import opened ByteOrder

  const REGISTER_COUNT: nat := 10
  /** The two read-only input registers: the levels of pins 0..7 and 8..15. */
  const INPUT0: nat := 0
  const INPUT1: nat := 1
  /** The first LED selector register; LS0 + k holds pins 4k .. 4k + 3. */
  const LS0: nat := 6
  /** The control byte's auto-increment flag. */
  const AUTO_INCREMENT: Byte := 0x10
  /** The bus code of a completed transfer. */
  const I2C_CODE_OK: int := 1
  /** pca9532Init's command: PSC0 with auto-increment, then PSC0, PWM0, PSC1,
      PWM1 and the four selector registers cleared. */
  const INIT_COMMAND: seq<Byte> := [0x12, 0x97, 0x80, 0x00, 0x40, 0x00, 0x00, 0x00, 0x00]
  /** getPca9532Pin's control byte: register 9 with auto-increment. */
  const READ_PINS: Byte := 0x19

  /** The selector field values the driver writes: 01 drives the output
      low and lights the LED, 00 leaves it off. */
  const LED_OFF: nat := 0
  const LED_ON: nat := 1

  /** The selector register setPca9532Pin addresses for a pin. */
  function Selector(pin: Byte): (r: nat)
    ensures LS0 <= r < REGISTER_COUNT
    ensures pin < 16 ==> r == LS0 + pin / 4
  {
    if pin < 4 then 0x06 else if pin < 8 then 0x07 else if pin < 12 then 0x08 else 0x09
  }

  /** The position of the pin's field in its register, `2*(pinNum % 4)`. */
  function Shift(pin: Byte): nat
  {
    2 * (pin % 4)
  }

  lemma ThreeBits(t: nat)
    ensures Bit(3, t) == (t < 2)
  {
    if t >= 2 {
      assert Bit(3, t) == Bit(0, t - 2);
      ZeroBit(t - 2);
    }
  }

  lemma OneBits(t: nat)
    ensures Bit(1, t) == (t == 0)
  {
    if t >= 1 {
      ZeroBit(t - 1);
    }
  }

  lemma MaskBits(pin: Byte)
    ensures Shl(3, Shift(pin)) < 256
    ensures forall i :: 0 <= i < 8 ==> Bit(Shl(3, Shift(pin)), i) == (i / 2 == pin % 4)
  {
    var s := Shift(pin);
    assert Shl(3, s) <= 192 by {
      if s == 0 {} else if s == 2 {} else if s == 4 {} else { assert s == 6; }
    }
    forall i | 0 <= i < 8
      ensures Bit(Shl(3, s), i) == (i / 2 == pin % 4)
    {
      ShlBit(3, s, i);
      if i >= s {
        ThreeBits(i - s);
      }
    }
  }

  /** `3 << 2*(pinNum % 4)`: the mask of exactly the pin's two bits. */
  function Mask(pin: Byte): (m: Byte)
    ensures forall i :: 0 <= i < 8 ==> Bit(m, i) == (i / 2 == pin % 4)
  {
    MaskBits(pin);
    Shl(3, Shift(pin))
  }

  /** The field value setPca9532Pin writes: 01 for value 0, 00 otherwise. */
  function Setting(value: Byte): (f: nat)
    ensures f == LED_ON <==> value == 0
    ensures f == LED_OFF <==> value != 0
  {
    if value == 0 then 0x01 else 0x00
  }

  lemma SettingBits(value: Byte, pin: Byte)
    ensures Shl(Setting(value), Shift(pin)) <= 64
    ensures forall i :: 0 <= i < 8 ==> Bit(Shl(Setting(value), Shift(pin)), i) == (i == Shift(pin) && value == 0)
  {
    var s := Shift(pin);
    var f := Setting(value);
    assert Shl(f, s) <= 64 by {
      if s == 0 {} else if s == 2 {} else if s == 4 {} else { assert s == 6; }
    }
    forall i | 0 <= i < 8
      ensures Bit(Shl(f, s), i) == (i == s && value == 0)
    {
      ShlBit(f, s, i);
      if i >= s {
        OneBits(i - s);
        if f == 0 {
          ZeroBit(i - s);
        }
      }
    }
  }

  /** A register with its 2-bit field k replaced by f. */
  function WithField(reg: nat, k: nat, f: nat): nat
    requires f < 4
    decreases k
  {
    if k == 0 then f + 4 * (reg / 4) else reg % 4 + 4 * WithField(reg / 4, k - 1, f)
  }

  /** Bits 2k and 2k + 1 come from f, every other bit from the register. */
  lemma {:induction false} WithFieldBit(reg: nat, k: nat, f: nat, i: nat)
    requires f < 4
    ensures Bit(WithField(reg, k, f), i) == if i / 2 == k then Bit(f, i % 2) else Bit(reg, i)
    decreases k
  {
    var w := WithField(reg, k, f);
    var low := if k == 0 then f else reg % 4;
    var high := if k == 0 then reg / 4 else WithField(reg / 4, k - 1, f);
    assert w == low + 4 * high;
    DivModUnique(w, 4, high, low);
    DivModUnique(reg, 4, reg / 4, reg % 4);
    assert w / 2 == 2 * high + low / 2 && (w / 2) / 2 == high;
    assert reg / 2 == 2 * (reg / 4) + (reg % 4) / 2 && (reg / 2) / 2 == reg / 4;
    if i >= 2 {
      assert Bit(w, i) == Bit(high, i - 2);
      assert Bit(reg, i) == Bit(reg / 4, i - 2);
      if k > 0 {
        WithFieldBit(reg / 4, k - 1, f, i - 2);
      }
    } else if i == 1 {
      assert Bit(f, 1) == Bit(f / 2, 0);
    }
  }

  lemma {:induction false} WithFieldBelow(reg: nat, k: nat, f: nat, n: nat)
    requires f < 4 && k < n && reg < Pow2(2 * n)
    ensures WithField(reg, k, f) < Pow2(2 * n)
    decreases k
  {
    assert Pow2(2 * n) == 4 * Pow2(2 * (n - 1));
    if k > 0 {
      WithFieldBelow(reg / 4, k - 1, f, n - 1);
    }
  }

  /** The register value setPca9532Pin writes back: the register with the
      pin's field replaced by the setting. */
  function Updated(reg: Byte, pin: Byte, value: Byte): Byte
  {
    assert Pow2(8) == 256;
    WithFieldBelow(reg, pin % 4, Setting(value), 4);
    WithField(reg, pin % 4, Setting(value))
  }

  /** The pin's two bits come from the setting, every other bit is kept. */
  lemma UpdatedBits(reg: Byte, pin: Byte, value: Byte, i: nat)
    ensures Bit(Updated(reg, pin, value), i)
      == if i / 2 == pin % 4 then i % 2 == 0 && value == 0 else Bit(reg, i)
  {
    WithFieldBit(reg, pin % 4, Setting(value), i);
    OneBits(i % 2);
    ZeroBit(i % 2);
  }

  /** setPca9532Pin's own formula computes it: the value read with the
      pin's bits cleared (`regValue &= ~mask`, which on a byte is
      `regValue & (255 - mask)`), ORed with the setting shifted into
      place. */
  lemma SourceFormula(reg: Byte, pin: Byte, value: Byte)
    ensures BitOr(Shl(Setting(value), Shift(pin)), BitAnd(reg, 255 - Mask(pin))) == Updated(reg, pin, value)
  {
    var shifted := Shl(Setting(value), Shift(pin));
    var kept := BitAnd(reg, 255 - Mask(pin));
    SettingBits(value, pin);
    assert Pow2(8) == 256;
    BitOrBelow(shifted, kept, 8);
    forall i | 0 <= i < 8
      ensures Bit(BitOr(shifted, kept), i) == Bit(Updated(reg, pin, value), i)
    {
      BitOrBit(shifted, kept, i);
      BitAndBit(reg, 255 - Mask(pin), i);
      ComplementBit(Mask(pin), 8, i);
      UpdatedBits(reg, pin, value, i);
    }
    BitsEqual(BitOr(shifted, kept), Updated(reg, pin, value), 8);
  }

  /** The 2-bit selector field k of a register. */
  function Field(reg: Byte, k: nat): (f: nat)
    ensures f < 4
  {
    (if Bit(reg, 2 * k) then 1 else 0) + (if Bit(reg, 2 * k + 1) then 2 else 0)
  }

  /** The selector field that drives a pin. */
  function PinState(regs: seq<Byte>, pin: Byte): nat
    requires |regs| == REGISTER_COUNT
  {
    Field(regs[Selector(pin)], pin % 4)
  }

  /** Two pin numbers that address the same field: for pins below 16 only
      the pin itself, while every pin from 12 up lands in register 9. */
  predicate SameField(p: Byte, q: Byte)
  {
    Selector(p) == Selector(q) && p % 4 == q % 4
  }

  lemma SameFieldBelow16(p: Byte, q: Byte)
    requires p < 16 && q < 16
    ensures SameField(p, q) <==> p == q
  {
  }

  /** The read-modify-write sets the addressed pin's field to the setting
      and leaves every other pin's field as it was. */
  lemma SetPinState(regs: seq<Byte>, pin: Byte, value: Byte, q: Byte)
    requires |regs| == REGISTER_COUNT
    ensures PinState(PinSet(regs, pin, value), q) == if SameField(pin, q) then Setting(value) else PinState(regs, q)
  {
    var r := Selector(pin);
    var now := regs[r := Updated(regs[r], pin, value)];
    if Selector(q) == r {
      var k := q % 4;
      UpdatedBits(regs[r], pin, value, 2 * k);
      UpdatedBits(regs[r], pin, value, 2 * k + 1);
    }
  }

  /** The register pointer after k bytes: with auto-increment it steps on and
      rolls over from register 9 to register 0. */
  function Advance(p: nat, autoIncrement: bool, k: nat): (q: nat)
    requires p < REGISTER_COUNT
    ensures q < REGISTER_COUNT
  {
    if autoIncrement then (p + k) % REGISTER_COUNT else p
  }

  /** The registers after data bytes are written from register p on; the
      input registers are read-only. */
  function Stored(regs: seq<Byte>, p: nat, autoIncrement: bool, data: seq<Byte>): (r: seq<Byte>)
    requires |regs| == REGISTER_COUNT && p < REGISTER_COUNT
    ensures |r| == REGISTER_COUNT
    decreases |data|
  {
    if data == [] then regs
    else Stored(if p > INPUT1 then regs[p := data[0]] else regs, Advance(p, autoIncrement, 1), autoIncrement, data[1..])
  }

  /** The n bytes read from register p on. */
  function Loaded(regs: seq<Byte>, p: nat, autoIncrement: bool, n: nat): (r: seq<Byte>)
    requires |regs| == REGISTER_COUNT && p < REGISTER_COUNT
    ensures |r| == n
    decreases n
  {
    if n == 0 then [] else [regs[p]] + Loaded(regs, Advance(p, autoIncrement, 1), autoIncrement, n - 1)
  }

  /** A run of writes with auto-increment that does not roll over fills
      consecutive registers. */
  lemma {:induction false} StoredRun(regs: seq<Byte>, p: nat, data: seq<Byte>)
    requires |regs| == REGISTER_COUNT && INPUT1 < p < REGISTER_COUNT && p + |data| <= REGISTER_COUNT
    ensures Stored(regs, p, true, data) == regs[..p] + data + regs[p + |data|..]
    decreases |data|
  {
    if data != [] {
      var next := regs[p := data[0]];
      if p + 1 < REGISTER_COUNT {
        StoredRun(next, p + 1, data[1..]);
        assert next[..p + 1] == regs[..p] + [data[0]];
        assert next[p + 1 + |data[1..]|..] == regs[p + |data|..];
        assert [data[0]] + data[1..] == data;
      } else {
        assert data[1..] == [];
        assert Stored(regs, p, true, data) == next;
      }
    }
  }

  /** A register written without auto-increment reads back what was
      written. */
  lemma WrittenReadsBack(regs: seq<Byte>, p: nat, v: Byte)
    requires |regs| == REGISTER_COUNT && INPUT1 < p < REGISTER_COUNT
    ensures Loaded(Stored(regs, p, false, [v]), p, false, 1) == [v]
  {
    assert Stored(regs, p, false, [v]) == Stored(regs[p := v], p, false, []);
  }

  /** Whether a control byte asks for auto-increment. */
  predicate AutoIncrements(control: Byte)
  {
    BitAnd(control, AUTO_INCREMENT) != 0
  }

  /** The registers after setPca9532Pin: the pin's selector register
      rewritten with the pin's field set. */
  function PinSet(regs: seq<Byte>, pin: Byte, value: Byte): (r: seq<Byte>)
    requires |regs| == REGISTER_COUNT
    ensures |r| == REGISTER_COUNT
  {
    regs[Selector(pin) := Updated(regs[Selector(pin)], pin, value)]
  }

  /** The two commands setPca9532Pin sends: the selector register's
      address to read it, then the address and the new value. */
  function PinCommands(regs: seq<Byte>, pin: Byte, value: Byte): seq<seq<Byte>>
    requires |regs| == REGISTER_COUNT
  {
    [[Selector(pin) as Byte], [Selector(pin) as Byte, Updated(regs[Selector(pin)], pin, value)]]
  }

  /** The selector registers addressed without auto-increment: one byte
      written sets the register, one byte read returns it. */
  lemma DirectRegister(regs: seq<Byte>, r: Byte, v: Byte)
    requires |regs| == REGISTER_COUNT && LS0 <= r < REGISTER_COUNT
    ensures !AutoIncrements(r) && r % 16 == r
    ensures Loaded(regs, r, false, 1) == [regs[r]] && Stored(regs, r, false, []) == regs
    ensures Stored(regs, r, false, [v]) == regs[r as int := v] && [r, v][1..] == [v]
  {
    if r == 6 {} else if r == 7 {} else if r == 8 {} else { assert r == 9; }
    assert Stored(regs, r, false, [v]) == Stored(regs[r as int := v], r, false, []);
  }

  /** The chip seen through the bus. */
  class Driver {
    /** The chip's ten registers. */
    var regs: seq<Byte>
    /** Every command written to the chip, in order. */
    var sent: seq<seq<Byte>>

    predicate Valid()
      reads this
    {
      |regs| == REGISTER_COUNT
    }

    constructor (initial: seq<Byte>)
      requires |initial| == REGISTER_COUNT
      ensures Valid() && regs == initial && sent == []
    {
      regs := initial;
      sent := [];
    }

    /** pca9532(cmd, len, result, rlen): the control byte cmd[0] selects a
        register in its low four bits and may ask for auto-increment; the
        rest of cmd is written from that register on and rlen bytes are read
        back after them. When the bus reports a failure the chip is taken
        not to have been reached and the bytes read are zero. */
    method Transfer(cmd: seq<Byte>, readLen: nat, code: int) returns (data: seq<Byte>)
      requires Valid() && |cmd| >= 1 && cmd[0] % 16 < REGISTER_COUNT
      modifies this
      ensures Valid() && sent == old(sent) + [cmd]
      ensures var p, ai := cmd[0] % 16, AutoIncrements(cmd[0]);
        if code == I2C_CODE_OK then
          regs == Stored(old(regs), p, ai, cmd[1..]) && data == Loaded(regs, Advance(p, ai, |cmd| - 1), ai, readLen)
        else
          regs == old(regs) && data == seq(readLen, _ => 0)
    {
      sent := sent + [cmd];
      var p, ai := cmd[0] % 16, AutoIncrements(cmd[0]);
      if code == I2C_CODE_OK {
        regs := Stored(regs, p, ai, cmd[1..]);
        data := Loaded(regs, Advance(p, ai, |cmd| - 1), ai, readLen);
      } else {
        data := seq(readLen, _ => 0);
      }
    }

    /** pca9532Init: the initial command, and whether the bus reported it
        done; `code` is what the bus reports. */
    method Init(code: int) returns (ok: bool)
      requires Valid()
      modifies this
      ensures Valid() && sent == old(sent) + [INIT_COMMAND]
      ensures ok <==> code == I2C_CODE_OK
      ensures ok ==> regs == old(regs)[..2] + INIT_COMMAND[1..]
      ensures !ok ==> regs == old(regs)
    {
      assert AutoIncrements(INIT_COMMAND[0]);
      ghost var before := regs;
      var _ := Transfer(INIT_COMMAND, 0, code);
      if code == I2C_CODE_OK {
        StoredRun(before, 2, INIT_COMMAND[1..]);
        assert before[2 + 8..] == [];
      }
      ok := code == I2C_CODE_OK;
    }

    /** setPca9532Pin. Its I2C codes are not looked at, and the transfers
        are taken to complete. */
    method SetPin(pin: Byte, value: Byte)
      requires Valid()
      modifies this
      ensures Valid()
      ensures regs == PinSet(old(regs), pin, value)
      ensures sent == old(sent) + PinCommands(old(regs), pin, value)
    {
      var r := Selector(pin) as Byte;
      ghost var before := regs;
      DirectRegister(before, r, 0);
      var got := Transfer([r], 1, I2C_CODE_OK);
      var regValue: nat := got[0];
      var mask := Mask(pin);
      regValue := BitAnd(regValue, 255 - mask);
      var setting: nat := if value == 0 then 0x01 else 0x00;
      setting := Shl(setting, Shift(pin));
      setting := BitOr(setting, regValue);
      SourceFormula(before[r], pin, value);
      assert setting == Updated(before[r], pin, value);
      DirectRegister(before, r, setting);
      var _ := Transfer([r, setting], 0, I2C_CODE_OK);
    }

    /** getPca9532Pin: three bytes read from register 9 on roll over to the
        two input registers, which make the 16-bit pin levels. */
    method GetPin() returns (levels: U16)
      requires Valid()
      modifies this
      ensures Valid() && regs == old(regs) && sent == old(sent) + [[READ_PINS]]
      ensures levels == regs[INPUT0] as int + 256 * regs[INPUT1] as int
    {
      ReadPinsRollsOver(regs);
      var got := Transfer([READ_PINS], 3, I2C_CODE_OK);
      assert [READ_PINS][1..] == [];
      PinLevels(got[1], got[2]);
      levels := BitOr(got[1], Shl(got[2], 8));
    }
  }

  /** The read command starts at register 9 with auto-increment, writes
      nothing, and its three bytes roll over from register 9 to the two
      input registers. */
  lemma ReadPinsRollsOver(regs: seq<Byte>)
    requires |regs| == REGISTER_COUNT
    ensures AutoIncrements(READ_PINS) && READ_PINS % 16 == 9
    ensures Stored(regs, 9, true, []) == regs
    ensures Loaded(regs, Advance(9, true, 0), true, 3) == [regs[9], regs[0], regs[1]]
  {
    assert Loaded(regs, 0, true, 2) == [regs[0]] + Loaded(regs, 1, true, 1);
  }

  /** The low input byte or-ed with the high one shifted up by 8 is the
      16-bit number they make. */
  lemma PinLevels(lo: Byte, hi: Byte)
    ensures BitOr(lo, Shl(hi, 8)) == lo as int + 256 * hi as int
  {
    assert Pow2(8) == 256;
    ShlMul(hi, 8);
    BitOrShl(lo, hi, 8);
  }

  /** After the initial command every LED is off. */
  lemma InitLedsOff(regs: seq<Byte>, pin: Byte)
    requires |regs| == REGISTER_COUNT
    ensures PinState(regs[..2] + INIT_COMMAND[1..], pin) == LED_OFF
  {
    var now := regs[..2] + INIT_COMMAND[1..];
    assert now[Selector(pin)] == 0;
    ZeroBit(2 * (pin % 4));
    ZeroBit(2 * (pin % 4) + 1);
  }
}
