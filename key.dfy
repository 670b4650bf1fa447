/** key.c: the joystick. Five active-low switches on GPIO port 0 are
    sampled, each press is latched once into activeKey, and the game takes
    the latched key with a read-and-clear. In the source a separate process
    samples every 50 ms while the game process reads activeKey; here the
    two are calls on one sequential state machine, and the port's pin
    register IOPIN is an input of each sample. */
module Key {
  import opened ByteOrder

  /** The key codes of key.h, one bit each. */
  const KEY_NOTHING: Byte := 0x00
  const KEY_UP: Byte := 0x01
  const KEY_RIGHT: Byte := 0x02
  const KEY_DOWN: Byte := 0x04
  const KEY_LEFT: Byte := 0x08
  const KEY_CENTER: Byte := 0x10

  /** The port pins the switches pull low. */
  const KEYPIN_CENTER: U32 := 0x0000_0100
  const KEYPIN_UP: U32 := 0x0000_0400
  const KEYPIN_DOWN: U32 := 0x0000_1000
  const KEYPIN_LEFT: U32 := 0x0000_0200
  const KEYPIN_RIGHT: U32 := 0x0000_0800

  /** The five switches, in the order sampleKey looks at them. */
  datatype Key = Center | Up | Down | Left | Right

  const ORDER: seq<Key> := [Center, Up, Down, Left, Right]

  /** The bit of a key's code. */
  function CodeBit(k: Key): nat
  {
    match k
    case Center => 4
    case Up => 0
    case Down => 2
    case Left => 3
    case Right => 1
  }

  function Code(k: Key): Byte
  {
    match k
    case Center => KEY_CENTER
    case Up => KEY_UP
    case Down => KEY_DOWN
    case Left => KEY_LEFT
    case Right => KEY_RIGHT
  }

  /** The bit of a key's port pin. */
  function PinBit(k: Key): nat
  {
    match k
    case Center => 8
    case Up => 10
    case Down => 12
    case Left => 9
    case Right => 11
  }

  function PinMask(k: Key): U32
  {
    match k
    case Center => KEYPIN_CENTER
    case Up => KEYPIN_UP
    case Down => KEYPIN_DOWN
    case Left => KEYPIN_LEFT
    case Right => KEYPIN_RIGHT
  }

  /** Each key's code and pin mask are the single bits CodeBit and PinBit. */
  lemma SingleBits(k: Key)
    ensures Code(k) == Pow2(CodeBit(k)) && PinMask(k) == Pow2(PinBit(k))
  {
    assert Pow2(4) == 16;
    assert Pow2(8) == 256;
    assert Pow2(9) == 2 * Pow2(8);
    assert Pow2(10) == 2 * Pow2(9);
    assert Pow2(11) == 2 * Pow2(10);
    assert Pow2(12) == 2 * Pow2(11);
  }

  /** `readKeys & KEY_...`: the key is in a set of key codes. */
  predicate Held(keys: Byte, k: Key)
  {
    BitAnd(keys, Code(k)) != 0
  }

  /** One switch of getKeys: `if ((IOPIN & pin) == 0) readKeys |= key`. */
  function Poll(readKeys: nat, pins: U32, k: Key): nat
  {
    if BitAnd(pins, PinMask(k)) == 0 then BitOr(readKeys, Code(k)) else readKeys
  }

  lemma {:induction false} Pow2Bit(b: nat, i: nat)
    ensures Bit(Pow2(b), i) == (i == b)
  {
    if b == 0 && i > 0 {
      ZeroBit(i - 1);
    } else if b > 0 && i > 0 {
      Pow2Bit(b - 1, i - 1);
    }
  }

  lemma {:induction false} PollBit(readKeys: nat, pins: U32, k: Key, i: nat)
    ensures Bit(Poll(readKeys, pins, k), i) == (Bit(readKeys, i) || (i == CodeBit(k) && !Bit(pins, PinBit(k))))
  {
    SingleBits(k);
    BitAndPow2(pins, PinBit(k));
    BitOrBit(readKeys, Code(k), i);
    Pow2Bit(CodeBit(k), i);
  }

  lemma {:induction false} PollBelow(readKeys: nat, pins: U32, k: Key)
    requires readKeys < 32
    ensures Poll(readKeys, pins, k) < 32
  {
    assert Pow2(5) == 32;
    SingleBits(k);
    assert Code(k) < 32;
    BitOrBelow(readKeys, Code(k), 5);
  }

  /** getKeys: the keys whose switches pull their pins low. */
  function GetKeys(pins: U32): (keys: Byte)
    ensures keys < 32
  {
    PollBelow(0, pins, Center);
    PollBelow(Poll(0, pins, Center), pins, Up);
    PollBelow(Poll(Poll(0, pins, Center), pins, Up), pins, Down);
    PollBelow(Poll(Poll(Poll(0, pins, Center), pins, Up), pins, Down), pins, Left);
    PollBelow(Poll(Poll(Poll(Poll(0, pins, Center), pins, Up), pins, Down), pins, Left), pins, Right);
    Poll(Poll(Poll(Poll(Poll(KEY_NOTHING, pins, Center), pins, Up), pins, Down), pins, Left), pins, Right)
  }

  /** getKeys sets each key's bit exactly when its active-low pin reads
      0; together with its bound, no other bit is set. */
  lemma {:induction false} GetKeysReports(pins: U32, k: Key)
    ensures Held(GetKeys(pins), k) <==> BitAnd(pins, PinMask(k)) == 0
    ensures Held(GetKeys(pins), k) <==> !Bit(pins, PinBit(k))
  {
    var c := CodeBit(k);
    var r1 := Poll(0, pins, Center);
    var r2 := Poll(r1, pins, Up);
    var r3 := Poll(r2, pins, Down);
    var r4 := Poll(r3, pins, Left);
    ZeroBit(c);
    PollBit(0, pins, Center, c);
    PollBit(r1, pins, Up, c);
    PollBit(r2, pins, Down, c);
    PollBit(r3, pins, Left, c);
    PollBit(r4, pins, Right, c);
    SingleBits(k);
    BitAndPow2(GetKeys(pins), c);
    BitAndPow2(pins, PinBit(k));
  }

  /** The keys one sample finds held. */
  datatype Keys = Keys(center: bool, up: bool, down: bool, left: bool, right: bool)

  function In(h: Keys, k: Key): bool
  {
    match k
    case Center => h.center
    case Up => h.up
    case Down => h.down
    case Left => h.left
    case Right => h.right
  }

  /** The keys a set of key codes names, each checked as `readKeys & KEY_...`. */
  function Decode(readKeys: Byte): (h: Keys)
    ensures forall k :: In(h, k) == Held(readKeys, k)
  {
    Keys(Held(readKeys, Center), Held(readKeys, Up), Held(readKeys, Down), Held(readKeys, Left), Held(readKeys, Right))
  }

  /** The flags and the latched key of key.c. */
  datatype KeyState = KeyState(
    centerReleased: bool,
    upReleased: bool,
    downReleased: bool,
    leftReleased: bool,
    rightReleased: bool,
    activeKey: Byte)

  /** At start-up every key counts as released and nothing is latched. */
  const INITIAL: KeyState := KeyState(true, true, true, true, true, KEY_NOTHING)

  function Released(s: KeyState, k: Key): bool
  {
    match k
    case Center => s.centerReleased
    case Up => s.upReleased
    case Down => s.downReleased
    case Left => s.leftReleased
    case Right => s.rightReleased
  }

  /** Two states with the same flags and the same latch are the same. */
  lemma {:induction false} SameState(s: KeyState, t: KeyState)
    requires forall k :: Released(s, k) == Released(t, k)
    requires s.activeKey == t.activeKey
    ensures s == t
  {
    assert Released(s, Center) == Released(t, Center);
    assert Released(s, Up) == Released(t, Up);
    assert Released(s, Down) == Released(t, Down);
    assert Released(s, Left) == Released(t, Left);
    assert Released(s, Right) == Released(t, Right);
  }

  function WithReleased(s: KeyState, k: Key, b: bool): KeyState
  {
    match k
    case Center => s.(centerReleased := b)
    case Up => s.(upReleased := b)
    case Down => s.(downReleased := b)
    case Left => s.(leftReleased := b)
    case Right => s.(rightReleased := b)
  }

  /** A key is newly pressed in a sample when it is held and was released. */
  predicate Fresh(s: KeyState, h: Keys, k: Key)
  {
    In(h, k) && Released(s, k)
  }

  /** One key's part of sampleKey: a held key that was released is
      latched and marked held; a key not held is marked released. */
  function Check(s: KeyState, h: Keys, k: Key): KeyState
  {
    if In(h, k) then
      if Released(s, k) then WithReleased(s, k, false).(activeKey := Code(k)) else s
    else WithReleased(s, k, true)
  }

  /** A check leaves the checked key's flag saying whether it is up, the
      other flags as they were, and latches the key if it is newly
      pressed. */
  lemma CheckOutcome(s: KeyState, h: Keys, k: Key)
    ensures Released(Check(s, h, k), k) == !In(h, k)
    ensures forall j :: j != k ==> Released(Check(s, h, k), j) == Released(s, j)
    ensures Check(s, h, k).activeKey == if Fresh(s, h, k) then Code(k) else s.activeKey
  {
  }

  /** The checks of a list of keys, one after the other. */
  function Checked(s: KeyState, h: Keys, ks: seq<Key>): KeyState
  {
    if ks == [] then s else Check(Checked(s, h, ks[..|ks| - 1]), h, ks[|ks| - 1])
  }

  /** sampleKey on the keys found held: the five checks in order. */
  function Sample(s: KeyState, h: Keys): KeyState
  {
    Checked(s, h, ORDER)
  }

  /** The code of the last newly pressed key of ks, or `otherwise`. */
  function LastFresh(s: KeyState, h: Keys, ks: seq<Key>, otherwise: Byte): Byte
  {
    if ks == [] then otherwise
    else if Fresh(s, h, ks[|ks| - 1]) then Code(ks[|ks| - 1])
    else LastFresh(s, h, ks[..|ks| - 1], otherwise)
  }

  lemma {:induction false} NoneFresh(s: KeyState, h: Keys, ks: seq<Key>, otherwise: Byte)
    requires forall k :: !Fresh(s, h, k)
    ensures LastFresh(s, h, ks, otherwise) == otherwise
  {
    if ks != [] {
      NoneFresh(s, h, ks[..|ks| - 1], otherwise);
    }
  }

  predicate Distinct(ks: seq<Key>)
  {
    forall i, j :: 0 <= i < j < |ks| ==> ks[i] != ks[j]
  }

  /** Checking distinct keys in turn leaves each checked key's flag saying
      whether it is up, the others as they were, and the latch on the last
      newly pressed key. */
  lemma {:induction false} CheckedOutcome(s: KeyState, h: Keys, ks: seq<Key>)
    requires Distinct(ks)
    ensures forall k :: Released(Checked(s, h, ks), k) == if k in ks then !In(h, k) else Released(s, k)
    ensures Checked(s, h, ks).activeKey == LastFresh(s, h, ks, s.activeKey)
  {
    if ks != [] {
      var p := ks[..|ks| - 1];
      var last := ks[|ks| - 1];
      CheckedOutcome(s, h, p);
      CheckOutcome(Checked(s, h, p), h, last);
      assert Distinct(p);
      assert forall i :: 0 <= i < |p| ==> p[i] != last;
      forall k
        ensures (k in ks) == (k in p || k == last)
      {
        assert ks == p + [last];
      }
    }
  }

  /** After a sample a key's flag says whether it is up, and the latch holds
      the last newly pressed key in the order center, up, down, left,
      right, or what it held before when there is none. */
  lemma SampleOutcome(s: KeyState, h: Keys)
    ensures forall k :: Released(Sample(s, h), k) == !In(h, k)
    ensures Sample(s, h).activeKey == LastFresh(s, h, ORDER, s.activeKey)
  {
    CheckedOutcome(s, h, ORDER);
    forall k
      ensures k in ORDER
    {
      if k == Center {} else if k == Up {} else if k == Down {} else if k == Left {} else { assert ORDER[4] == k; }
    }
  }

  /** The five checks of sampleKey written out. */
  lemma SampleSteps(s: KeyState, h: Keys)
    ensures Sample(s, h) == Check(Check(Check(Check(Check(s, h, Center), h, Up), h, Down), h, Left), h, Right)
  {
    assert ORDER[..4] == [Center, Up, Down, Left];
    assert ORDER[..4][..3] == [Center, Up, Down];
    assert ORDER[..4][..3][..2] == [Center, Up];
    assert ORDER[..4][..3][..2][..1] == [Center];
    assert [Center][..0] == [];
    assert Checked(s, h, [Center]) == Check(s, h, Center);
    assert Checked(s, h, [Center, Up]) == Check(Checked(s, h, [Center]), h, Up);
    assert Checked(s, h, [Center, Up, Down]) == Check(Checked(s, h, [Center, Up]), h, Down);
    assert Checked(s, h, [Center, Up, Down, Left]) == Check(Checked(s, h, [Center, Up, Down]), h, Left);
  }

  /** A key held across consecutive samples is latched only once: a second
      sample of the same keys changes nothing. */
  lemma {:induction false} SampleIdempotent(s: KeyState, h: Keys)
    ensures Sample(Sample(s, h), h) == Sample(s, h)
  {
    var t := Sample(s, h);
    SampleOutcome(s, h);
    SampleOutcome(t, h);
    NoneFresh(t, h, ORDER, t.activeKey);
    SameState(Sample(t, h), t);
  }

  /** Even when checkKey clears the latch between two samples of the same
      held keys, the second sample latches nothing. */
  lemma {:induction false} HeldReportedOnce(s: KeyState, h: Keys)
    ensures Sample(Sample(s, h).(activeKey := KEY_NOTHING), h).activeKey == KEY_NOTHING
  {
    var t := Sample(s, h).(activeKey := KEY_NOTHING);
    SampleOutcome(s, h);
    assert forall k :: Released(t, k) == Released(Sample(s, h), k);
    SampleOutcome(t, h);
    NoneFresh(t, h, ORDER, KEY_NOTHING);
  }

  /** A key let go for one sample and pressed in the next is latched again. */
  lemma {:induction false} PressedAgain(s: KeyState, up: Keys, down: Keys, k: Key)
    requires !In(up, k) && In(down, k)
    ensures Fresh(Sample(s, up), down, k)
  {
    SampleOutcome(s, up);
  }

  /** The joystick driver's state. */
  class Joystick {
    var centerReleased: bool
    var keyUpReleased: bool
    var keyDownReleased: bool
    var keyLeftReleased: bool
    var keyRightReleased: bool
    var activeKey: Byte

    function State(): KeyState
      reads this
    {
      KeyState(centerReleased, keyUpReleased, keyDownReleased, keyLeftReleased, keyRightReleased, activeKey)
    }

    constructor ()
      ensures State() == INITIAL
    {
      centerReleased := true;
      keyUpReleased := true;
      keyDownReleased := true;
      keyLeftReleased := true;
      keyRightReleased := true;
      activeKey := KEY_NOTHING;
    }

    /** checkKey: the latched key, and the latch cleared. */
    method CheckKey() returns (key: Byte)
      modifies this`activeKey
      ensures key == old(activeKey) && activeKey == KEY_NOTHING
    {
      key := activeKey;
      activeKey := KEY_NOTHING;
    }

    /** checkKeyStatus: a released key is latched and its flag, returned
        here instead of through the pointer, becomes held. */
    method CheckKeyStatus(key: Byte, keyReleased: bool) returns (releasedAfter: bool)
      modifies this`activeKey
      ensures keyReleased ==> !releasedAfter && activeKey == key
      ensures !keyReleased ==> !releasedAfter && activeKey == old(activeKey)
    {
      releasedAfter := keyReleased;
      if releasedAfter {
        releasedAfter := false;
        activeKey := key;
      }
    }

    /** sampleKey's test of the center key. */
    method SampleCenter(readKeys: Byte)
      modifies this
      ensures State() == Check(old(State()), Decode(readKeys), Center)
    {
      if BitAnd(readKeys, KEY_CENTER) != 0 {
        centerReleased := CheckKeyStatus(KEY_CENTER, centerReleased);
      } else {
        centerReleased := true;
      }
    }

    /** sampleKey's test of the up key. */
    method SampleUp(readKeys: Byte)
      modifies this
      ensures State() == Check(old(State()), Decode(readKeys), Up)
    {
      if BitAnd(readKeys, KEY_UP) != 0 {
        keyUpReleased := CheckKeyStatus(KEY_UP, keyUpReleased);
      } else {
        keyUpReleased := true;
      }
    }

    /** sampleKey's test of the down key. */
    method SampleDown(readKeys: Byte)
      modifies this
      ensures State() == Check(old(State()), Decode(readKeys), Down)
    {
      if BitAnd(readKeys, KEY_DOWN) != 0 {
        keyDownReleased := CheckKeyStatus(KEY_DOWN, keyDownReleased);
      } else {
        keyDownReleased := true;
      }
    }

    /** sampleKey's test of the left key. */
    method SampleLeft(readKeys: Byte)
      modifies this
      ensures State() == Check(old(State()), Decode(readKeys), Left)
    {
      if BitAnd(readKeys, KEY_LEFT) != 0 {
        keyLeftReleased := CheckKeyStatus(KEY_LEFT, keyLeftReleased);
      } else {
        keyLeftReleased := true;
      }
    }

    /** sampleKey's test of the right key. */
    method SampleRight(readKeys: Byte)
      modifies this
      ensures State() == Check(old(State()), Decode(readKeys), Right)
    {
      if BitAnd(readKeys, KEY_RIGHT) != 0 {
        keyRightReleased := CheckKeyStatus(KEY_RIGHT, keyRightReleased);
      } else {
        keyRightReleased := true;
      }
    }

    /** sampleKey with the port reading `pins`: the five keys checked in
        the order center, up, down, left, right. The source's local
        `nothing` is written but never read, so it is left out. */
    method SampleKey(pins: U32)
      modifies this
      ensures State() == Sample(old(State()), Decode(GetKeys(pins)))
    {
      var readKeys := GetKeys(pins);
      SampleSteps(State(), Decode(readKeys));
      SampleCenter(readKeys);
      SampleUp(readKeys);
      SampleDown(readKeys);
      SampleLeft(readKeys);
      SampleRight(readKeys);
    }
  }
}
