/** game.c: the glue between the game logic and the board's hardware. The
    screen coordinates of the fields, the direction taken from the
    joystick, the game speed and RGB colour set from the temperature, the
    LEDs of the PCA9532 that show the lives and the time left to eat
    ghosts, and the score texts sent to the alphanumeric display and over
    Bluetooth. The display drivers, the RGB LED's PWM, the process loop and
    its sleeps are outside the model: the text or colour handed to them is
    recorded instead. */
module Game {
  import opened ByteOrder
  import Pacman
  import Key
  import Pca9532
  import Adc

  /** The screen position of the board's top-left corner. */
  const TOP_LEFT_X: nat := 1
  const TOP_LEFT_Y: nat := 1
  /** The side of a field in pixels. */
  const FIELD_SIZE: nat := 6
  /** The side of the colour screen in pixels. */
  const SCREEN_SIZE: nat := 130

  /** gameEnded's values: still playing, lost, won. */
  const GAME_ON: Byte := 0
  const GAME_LOST: Byte := 1
  const GAME_WON: Byte := 2

  /** The C string terminator. */
  const NUL: char := 0 as char

  // ------------------------------------------------------------------
  // Screen coordinates

  /** getX: the left edge of a column, TOP_LEFT_X + column * FIELD_SIZE
      truncated to tU8 on return. */
  function GetX(column: Byte): Byte
  {
    (TOP_LEFT_X + column * FIELD_SIZE) % 256
  }

  /** getY: the top edge of a row, likewise. */
  function GetY(row: Byte): Byte
  {
    (TOP_LEFT_Y + row * FIELD_SIZE) % 256
  }

  /** The column a pixel right of the board's left edge falls in. */
  function ColumnOf(x: Byte): nat
    requires x >= TOP_LEFT_X
  {
    (x - TOP_LEFT_X) / FIELD_SIZE
  }

  /** The row a pixel below the board's top edge falls in. */
  function RowOf(y: Byte): nat
    requires y >= TOP_LEFT_Y
  {
    (y - TOP_LEFT_Y) / FIELD_SIZE
  }

  /** For the 42 columns whose edge fits in a byte, getX does not wrap,
      and the pixels of column c are exactly those ColumnOf maps to c: the
      columns tile the screen edge to edge. */
  lemma ColumnPixels(c: Byte, x: Byte)
    requires c < 42
    ensures GetX(c) == TOP_LEFT_X + FIELD_SIZE * c
    ensures (GetX(c) <= x < GetX(c) + FIELD_SIZE) <==> (x >= TOP_LEFT_X && ColumnOf(x) == c)
  {
    if x >= TOP_LEFT_X {
      DivModUnique(x - TOP_LEFT_X, FIELD_SIZE, (x - TOP_LEFT_X) / FIELD_SIZE, (x - TOP_LEFT_X) % FIELD_SIZE);
    }
  }

  /** The same for getY and the rows. */
  lemma RowPixels(r: Byte, y: Byte)
    requires r < 42
    ensures GetY(r) == TOP_LEFT_Y + FIELD_SIZE * r
    ensures (GetY(r) <= y < GetY(r) + FIELD_SIZE) <==> (y >= TOP_LEFT_Y && RowOf(y) == r)
  {
    if y >= TOP_LEFT_Y {
      DivModUnique(y - TOP_LEFT_Y, FIELD_SIZE, (y - TOP_LEFT_Y) / FIELD_SIZE, (y - TOP_LEFT_Y) % FIELD_SIZE);
    }
  }

  /** Every field of the 21 x 21 board lies on the screen. */
  lemma BoardOnScreen(c: Byte, r: Byte)
    requires c < Pacman.BOARD_WIDTH && r < Pacman.BOARD_HEIGHT
    ensures GetX(c) + FIELD_SIZE <= SCREEN_SIZE && GetY(r) + FIELD_SIZE <= SCREEN_SIZE
  {
  }

  // ------------------------------------------------------------------
  // Direction from the joystick

  /** The joystick code that steers in a direction. */
  function KeyOf(d: Pacman.Direction): Byte
  {
    match d
    case LEFT => Key.KEY_LEFT
    case RIGHT => Key.KEY_RIGHT
    case UP => Key.KEY_UP
    case DOWN => Key.KEY_DOWN
  }

  /** changeDirection's choice: the direction whose key was registered,
      the current direction for any other code. */
  function Steer(pressed: Byte, current: Pacman.Direction): (d: Pacman.Direction)
    ensures forall e :: pressed == KeyOf(e) ==> d == e
    ensures d == current || pressed == KeyOf(d)
  {
    if Key.KEY_NOTHING != pressed then
      if pressed == Key.KEY_UP then Pacman.UP
      else if pressed == Key.KEY_RIGHT then Pacman.RIGHT
      else if pressed == Key.KEY_DOWN then Pacman.DOWN
      else if pressed == Key.KEY_LEFT then Pacman.LEFT
      else current
    else current
  }

  /** A joystick key latched by the key driver steers Pacman in its own
      direction; the center key leaves the direction as it is. */
  lemma JoystickSteers(k: Key.Key, current: Pacman.Direction)
    ensures Steer(Key.Code(k), current) == match k
      case Center => current
      case Up => Pacman.UP
      case Down => Pacman.DOWN
      case Left => Pacman.LEFT
      case Right => Pacman.RIGHT
  {
    if k == Key.Center {
      assert forall e :: Key.Code(k) != KeyOf(e);
    } else {
      assert Key.Code(k) == KeyOf(Steer(Key.Code(k), current));
    }
  }

  // ------------------------------------------------------------------
  // Game speed

  /** changeGameSpeed as written: 6 * (31 - t) converted to the tU8
      timeStep before the test for a non-positive step, which then only
      catches 0. */
  function SpeedAsWritten(t: U16): Byte
  {
    var step := ByteOf(6 * (31 - t));
    if step <= 0 then 6 else step
  }

  /** Above 31 degrees the conversion wraps instead of clamping: at 32
      degrees the game drops from its fastest step to almost its slowest. */
  lemma SpeedAsWrittenWraps()
    ensures SpeedAsWritten(31) == 6 && SpeedAsWritten(32) == 250
  {
  }

  /** The game speed with the step computed and compared as a signed int, so
      every temperature from 31 degrees up gets the fastest step. */
  function GameSpeed(t: U16): (step: Byte)
    ensures 6 <= step <= 186 && step % 6 == 0
  {
    var step := 6 * (31 - t);
    if step <= 0 then 6 else step
  }

  /** A warmer board never makes the game slower, and up to 31 degrees the
      wrap-around cannot be told apart. */
  lemma SpeedMonotone(t: U16, u: U16)
    ensures t <= u ==> GameSpeed(u) <= GameSpeed(t)
    ensures t <= 31 ==> GameSpeed(t) == SpeedAsWritten(t)
  {
  }

  /** A colour of the RGB LED, one byte per channel. */
  datatype Rgb = Rgb(red: Byte, green: Byte, blue: Byte)

  const RED: Rgb := Rgb(255, 0, 0)
  const YELLOW: Rgb := Rgb(255, 255, 0)
  const GREEN: Rgb := Rgb(0, 255, 0)
  const BLUE: Rgb := Rgb(0, 0, 255)

  /** The colour changeGameSpeed shows for a step. */
  function Colour(step: Byte): Rgb
  {
    if step == 6 then RED
    else if step == 12 then YELLOW
    else if step == 18 then GREEN
    else BLUE
  }

  /** The LED turns red from 30 degrees up, yellow at 29, green at 28 and
      blue below. */
  lemma SpeedColour(t: U16)
    ensures Colour(GameSpeed(t)) == if t >= 30 then RED else if t == 29 then YELLOW else if t == 28 then GREEN else BLUE
  {
  }

  // ------------------------------------------------------------------
  // LEDs of the PCA9532

  /** The registers after a run of setPca9532Pin calls, in order. */
  function LedsSet(regs: seq<Byte>, ps: seq<(Byte, Byte)>): (r: seq<Byte>)
    requires |regs| == Pca9532.REGISTER_COUNT
    ensures |r| == Pca9532.REGISTER_COUNT
  {
    if ps == [] then regs
    else Pca9532.PinSet(LedsSet(regs, ps[..|ps| - 1]), ps[|ps| - 1].0, ps[|ps| - 1].1)
  }

  /** The commands a run of setPca9532Pin calls sends. */
  function LedCommands(regs: seq<Byte>, ps: seq<(Byte, Byte)>): seq<seq<Byte>>
    requires |regs| == Pca9532.REGISTER_COUNT
  {
    if ps == [] then []
    else LedCommands(regs, ps[..|ps| - 1]) + Pca9532.PinCommands(LedsSet(regs, ps[..|ps| - 1]), ps[|ps| - 1].0, ps[|ps| - 1].1)
  }

  /** One more call of a run. */
  lemma LedsStep(regs: seq<Byte>, ps: seq<(Byte, Byte)>, n: nat, s: seq<seq<Byte>>)
    requires |regs| == Pca9532.REGISTER_COUNT && n < |ps|
    ensures LedsSet(regs, ps[..n + 1]) == Pca9532.PinSet(LedsSet(regs, ps[..n]), ps[n].0, ps[n].1)
    ensures s + LedCommands(regs, ps[..n + 1])
      == s + LedCommands(regs, ps[..n]) + Pca9532.PinCommands(LedsSet(regs, ps[..n]), ps[n].0, ps[n].1)
  {
    assert ps[..n + 1][..n] == ps[..n];
  }

  /** The field a run leaves for pin q: the setting of the last call that
      addresses q's field, or `otherwise`. */
  function LastSetting(ps: seq<(Byte, Byte)>, q: Byte, otherwise: nat): nat
  {
    if ps == [] then otherwise
    else if Pca9532.SameField(ps[|ps| - 1].0, q) then Pca9532.Setting(ps[|ps| - 1].1)
    else LastSetting(ps[..|ps| - 1], q, otherwise)
  }

  lemma {:induction false} LedsSetState(regs: seq<Byte>, ps: seq<(Byte, Byte)>, q: Byte)
    requires |regs| == Pca9532.REGISTER_COUNT
    ensures Pca9532.PinState(LedsSet(regs, ps), q) == LastSetting(ps, q, Pca9532.PinState(regs, q))
  {
    if ps != [] {
      LedsSetState(regs, ps[..|ps| - 1], q);
      Pca9532.SetPinState(LedsSet(regs, ps[..|ps| - 1]), ps[|ps| - 1].0, ps[|ps| - 1].1, q);
    }
  }

  /** A pin addressed by exactly one call of a run keeps that call's
      setting. */
  lemma {:induction false} LastSettingOnce(ps: seq<(Byte, Byte)>, q: Byte, otherwise: nat, k: nat)
    requires k < |ps| && Pca9532.SameField(ps[k].0, q)
    requires forall m :: 0 <= m < |ps| && m != k ==> !Pca9532.SameField(ps[m].0, q)
    ensures LastSetting(ps, q, otherwise) == Pca9532.Setting(ps[k].1)
  {
    if k != |ps| - 1 {
      var p := ps[..|ps| - 1];
      assert forall m :: 0 <= m < |p| && m != k ==> p[m] == ps[m];
      LastSettingOnce(p, q, otherwise, k);
    }
  }

  /** A pin no call addresses keeps its field. */
  lemma {:induction false} LastSettingNone(ps: seq<(Byte, Byte)>, q: Byte, otherwise: nat)
    requires forall m :: 0 <= m < |ps| ==> !Pca9532.SameField(ps[m].0, q)
    ensures LastSetting(ps, q, otherwise) == otherwise
  {
    if ps != [] {
      var p := ps[..|ps| - 1];
      assert forall m :: 0 <= m < |p| ==> p[m] == ps[m];
      LastSettingNone(p, q, otherwise);
    }
  }

  /** Below 12 a pin shares its field with no other pin number; from 12 to
      15 only with the numbers above 15 that the selector also sends to
      register 9. */
  lemma PinFields(p: Byte, q: Byte)
    ensures p < 12 ==> (Pca9532.SameField(p, q) <==> p == q)
    ensures p < 16 && q < 16 ==> (Pca9532.SameField(p, q) <==> p == q)
  {
  }

  // Lives

  /** lifeLostEventHandler's value for the pins of life i:
      `i > 2 - lives ? 0 : 1`, in int arithmetic. */
  function LifeValue(i: nat, lives: Byte): Byte
  {
    if i > 2 - lives then 0 else 1
  }

  /** The calls lifeLostEventHandler makes: pins i*3 and i*3 + 1 of each
      life i < 3, so pins 2 and 5 are left alone. */
  function LifeSettings(lives: Byte): seq<(Byte, Byte)>
  {
    seq(6, n requires 0 <= n < 6 => ((3 * (n / 2) + n % 2) as Byte, LifeValue(n / 2, lives)))
  }

  lemma LifeElement(lives: Byte, i: nat, j: nat)
    requires i < 3 && j < 2
    ensures |LifeSettings(lives)| == 6
    ensures LifeSettings(lives)[2 * i + j] == ((i * 3 + j) as Byte, LifeValue(i, lives))
  {
    DivModUnique(2 * i + j, 2, i, j);
  }

  /** The call for LED j of life i extends the run of lifeLostEventHandler. */
  lemma LifeStep(regs: seq<Byte>, lives: Byte, i: nat, j: nat, n: nat, s: seq<seq<Byte>>)
    requires |regs| == Pca9532.REGISTER_COUNT && i < 3 && j < 2 && n == 2 * i + j
    ensures LedsSet(regs, LifeSettings(lives)[..n + 1])
      == Pca9532.PinSet(LedsSet(regs, LifeSettings(lives)[..n]), (i * 3 + j) as Byte, LifeValue(i, lives))
    ensures s + LedCommands(regs, LifeSettings(lives)[..n + 1])
      == s + LedCommands(regs, LifeSettings(lives)[..n])
         + Pca9532.PinCommands(LedsSet(regs, LifeSettings(lives)[..n]), (i * 3 + j) as Byte, LifeValue(i, lives))
  {
    LifeElement(lives, i, j);
    LedsStep(regs, LifeSettings(lives), n, s);
  }

  /** The pins that show the lives. */
  predicate LifePin(q: Byte)
  {
    q < 8 && q % 3 != 2
  }

  /** After lifeLostEventHandler the two LEDs of life i are lit exactly
      when i >= 3 - lives, so min(lives, 3) lives show, packed to the
      right; every other pin keeps its field. */
  lemma LivesShown(regs: seq<Byte>, lives: Byte, q: Byte)
    requires |regs| == Pca9532.REGISTER_COUNT
    ensures Pca9532.PinState(LedsSet(regs, LifeSettings(lives)), q)
      == if LifePin(q) then (if q / 3 + lives >= 3 then Pca9532.LED_ON else Pca9532.LED_OFF)
         else Pca9532.PinState(regs, q)
  {
    var ps := LifeSettings(lives);
    LedsSetState(regs, ps, q);
    forall m | 0 <= m < |ps|
      ensures Pca9532.SameField(ps[m].0, q) <==> ps[m].0 == q
      ensures ps[m].0 / 3 == m / 2 && ps[m].0 % 3 == m % 2
    {
      PinFields(ps[m].0, q);
      DivModUnique(ps[m].0, 3, m / 2, m % 2);
    }
    if LifePin(q) {
      var k := 2 * (q / 3) + q % 3;
      assert k / 2 == q / 3 && k % 2 == q % 3;
      assert ps[k].0 == q && ps[k].1 == LifeValue(q / 3, lives);
      LastSettingOnce(ps, q, Pca9532.PinState(regs, q), k);
    } else {
      LastSettingNone(ps, q, Pca9532.PinState(regs, q));
    }
  }

  /** The number of lives the LEDs show. */
  function LivesOnLeds(regs: seq<Byte>): nat
    requires |regs| == Pca9532.REGISTER_COUNT
  {
    (if Pca9532.PinState(regs, 0) == Pca9532.LED_ON then 1 else 0)
    + (if Pca9532.PinState(regs, 3) == Pca9532.LED_ON then 1 else 0)
    + (if Pca9532.PinState(regs, 6) == Pca9532.LED_ON then 1 else 0)
  }

  lemma LivesCounted(regs: seq<Byte>, lives: Byte)
    requires |regs| == Pca9532.REGISTER_COUNT
    ensures LivesOnLeds(LedsSet(regs, LifeSettings(lives))) == if lives < 3 then lives as nat else 3
  {
    LivesShown(regs, lives, 0);
    LivesShown(regs, lives, 3);
    LivesShown(regs, lives, 6);
  }

  // Time left to eat ghosts

  /** displayTimeToEatOnI2C as written: (t + 1) * 8 / INIT_TIME_TO_EAT
      LEDs. */
  function DiodesAsWritten(t: Byte): nat
  {
    (t + 1) * 8 / Pacman.INIT_TIME_TO_EAT
  }

  /** The + 1 does not do what it is there for: with one or two ticks
      left every LED is still dark. */
  lemma DiodesAsWrittenDark()
    ensures DiodesAsWritten(1) == 0 && DiodesAsWritten(2) == 0
  {
  }

  /** The LEDs for the time left: 8 * t / INIT_TIME_TO_EAT rounded up. */
  function Diodes(t: Byte): (d: nat)
    requires t <= Pacman.INIT_TIME_TO_EAT
    ensures d <= 8
    ensures d == 0 <==> t == 0
    ensures t == Pacman.INIT_TIME_TO_EAT ==> d == 8
  {
    (t * 8 + Pacman.INIT_TIME_TO_EAT - 1) / Pacman.INIT_TIME_TO_EAT
  }

  lemma DiodesMonotone(t: Byte, u: Byte)
    requires t <= u <= Pacman.INIT_TIME_TO_EAT
    ensures Diodes(t) <= Diodes(u)
  {

  }

  /** The calls displayTimeToEatOnI2C makes for d lit LEDs: pins 8 + d to
      15 set to 1, then pins 8 to 8 + d - 1 set to 0. */
  function TimeSettings(d: nat): seq<(Byte, Byte)>
    requires d <= 8
  {
    seq(8 - d, k requires 0 <= k < 8 - d => ((8 + d + k) as Byte, 1 as Byte))
    + seq(d, k requires 0 <= k < d => ((8 + k) as Byte, 0 as Byte))
  }

  /** After displayTimeToEatOnI2C pins 8 to 8 + d - 1 are lit, pins 8 + d
      to 15 are dark and pins 0 to 7 keep their fields. */
  lemma TimeShown(regs: seq<Byte>, d: nat, q: Byte)
    requires |regs| == Pca9532.REGISTER_COUNT && d <= 8 && q < 16
    ensures Pca9532.PinState(LedsSet(regs, TimeSettings(d)), q)
      == if q < 8 then Pca9532.PinState(regs, q)
         else if q < 8 + d then Pca9532.LED_ON
         else Pca9532.LED_OFF
  {
    var ps := TimeSettings(d);
    LedsSetState(regs, ps, q);
    forall m | 0 <= m < |ps|
      ensures Pca9532.SameField(ps[m].0, q) <==> ps[m].0 == q
      ensures ps[m].0 == if m < 8 - d then 8 + d + m else m + d
      ensures ps[m].1 == if m < 8 - d then 1 else 0
    {
      TimeElement(d, m);
      PinFields(ps[m].0, q);
    }
    if q < 8 {
      LastSettingNone(ps, q, Pca9532.PinState(regs, q));
    } else if q < 8 + d {
      LastSettingOnce(ps, q, Pca9532.PinState(regs, q), q - d);
    } else {
      LastSettingOnce(ps, q, Pca9532.PinState(regs, q), q - 8 - d);
    }
  }

  lemma TimeElement(d: nat, m: nat)
    requires d <= 8 && m < 8
    ensures |TimeSettings(d)| == 8
    ensures TimeSettings(d)[m] == if m < 8 - d then ((8 + d + m) as Byte, 1 as Byte) else ((m + d) as Byte, 0 as Byte)
  {
  }

  /** The n-th call of displayTimeToEatOnI2C, for `pin`, extends its run:
      pin 8 + d + n set to 1 in the first loop, pin 8 + n - (8 - d) set to 0
      in the second. */
  lemma TimeStep(regs: seq<Byte>, d: nat, n: nat, pin: Byte, value: Byte, s: seq<seq<Byte>>)
    requires |regs| == Pca9532.REGISTER_COUNT && d <= 8 && n < 8
    requires if n < 8 - d then pin == 8 + d + n && value == 1 else pin == n + d && value == 0
    ensures LedsSet(regs, TimeSettings(d)[..n + 1])
      == Pca9532.PinSet(LedsSet(regs, TimeSettings(d)[..n]), pin, value)
    ensures s + LedCommands(regs, TimeSettings(d)[..n + 1])
      == s + LedCommands(regs, TimeSettings(d)[..n]) + Pca9532.PinCommands(LedsSet(regs, TimeSettings(d)[..n]), pin, value)
  {
    TimeElement(d, n);
    LedsStep(regs, TimeSettings(d), n, s);
  }

  // ------------------------------------------------------------------
  // Score texts

  /** The character of a decimal digit, `'0' + d`. */
  function DigitChar(d: nat): char
    requires d < 10
  {
    ('0' as int + d) as char
  }

  /** The decimal digits of n, most significant first; none for 0, as the
      `while (score > 0)` loops write none. */
  function Digits(n: nat): seq<char>
  {
    if n == 0 then [] else Digits(n / 10) + [DigitChar(n % 10)]
  }

  /** The number a string of digits spells. */
  function Value(s: seq<char>): int
  {
    if s == [] then 0 else 10 * Value(s[..|s| - 1]) + (s[|s| - 1] as int - '0' as int)
  }

  /** The digits spell n back, are all decimal digits, start with a non-zero
      digit, and number at most three for a byte. */
  lemma {:induction false} DigitsValue(n: nat)
    ensures Value(Digits(n)) == n
    ensures forall i :: 0 <= i < |Digits(n)| ==> '0' <= Digits(n)[i] <= '9'
    ensures n > 0 ==> Digits(n)[0] != '0'
    ensures n < 10 ==> |Digits(n)| <= 1
    ensures n < 100 ==> |Digits(n)| <= 2
    ensures n < 1000 ==> |Digits(n)| <= 3
  {
    if n > 0 {
      var ds := Digits(n);
      DigitsValue(n / 10);
      assert ds[..|ds| - 1] == Digits(n / 10);
      if n < 10 {
        assert Digits(n / 10) == [];
      }
    }
  }

  function Spaces(n: nat): (s: seq<char>)
    ensures |s| == n && forall i :: 0 <= i < n ==> s[i] == ' '
  {
    seq(n, _ => ' ')
  }

  /** Digits pushed to the right of a field of w characters. */
  function RightAligned(ds: seq<char>, w: nat): (s: seq<char>)
    requires |ds| <= w
    ensures |s| == w && s[w - |ds|..] == ds
    ensures forall i :: 0 <= i < w - |ds| ==> s[i] == ' '
  {
    Spaces(w - |ds|) + ds
  }

  /** The text without its leading spaces. */
  function TrimSpaces(s: seq<char>): seq<char>
  {
    if s != [] && s[0] == ' ' then TrimSpaces(s[1..]) else s
  }

  /** A right-aligned number reads back as the number. */
  lemma {:induction false} RightAlignedValue(n: nat, w: nat)
    requires |Digits(n)| <= w
    ensures Value(TrimSpaces(RightAligned(Digits(n), w))) == n
  {
    DigitsValue(n);
    TrimPadding(w - |Digits(n)|, Digits(n));
  }

  lemma {:induction false} TrimPadding(k: nat, ds: seq<char>)
    requires ds != [] ==> ds[0] != ' '
    ensures TrimSpaces(Spaces(k) + ds) == ds
  {
    if k > 0 {
      assert (Spaces(k) + ds)[1..] == Spaces(k - 1) + ds;
      TrimPadding(k - 1, ds);
    } else {
      assert Spaces(0) + ds == ds;
    }
  }

  /** The buffer displayScoreOnAlpha fills, as written: a newline and 15
      spaces in a 17-character array whose last element is the string's
      terminator. The digits are written from index 16 down, over the
      terminator, and the spaces down to index 1. */
  function ScoreMessageAsWritten(score: Byte): seq<char>
  {
    DigitsValue(score);
    ['\n'] + RightAligned(Digits(score), 16)
  }

  /** What displayScoreOnAlpha hands to the display as written is never a
      terminated string: index 16 is always a digit or a space. */
  lemma AsWrittenUnterminated(score: Byte)
    ensures |ScoreMessageAsWritten(score)| == 17
    ensures NUL !in ScoreMessageAsWritten(score)
  {
    DigitsValue(score);
  }

  /** The buffer with the digits written from index 15 down, the last
      visible position of the display's second line, and the terminator
      kept. */
  function ScoreMessage(score: Byte): seq<char>
  {
    DigitsValue(score);
    ['\n'] + RightAligned(Digits(score), 15) + [NUL]
  }

  /** The score buffer is a newline, the score right-aligned in the 15
      visible columns, and the terminator. */
  lemma ScoreMessageReadsBack(score: Byte)
    ensures |ScoreMessage(score)| == 17 && ScoreMessage(score)[0] == '\n' && ScoreMessage(score)[16] == NUL
    ensures NUL !in ScoreMessage(score)[..16]
    ensures Value(TrimSpaces(ScoreMessage(score)[1..16])) == score
  {
    DigitsValue(score);
    PaddedReadsBack(['\n'], score, 15);
  }

  /** A prefix free of terminators, a right-aligned number and the
      terminator: the string stops at the terminator and the field after
      the prefix reads back as the number. */
  lemma PaddedReadsBack(prefix: seq<char>, n: nat, w: nat)
    requires |Digits(n)| <= w && NUL !in prefix
    ensures var m := prefix + RightAligned(Digits(n), w) + [NUL];
      |m| == |prefix| + w + 1 && m[..|prefix|] == prefix && m[|prefix| + w] == NUL
      && NUL !in m[..|prefix| + w] && Value(TrimSpaces(m[|prefix|..|prefix| + w])) == n
  {
    var text := RightAligned(Digits(n), w);
    var m := prefix + text + [NUL];
    assert m[..|prefix| + w] == prefix + text;
    assert m[|prefix|..|prefix| + w] == text;
    assert NUL !in text by {
      DigitsValue(n);
    }
    RightAlignedValue(n, w);
  }

  /** The Bluetooth message at the end of the game: "SCORE:" and the score
      right-aligned in the next four characters. */
  function FinalMessage(score: Byte): seq<char>
  {
    DigitsValue(score);
    "SCORE:" + RightAligned(Digits(score), 4) + [NUL]
  }

  lemma FinalMessageReadsBack(score: Byte)
    ensures |FinalMessage(score)| == 11 && FinalMessage(score)[..6] == "SCORE:" && FinalMessage(score)[10] == NUL
    ensures NUL !in FinalMessage(score)[..10]
    ensures Value(TrimSpaces(FinalMessage(score)[6..10])) == score
  {
    DigitsValue(score);
    PaddedReadsBack("SCORE:", score, 4);
  }

  /** Writing a digit over the last space of a padded buffer. */
  lemma WriteDigit(prefix: seq<char>, k: nat, tail: seq<char>, c: char)
    requires k > 0
    ensures (prefix + Spaces(k) + tail + [NUL])[|prefix| + k - 1 := c] == prefix + Spaces(k - 1) + ([c] + tail) + [NUL]
  {
  }

  /** One digit peeled off the low end. */
  lemma DigitStep(s: nat, tail: seq<char>)
    requires s > 0
    ensures |Digits(s)| == |Digits(s / 10)| + 1
    ensures Digits(s) + tail == Digits(s / 10) + ([DigitChar(s % 10)] + tail)
  {
    var a, c := Digits(s / 10), [DigitChar(s % 10)];
    assert Digits(s) == a + c;
    assert (a + c) + tail == a + (c + tail);
  }

  /** The digit loop of displayScoreOnAlpha and startGame: the digits of
      n written into a field of `width` spaces after `prefix`, least
      significant first from the field's last index down; `i` is the index
      left in front of the digits. */
  method WriteScore(prefix: seq<char>, width: nat, n: nat) returns (message: seq<char>, i: int)
    requires |Digits(n)| <= width
    ensures message == prefix + RightAligned(Digits(n), width) + [NUL]
    ensures i == |prefix| + width - |Digits(n)| - 1
  {
    message := prefix + Spaces(width) + [NUL];
    var k := width;
    var s := n;
    ghost var tail: seq<char> := [];
    while s > 0
      invariant 0 <= k <= width && message == prefix + Spaces(k) + tail + [NUL]
      invariant Digits(n) == Digits(s) + tail && |tail| == width - k
    {
      var c := DigitChar(s % 10);
      DigitStep(s, tail);
      WriteDigit(prefix, k, tail, c);
      message := message[|prefix| + k - 1 := c];
      tail := [c] + tail;
      k := k - 1;
      s := s / 10;
    }
    assert prefix + Spaces(k) + tail == prefix + (Spaces(k) + tail);
    i := |prefix| + k - 1;
  }

  /** The text startGame shows when the game is over. */
  function EndText(gameEnded: Byte): string
  {
    if GAME_LOST == gameEnded then "Game lost" else "You won"
  }

  // ------------------------------------------------------------------
  // The game's globals and handlers

  /** The globals of game.c and the hardware they drive. */
  class Console {
    /** Ticks to wait between moves; 18 before the first speed change. */
    var timeStep: Byte
    /** The last joystick key registered. */
    var pressedKey: Byte
    /** Pacman's direction. */
    var direction: Pacman.Direction
    /** 0 while the game runs, GAME_LOST or GAME_WON after. */
    var gameEnded: Byte
    /** Set when a life is lost, cleared by the main loop. */
    var lifeLost: Byte
    var currentScore: Byte
    /** The colour last given to setRGBLedColor. */
    var ledColor: Rgb
    /** The buffer last given to messageOnAlpha. */
    var alpha: seq<char>
    /** The LED driver. */
    const leds: Pca9532.Driver

    predicate Valid()
      reads this, leds
    {
      leds.Valid()
    }

    /** The globals as startGame leaves them before the first round:
        the statics' initial values, the game marked active and Pacman
        heading left. */
    constructor (driver: Pca9532.Driver)
      requires driver.Valid()
      ensures Valid() && leds == driver
      ensures timeStep == 18 && pressedKey == Key.KEY_NOTHING && direction == Pacman.LEFT
      ensures gameEnded == GAME_ON && lifeLost == 0 && currentScore == 0
      ensures ledColor == Rgb(0, 0, 0) && alpha == []
    {
      timeStep := 18;
      pressedKey := Key.KEY_NOTHING;
      direction := Pacman.LEFT;
      gameEnded := GAME_ON;
      lifeLost := 0;
      currentScore := 0;
      ledColor := Rgb(0, 0, 0);
      alpha := [];
      leds := driver;
    }

    /** changeGameSpeed with the sensor's reading (lm75Read's code and
        bytes) as inputs, the step compared before it is narrowed to tU8. */
    method ChangeGameSpeed(status: int, data: seq<Byte>)
      requires |data| == 3
      modifies this`timeStep, this`ledColor
      ensures timeStep == GameSpeed(Adc.GetTemperature(status, data))
      ensures ledColor == Colour(timeStep)
    {
      var temperature: int := Adc.GetTemperature(status, data);
      var step: int := 6 * (31 - temperature);
      if step <= 0 {
        step := 6;
      }
      timeStep := step;
      if timeStep == 6 {
        ledColor := RED;
      } else if timeStep == 12 {
        ledColor := YELLOW;
      } else if timeStep == 18 {
        ledColor := GREEN;
      } else {
        ledColor := BLUE;
      }
    }

    /** changeDirection: the registered key turns Pacman, any other code
        keeps the direction. */
    method ChangeDirection() returns (d: Pacman.Direction)
      modifies this`direction
      ensures direction == Steer(pressedKey, old(direction)) && d == direction
    {
      if Key.KEY_NOTHING != pressedKey {
        if pressedKey == Key.KEY_UP {
          direction := Pacman.UP;
        } else if pressedKey == Key.KEY_RIGHT {
          direction := Pacman.RIGHT;
        } else if pressedKey == Key.KEY_DOWN {
          direction := Pacman.DOWN;
        } else if pressedKey == Key.KEY_LEFT {
          direction := Pacman.LEFT;
        }
      }
      d := direction;
    }

    /** The main loop's registration of a key from checkKey: a key code
        replaces the last one, KEY_NOTHING keeps it. */
    method RegisterKey(keyBuffer: Byte)
      modifies this`pressedKey
      ensures pressedKey == if keyBuffer != Key.KEY_NOTHING then keyBuffer else old(pressedKey)
    {
      if keyBuffer != Key.KEY_NOTHING {
        pressedKey := keyBuffer;
      }
    }

    /** lifeLostEventHandler: the flag raised when fewer than three lives
        are left, and the LEDs of each life set in order. */
    method LifeLostEventHandler(lives: Byte)
      requires Valid()
      modifies this`lifeLost, leds
      ensures Valid()
      ensures lifeLost == if lives < 3 then 1 else old(lifeLost)
      ensures leds.regs == LedsSet(old(leds.regs), LifeSettings(lives))
      ensures leds.sent == old(leds.sent) + LedCommands(old(leds.regs), LifeSettings(lives))
    {
      if lives < 3 {
        lifeLost := 1;
      }
      ghost var regs0, sent0 := leds.regs, leds.sent;
      var i := 0;
      while i < 3
        invariant 0 <= i <= 3 && leds.Valid()
        invariant lifeLost == if lives < 3 then 1 else old(lifeLost)
        invariant leds.regs == LedsSet(regs0, LifeSettings(lives)[..2 * i])
        invariant leds.sent == sent0 + LedCommands(regs0, LifeSettings(lives)[..2 * i])
      {
        SetLife(lives, i, regs0, sent0);
        i := i + 1;
      }
      assert LifeSettings(lives)[..6] == LifeSettings(lives);
    }

    /** The inner loop of lifeLostEventHandler: the two LEDs of life i. */
    method SetLife(lives: Byte, i: nat, ghost regs0: seq<Byte>, ghost sent0: seq<seq<Byte>>)
      requires leds.Valid() && i < 3 && |regs0| == Pca9532.REGISTER_COUNT
      requires leds.regs == LedsSet(regs0, LifeSettings(lives)[..2 * i])
      requires leds.sent == sent0 + LedCommands(regs0, LifeSettings(lives)[..2 * i])
      modifies leds
      ensures leds.Valid()
      ensures leds.regs == LedsSet(regs0, LifeSettings(lives)[..2 * i + 2])
      ensures leds.sent == sent0 + LedCommands(regs0, LifeSettings(lives)[..2 * i + 2])
    {
      var j := 0;
      ghost var n := 2 * i;
      while j < 2
        invariant 0 <= j <= 2 && n == 2 * i + j && leds.Valid()
        invariant leds.regs == LedsSet(regs0, LifeSettings(lives)[..n])
        invariant leds.sent == sent0 + LedCommands(regs0, LifeSettings(lives)[..n])
      {
        var pin: Byte := i * 3 + j;
        var value: Byte := if i > 2 - lives then 0 else 1;
        LifeStep(regs0, lives, i, j, n, sent0);
        ghost var before := leds.regs;
        assert pin == (i * 3 + j) as Byte && value == LifeValue(i, lives);
        leds.SetPin(pin, value);
        assert leds.regs == Pca9532.PinSet(before, pin, value);
        j := j + 1;
        n := n + 1;
      }
    }

    /** displayTimeToEatOnI2C for a time between 0 and INIT_TIME_TO_EAT:
        the LEDs past the lit ones switched off, then the lit ones on. */
    method DisplayTimeToEatOnI2C(remainingTime: Byte)
      requires Valid() && remainingTime <= Pacman.INIT_TIME_TO_EAT
      modifies leds
      ensures Valid()
      ensures leds.regs == LedsSet(old(leds.regs), TimeSettings(Diodes(remainingTime)))
      ensures leds.sent == old(leds.sent) + LedCommands(old(leds.regs), TimeSettings(Diodes(remainingTime)))
    {
      var diodesAlight := (remainingTime * 8 + Pacman.INIT_TIME_TO_EAT - 1) / Pacman.INIT_TIME_TO_EAT;
      assert diodesAlight == Diodes(remainingTime);
      ghost var regs0, sent0 := leds.regs, leds.sent;
      ghost var n := 0;
      var i := 8 + diodesAlight;
      while i < 16
        invariant 8 + diodesAlight <= i <= 16 && n == i - 8 - diodesAlight && leds.Valid()
        invariant leds.regs == LedsSet(regs0, TimeSettings(diodesAlight)[..n])
        invariant leds.sent == sent0 + LedCommands(regs0, TimeSettings(diodesAlight)[..n])
      {
        TimeStep(regs0, diodesAlight, n, i, 1, sent0);
        leds.SetPin(i, 1);
        i := i + 1;
        n := n + 1;
      }
      i := 8;
      while i < 8 + diodesAlight
        invariant 8 <= i <= 8 + diodesAlight && n == i - diodesAlight && leds.Valid()
        invariant leds.regs == LedsSet(regs0, TimeSettings(diodesAlight)[..n])
        invariant leds.sent == sent0 + LedCommands(regs0, TimeSettings(diodesAlight)[..n])
      {
        TimeStep(regs0, diodesAlight, n, i, 0, sent0);
        leds.SetPin(i, 0);
        i := i + 1;
        n := n + 1;
      }
      assert TimeSettings(diodesAlight)[..8] == TimeSettings(diodesAlight);
    }

    /** displayScoreOnAlpha: the score recorded, and the buffer for the
        display filled from index 15 down: the digits, then spaces down to
        index 1. */
    method DisplayScoreOnAlpha(score: Byte)
      modifies this`currentScore, this`alpha
      ensures currentScore == score
      ensures alpha == ScoreMessage(score)
    {
      DigitsValue(score);
      var message, i := WriteScore(['\n'], 15, score);
      while i > 0
        invariant 0 <= i <= 15 - |Digits(score)|
        invariant message == ScoreMessage(score)
      {
        message := message[i := ' '];
        i := i - 1;
      }
      currentScore := score;
      alpha := message;
    }

    /** The end of startGame: the score written from index 9 down into
        "SCORE:    ", the count leaving currentScore at 0. */
    method FinalScoreMessage() returns (message: seq<char>)
      modifies this`currentScore
      ensures message == FinalMessage(old(currentScore)) && currentScore == 0
    {
      DigitsValue(currentScore);
      var i;
      message, i := WriteScore("SCORE:", 4, currentScore);
      currentScore := 0;
    }

    /** gameLostEventHandler. */
    method GameLostEventHandler(level: Byte, score: Byte)
      modifies this`gameEnded
      ensures gameEnded == GAME_LOST && EndText(gameEnded) == "Game lost"
    {
      gameEnded := GAME_LOST;
    }

    /** levelCompletedEventHandler. */
    method LevelCompletedEventHandler(level: Byte, score: Byte)
      modifies this`gameEnded
      ensures gameEnded == GAME_WON && EndText(gameEnded) == "You won"
    {
      gameEnded := GAME_WON;
    }
  }
}
