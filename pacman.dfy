/** pacman.c: the rules of the game. A 21 x 21 board of static fields, one
    Pacman and four ghosts that move one field per step, points and bonuses
    to eat, an eatable-ghost countdown and collisions that cost a life.

    The function pointers of the source are a tagged enum of behaviours.
    The two callbacks whose choice comes from outside the rules, the
    joystick direction of game.c and the random pick of the ghost
    movement, are a `steer` input. The handlers the game registers are
    recorded as a log of the events they are called with. */
module Pacman {
  import opened ByteOrder

  const NUMBER_OF_GHOSTS: nat := 4
  const BOARD_WIDTH: nat := 21
  const BOARD_HEIGHT: nat := 21
  const INIT_TIME_TO_EAT: Byte := 31

  datatype Direction = LEFT | RIGHT | UP | DOWN
  datatype Field = EMPTY | WALL | POINT | BONUS | DOORS
  datatype CharacterType = PACMAN | GHOST | EATABLE_GHOST | EYES
  datatype Coordinates = Coordinates(x: Byte, y: Byte)
  datatype Move = Move(kind: CharacterType, from: Coordinates, to: Coordinates)

  /** What a character's updateDirection pointer can hold: nothing, an
      outside callback (the joystick), or one of the default rules. */
  datatype Behaviour = NoCallback | Steered | StayAtHome | ExitHome | GoBackHome | GhostMovement

  /** The Character struct. defaultUpdateDirection is defaultGhostMovement
      for every ghost and is never called for Pacman, so it is not a field. */
  datatype Character = Character(
    kind: CharacterType,
    position: Coordinates,
    birthplace: Coordinates,
    homeDirection: Direction,
    currentDirection: Direction,
    nextDirection: Direction,
    startTime: Byte,
    timeToStart: Byte,
    update: Behaviour)

  /** The handlers a game can register. */
  datatype Hook = OnGameLost | OnLifeLost | OnScoreChanged | OnLevelCompleted | OnGhostEaten | OnTimeToEatChanged

  /** A call of a registered handler, with its arguments. */
  datatype Event =
    | GameLost(level: Byte, score: Byte)
    | LifeLost(lives: Byte)
    | ScoreChanged(score: Byte)
    | LevelCompleted(level: Byte, score: Byte)
    | GhostEaten
    | TimeToEatChanged(remaining: Byte)

  function HookOf(e: Event): Hook
  {
    match e
    case GameLost(_, _) => OnGameLost
    case LifeLost(_) => OnLifeLost
    case ScoreChanged(_) => OnScoreChanged
    case LevelCompleted(_, _) => OnLevelCompleted
    case GhostEaten => OnGhostEaten
    case TimeToEatChanged(_) => OnTimeToEatChanged
  }

  /** `if (handler) handler(...)`: the call happens only when registered. */
  function Emit(hooks: set<Hook>, e: Event): (s: seq<Event>)
    ensures s == [e] <==> HookOf(e) in hooks
    ensures s == [] <==> HookOf(e) !in hooks
  {
    if HookOf(e) in hooks then [e] else []
  }

  /** The enum value of a direction, LEFT = 0 to DOWN = 3. */
  function Index(d: Direction): (k: nat)
    ensures k < 4
  {
    match d
    case LEFT => 0
    case RIGHT => 1
    case UP => 2
    case DOWN => 3
  }

  function DirectionOf(k: nat): (d: Direction)
    requires k < 4
    ensures Index(d) == k
  {
    if k == 0 then LEFT else if k == 1 then RIGHT else if k == 2 then UP else DOWN
  }

  /** The unit step of a direction on the screen grid, y growing downwards. */
  function DX(d: Direction): int
  {
    if d == LEFT then -1 else if d == RIGHT then 1 else 0
  }

  function DY(d: Direction): int
  {
    if d == UP then -1 else if d == DOWN then 1 else 0
  }

  /** calculateMove: one step in the direction, on 8-bit coordinates that
      wrap around. */
  function CalculateMove(c: Coordinates, d: Direction): (r: Coordinates)
    ensures r.x == ByteOf(c.x + DX(d)) && r.y == ByteOf(c.y + DY(d))
    ensures r != c && (r.x == c.x || r.y == c.y)
  {
    match d
    case LEFT => c.(x := if c.x == 0 then 255 else c.x - 1)
    case RIGHT => c.(x := if c.x == 255 then 0 else c.x + 1)
    case UP => c.(y := if c.y == 0 then 255 else c.y - 1)
    case DOWN => c.(y := if c.y == 255 then 0 else c.y + 1)
  }

  /** turnBack: the opposite direction. */
  function TurnBack(d: Direction): (r: Direction)
    ensures r != d && DX(r) == -DX(d) && DY(r) == -DY(d)
  {
    match d
    case LEFT => RIGHT
    case DOWN => UP
    case RIGHT => LEFT
    case UP => DOWN
  }

  /** Turning back twice faces the original way. */
  lemma TurnBackTwice(d: Direction)
    ensures TurnBack(TurnBack(d)) == d
  {
  }

  /** A step and a step back lead to the start, wrap-around included. */
  lemma StepBack(c: Coordinates, d: Direction)
    ensures CalculateMove(CalculateMove(c, d), TurnBack(d)) == c
  {
  }

  /** A field strictly inside the board's frame. */
  predicate Inside(c: Coordinates)
  {
    1 <= c.x < BOARD_WIDTH - 1 && 1 <= c.y < BOARD_HEIGHT - 1
  }

  predicate OnBoard(c: Coordinates)
  {
    c.x < BOARD_WIDTH && c.y < BOARD_HEIGHT
  }

  /** From inside the frame a step stays on the board. */
  lemma StepOnBoard(c: Coordinates, d: Direction)
    requires Inside(c)
    ensures OnBoard(CalculateMove(c, d))
  {
  }

  /** The ghosts' house: the cells below the doors. */
  predicate InHouse(p: Coordinates)
  {
    p == Coordinates(10, 8) || p == Coordinates(9, 8) || p == Coordinates(11, 8) || p == Coordinates(10, 7)
  }

  /** Steps from a house cell to the field above the doors, (10, 6). */
  function ExitDistance(p: Coordinates): nat
  {
    if p == Coordinates(10, 7) then 1
    else if p == Coordinates(10, 8) then 2
    else if InHouse(p) then 3
    else 0
  }

  datatype Turn = Turn(c: Character, dir: Direction)

  /** The parts of a character a direction callback never changes. */
  predicate SameBody(a: Character, b: Character)
  {
    a.position == b.position && a.birthplace == b.birthplace && a.homeDirection == b.homeDirection
    && a.currentDirection == b.currentDirection && a.nextDirection == b.nextDirection
    && a.startTime == b.startTime
  }

  /** defaultExitHome: up through the doors from the middle of the house,
      towards the middle from its sides; above the doors the ghost is
      handed to its default movement. */
  function ExitHomeRule(c: Character): (t: Turn)
    ensures t.c == c || (c.position == Coordinates(10, 6) && t.c == c.(update := GhostMovement))
    ensures InHouse(c.position) ==>
      ExitDistance(CalculateMove(c.position, t.dir)) == ExitDistance(c.position) - 1
  {
    var p := c.position;
    if p == Coordinates(10, 8) || p == Coordinates(10, 7) then Turn(c, UP)
    else if p == Coordinates(9, 8) then Turn(c, RIGHT)
    else if p == Coordinates(11, 8) then Turn(c, LEFT)
    else if p == Coordinates(10, 6) then Turn(c.(update := GhostMovement), LEFT)
    else Turn(c, LEFT)
  }

  /** Following defaultExitHome from a house cell, every step is one closer
      to (10, 6), which it reaches after ExitDistance steps. */
  lemma {:induction false} LeavesHouse(p: Coordinates, c: Character)
    requires InHouse(p) && c.position == p
    ensures Walk(c, ExitDistance(p)) == Coordinates(10, 6)
    decreases ExitDistance(p)
  {
    var t := ExitHomeRule(c);
    var q := CalculateMove(p, t.dir);
    if InHouse(q) {
      LeavesHouse(q, c.(position := q));
    }
  }

  /** The field reached after n steps chosen by defaultExitHome. */
  function Walk(c: Character, n: nat): Coordinates
    decreases n
  {
    if n == 0 then c.position
    else Walk(c.(position := CalculateMove(c.position, ExitHomeRule(c).dir)), n - 1)
  }

  /** defaultStayAtHome: the ghost waits timeToStart steps facing its home
      direction, then starts to exit the house. */
  function StayAtHomeRule(c: Character): (t: Turn)
    ensures SameBody(t.c, c) && t.c.kind == c.kind
    ensures c.timeToStart > 0 ==>
      t.c == c.(timeToStart := c.timeToStart - 1) && t.dir == c.homeDirection
    ensures c.timeToStart == 0 ==>
      t.c.timeToStart == 0 && t.c.update in {ExitHome, GhostMovement}
      && t == ExitHomeRule(c.(update := ExitHome))
  {
    if c.timeToStart == 0 then ExitHomeRule(c.(update := ExitHome))
    else Turn(c.(timeToStart := c.timeToStart - 1), c.homeDirection)
  }

  /** Applying defaultStayAtHome n times. */
  function Waited(c: Character, n: nat): Character
    decreases n
  {
    if n == 0 then c else Waited(StayAtHomeRule(c).c, n - 1)
  }

  /** A ghost at home keeps waiting for exactly timeToStart steps: after
      n <= timeToStart of them it still stays at home with that many fewer
      to go, and the next step starts its exit. */
  lemma {:induction false} WaitsTimeToStart(c: Character, n: nat)
    requires c.update == StayAtHome && n <= c.timeToStart
    ensures Waited(c, n) == c.(timeToStart := c.timeToStart - n)
    ensures n == c.timeToStart ==> StayAtHomeRule(Waited(c, n)).c.update in {ExitHome, GhostMovement}
    decreases n
  {
    if n > 0 {
      var c1 := StayAtHomeRule(c).c;
      assert c1 == c.(timeToStart := c.timeToStart - 1);
      WaitsTimeToStart(c1, n - 1);
      assert c1.(timeToStart := c1.timeToStart - (n - 1)) == c.(timeToStart := c.timeToStart - n);
    }
  }

  /** defaultGhostMovement: above the doors it keeps going left or goes
      right; elsewhere it takes the randomly chosen direction. */
  function GhostMovementRule(c: Character, steer: Direction): (t: Turn)
    ensures t.c == c
    ensures c.position == Coordinates(10, 6) ==> t.dir in {LEFT, RIGHT} && (t.dir == LEFT <==> c.currentDirection == LEFT)
    ensures c.position != Coordinates(10, 6) ==> t.dir == steer
  {
    if c.position == Coordinates(10, 6) then Turn(c, if c.currentDirection == LEFT then LEFT else RIGHT)
    else Turn(c, steer)
  }

  /** The outcome of defaultGhostMovement's search: the direction value it
      returns, or Stuck when every direction is blocked and the C loop
      never ends. */
  datatype Pick = Stuck | Picked(code: nat)

  /** calculateMove on a direction value: its switch has no default, so a
      value past DOWN leaves the coordinates as they are. */
  function CodeMove(c: Coordinates, code: nat): Coordinates
  {
    if code < 4 then CalculateMove(c, DirectionOf(code)) else c
  }

  /** turnBack on a direction value: LEFT, DOWN and RIGHT have a case, and
      every other value, UP included, gives DOWN. */
  function TurnBackCode(code: nat): (r: nat)
    ensures code < 4 ==> r == Index(TurnBack(DirectionOf(code)))
  {
    if code == 0 then 1 else if code == 3 then 2 else if code == 1 then 0 else 3
  }

  /** canMove of the field each direction value 0 to 4 leads to. */
  function Openings(rows: seq<seq<Field>>, pos: Coordinates, kind: CharacterType): (free: seq<bool>)
    requires IsBoard(rows) && Inside(pos)
    ensures |free| == 5
  {
    seq(5, k requires 0 <= k < 5 =>
      StepOnBoard(pos, if k < 4 then DirectionOf(k) else LEFT);
      CanMove(rows, CodeMove(pos, k), kind))
  }

  /** defaultGhostMovement's do-while from the value d of ranDir, with at
      most `fuel` more turns, over the canMove answers `free`: ranDir moves
      on modulo 4; the first time it is the way back it is skipped once
      more, by `ranDir++` as written (`wraps` false) or modulo 4 as
      intended (`wraps` true); the loop ends on a value whose field can be
      entered. */
  function Search(free: seq<bool>, current: nat, d: nat, canMoveBack: bool, wraps: bool, fuel: nat): Pick
    requires |free| == 5
    decreases fuel
  {
    if fuel == 0 then Stuck
    else
      var next := (d + 1) % 4;
      var skip := current == TurnBackCode(next) && !canMoveBack;
      var code := if !skip then next else if wraps then (next + 1) % 4 else next + 1;
      if free[code] then Picked(code)
      else Search(free, current, code, canMoveBack || skip, wraps, fuel - 1)
  }

  /** The turns of the search that cover every direction at least once:
      up to three before the way back comes up, the skip, and up to three
      more before the way back is allowed. */
  const SEARCH_TURNS: nat := 7

  /** defaultGhostMovement away from (10,6) as written, for the random
      number `random` and the current direction value. */
  function GhostPickAsWritten(rows: seq<seq<Field>>, pos: Coordinates, kind: CharacterType, current: nat, random: nat): Pick
    requires IsBoard(rows) && Inside(pos)
  {
    Search(Openings(rows, pos, kind), current, random % 4, false, false, SEARCH_TURNS)
  }

  /** As written, a ghost going UP whose random number is 2 tries DOWN
      first, skips it as the way back with `ranDir++`, and returns 4: a
      value of no direction, whose move leaves the ghost where it is. */
  lemma GhostPickStalls(rows: seq<seq<Field>>, pos: Coordinates, kind: CharacterType)
    requires IsBoard(rows) && Inside(pos) && CanMove(rows, pos, kind)
    ensures GhostPickAsWritten(rows, pos, kind, Index(UP), 2) == Picked(4)
    ensures CodeMove(pos, 4) == pos
  {
  }

  /** defaultGhostMovement away from (10,6) with the skip modulo 4. */
  function GhostPick(rows: seq<seq<Field>>, c: Character, random: nat): Pick
    requires IsBoard(rows) && Inside(c.position)
  {
    Search(Openings(rows, c.position, c.kind), Index(c.currentDirection), random % 4, false, true, SEARCH_TURNS)
  }

  /** The field of direction d can be entered. */
  predicate Free(rows: seq<seq<Field>>, c: Character, d: Direction)
    requires IsBoard(rows) && Inside(c.position)
  {
    PassableInside(rows, c.position, d, c.kind);
    CanMove(rows, CalculateMove(c.position, d), c.kind)
  }

  /** With every direction blocked the intended search finds nothing. */
  lemma {:induction false} BlockedStuck(free: seq<bool>, current: nat, d: nat, canMoveBack: bool, fuel: nat)
    requires |free| == 5 && !free[0] && !free[1] && !free[2] && !free[3]
    ensures Search(free, current, d, canMoveBack, true, fuel) == Stuck
    decreases fuel
  {
    if fuel > 0 {
      var next := (d + 1) % 4;
      var skip := current == TurnBackCode(next) && !canMoveBack;
      BlockedStuck(free, current, if !skip then next else (next + 1) % 4, canMoveBack || skip, fuel - 1);
    }
  }

  /** The direction values the intended search tries in its next `fuel`
      turns, whatever the board. */
  function Tried(current: nat, d: nat, canMoveBack: bool, fuel: nat): set<nat>
    decreases fuel
  {
    if fuel == 0 then {}
    else
      var next := (d + 1) % 4;
      var skip := current == TurnBackCode(next) && !canMoveBack;
      var code := if !skip then next else (next + 1) % 4;
      {code} + Tried(current, code, canMoveBack || skip, fuel - 1)
  }

  /** A search that finds nothing found every value it tried blocked. */
  lemma {:induction false} StuckTriedBlocked(free: seq<bool>, current: nat, d: nat, canMoveBack: bool, fuel: nat)
    requires |free| == 5 && Search(free, current, d, canMoveBack, true, fuel) == Stuck
    ensures forall k :: k in Tried(current, d, canMoveBack, fuel) ==> k < 4 && !free[k]
    decreases fuel
  {
    if fuel > 0 {
      var next := (d + 1) % 4;
      var skip := current == TurnBackCode(next) && !canMoveBack;
      StuckTriedBlocked(free, current, if !skip then next else (next + 1) % 4, canMoveBack || skip, fuel - 1);
    }
  }

  /** The direction value j places on from d. */
  function Ahead(d: nat, j: nat): nat
  {
    (d + j) % 4
  }

  /** The four values from x on are all the directions. */
  lemma AllAhead(x: nat, k: nat)
    requires x < 4 && k < 4
    ensures k == x || k == Ahead(x, 1) || k == Ahead(x, 2) || k == Ahead(x, 3)
  {
    if x == 0 {} else if x == 1 {} else if x == 2 {} else {}
  }

  /** Once the way back has been skipped, turn j of the search tries the
      direction j places on from where it started. */
  lemma {:induction false} TriedOnward(current: nat, d: nat, fuel: nat, j: nat)
    requires 1 <= j <= fuel
    ensures Ahead(d, j) in Tried(current, d, true, fuel)
    decreases j
  {
    if j > 1 {
      TriedOnward(current, (d + 1) % 4, fuel - 1, j - 1);
      assert Ahead((d + 1) % 4, j - 1) == Ahead(d, j);
    }
  }

  /** The way back lies `offset` places on from d: the search tries every
      direction when it has three turns more than that. */
  lemma {:induction false} TriedAround(current: nat, d: nat, fuel: nat, offset: nat)
    requires current < 4 && 1 <= offset <= 4 && fuel >= offset + 3
    requires Ahead(d, offset) == TurnBackCode(current)
    ensures forall k :: 0 <= k < 4 ==> k in Tried(current, d, false, fuel)
    decreases offset
  {
    var next := (d + 1) % 4;
    if offset == 1 {
      var code := (next + 1) % 4;
      TriedOnward(current, code, fuel - 1, 1);
      TriedOnward(current, code, fuel - 1, 2);
      TriedOnward(current, code, fuel - 1, 3);
      forall k | 0 <= k < 4
        ensures k in Tried(current, d, false, fuel)
      {
        AllAhead(code, k);
      }
    } else {
      assert Ahead(next, offset - 1) == TurnBackCode(current);
      TriedAround(current, next, fuel - 1, offset - 1);
    }
  }

  /** Where the way back lies from d: 1 to 4 places on. */
  function BackOffset(current: nat, d: nat): (offset: nat)
    requires current < 4 && d < 4
    ensures 1 <= offset <= 4 && Ahead(d, offset) == TurnBackCode(current)
  {
    var back := TurnBackCode(current);
    if back > d then back - d else back + 4 - d
  }

  /** What the intended search returns is a direction whose field can be
      entered. */
  lemma {:induction false} PickedFree(free: seq<bool>, current: nat, d: nat, canMoveBack: bool, fuel: nat)
    requires |free| == 5
    ensures var p := Search(free, current, d, canMoveBack, true, fuel);
      p.Picked? ==> p.code < 4 && free[p.code]
    decreases fuel
  {
    if fuel > 0 {
      var next := (d + 1) % 4;
      var skip := current == TurnBackCode(next) && !canMoveBack;
      PickedFree(free, current, if !skip then next else (next + 1) % 4, canMoveBack || skip, fuel - 1);
    }
  }

  /** Once the way back has been skipped, a search that returns the
      direction m places on found the ones before it blocked. */
  lemma {:induction false} OnwardBlocked(free: seq<bool>, current: nat, d: nat, fuel: nat, m: nat)
    requires |free| == 5 && 1 <= m <= 4
    requires Search(free, current, d, true, true, fuel) == Picked(Ahead(d, m))
    ensures forall j :: 1 <= j < m ==> !free[Ahead(d, j)]
    decreases m
  {
    if m > 1 {
      var next := (d + 1) % 4;
      assert Ahead(next, m - 1) == Ahead(d, m);
      OnwardBlocked(free, current, next, fuel - 1, m - 1);
      forall j | 1 <= j < m
        ensures !free[Ahead(d, j)]
      {
        if j > 1 {
          assert Ahead(next, j - 1) == Ahead(d, j);
        }
      }
    }
  }

  /** The way back lies `offset` places on from d: a search that returns
      it found the three other directions blocked. */
  lemma {:induction false} BackLast(free: seq<bool>, current: nat, d: nat, fuel: nat, offset: nat)
    requires |free| == 5 && current < 4 && 1 <= offset <= 4
    requires Ahead(d, offset) == TurnBackCode(current)
    requires Search(free, current, d, false, true, fuel) == Picked(TurnBackCode(current))
    ensures forall k :: 0 <= k < 4 && k != TurnBackCode(current) ==> !free[k]
    decreases offset
  {
    var back := TurnBackCode(current);
    var next := (d + 1) % 4;
    if offset == 1 {
      var code := (next + 1) % 4;
      assert Ahead(code, 3) == back;
      OnwardBlocked(free, current, code, fuel - 1, 3);
      forall k | 0 <= k < 4 && k != back
        ensures !free[k]
      {
        AllAhead(code, k);
      }
    } else {
      assert Ahead(next, offset - 1) == back;
      BackLast(free, current, next, fuel - 1, offset - 1);
    }
  }

  /** Free and the canMove answers of the search agree. */
  lemma OpeningsFree(rows: seq<seq<Field>>, c: Character, d: Direction)
    requires IsBoard(rows) && Inside(c.position)
    ensures Openings(rows, c.position, c.kind)[Index(d)] == Free(rows, c, d)
  {
  }

  /** The intended search returns a direction whose field can be entered;
      it turns back only when the three other directions are blocked; and
      it is stuck exactly when all four are. */
  lemma GhostPickSound(rows: seq<seq<Field>>, c: Character, random: nat)
    requires IsBoard(rows) && Inside(c.position)
    ensures var p := GhostPick(rows, c, random);
      (p.Picked? ==> p.code < 4 && Free(rows, c, DirectionOf(p.code)))
      && (p.Picked? && p.code == Index(TurnBack(c.currentDirection)) ==>
            forall d: Direction :: d != TurnBack(c.currentDirection) ==> !Free(rows, c, d))
      && (p == Stuck <==> forall d: Direction :: !Free(rows, c, d))
  {
    var free := Openings(rows, c.position, c.kind);
    var r := random % 4;
    var current := Index(c.currentDirection);
    var back := TurnBackCode(current);
    var p := GhostPick(rows, c, random);
    forall d: Direction
      ensures free[Index(d)] == Free(rows, c, d)
    {
      OpeningsFree(rows, c, d);
    }
    PickedFree(free, current, r, false, SEARCH_TURNS);
    if p.Picked? {
      assert free[p.code] == Free(rows, c, DirectionOf(p.code));
    }
    if p.Picked? && p.code == back {
      BackLast(free, current, r, SEARCH_TURNS, BackOffset(current, r));
    }
    if p == Stuck {
      StuckTriedBlocked(free, current, r, false, SEARCH_TURNS);
      TriedAround(current, r, SEARCH_TURNS, BackOffset(current, r));
    }
    if !free[0] && !free[1] && !free[2] && !free[3] {
      BlockedStuck(free, current, r, false, SEARCH_TURNS);
    }
    assert Free(rows, c, LEFT) == free[0] && Free(rows, c, RIGHT) == free[1];
    assert Free(rows, c, UP) == free[2] && Free(rows, c, DOWN) == free[3];
  }

  /** The fixed directions defaultGoBackHome takes on the default board at
      the crossings on the way to the house. */
  predicate HasSignpost(p: Coordinates)
  {
    (p.y == 7 && p.x in {3, 5, 7, 13, 15, 17, 10})
    || (p.y == 6 && p.x in {7, 13, 10})
    || (p.y == 9 && p.x in {4, 16})
    || (p.y == 15 && p.x in {8, 12})
  }

  function Signpost(p: Coordinates): Direction
    requires HasSignpost(p)
  {
    if p.y == 7 then
      (if p.x in {3, 5} then RIGHT else if p.x in {7, 13} then UP else if p.x in {15, 17} then LEFT else DOWN)
    else if p.y == 6 then
      (if p.x == 7 then RIGHT else if p.x == 13 then LEFT else DOWN)
    else if p.y == 9 then
      (if p.x == 4 then RIGHT else LEFT)
    else UP
  }

  /** Some step from p reaches the birthplace. */
  predicate HomeAdjacent(p: Coordinates, home: Coordinates)
  {
    CalculateMove(p, LEFT) == home || CalculateMove(p, RIGHT) == home
    || CalculateMove(p, UP) == home || CalculateMove(p, DOWN) == home
  }

  /** The first direction, in enum order, whose step reaches the birthplace. */
  function HomeDirection(p: Coordinates, home: Coordinates): (d: Direction)
    requires HomeAdjacent(p, home)
    ensures CalculateMove(p, d) == home
    ensures forall e: Direction :: Index(e) < Index(d) ==> CalculateMove(p, e) != home
  {
    if CalculateMove(p, LEFT) == home then LEFT
    else if CalculateMove(p, RIGHT) == home then RIGHT
    else if CalculateMove(p, UP) == home then UP
    else DOWN
  }

  /** defaultGoBackHome, for eyes returning to their birthplace. There they
      turn back into a ghost that exits the house. On another board than
      the default one they move like a ghost. On the default board they
      follow the signposts; in the middle of the house they step onto the
      birthplace beside them. `steer` is the pick of the default movement. */
  function GoBackHomeRule(c: Character, steer: Direction, defaultBoardUsed: bool): (t: Turn)
    ensures SameBody(t.c, c)
    ensures c.position == c.birthplace ==>
      t.c.kind == GHOST && t == ExitHomeRule(c.(kind := GHOST, update := ExitHome))
    ensures c.position != c.birthplace ==> t.c == c
    ensures (c.position != c.birthplace && defaultBoardUsed && c.position == Coordinates(10, 8)
             && HomeAdjacent(c.position, c.birthplace))
      ==> CalculateMove(c.position, t.dir) == c.birthplace
  {
    var p := c.position;
    if p == c.birthplace then ExitHomeRule(c.(kind := GHOST, update := ExitHome))
    else if !defaultBoardUsed then GhostMovementRule(c, steer)
    else if HasSignpost(p) then Turn(c, Signpost(p))
    else if p == Coordinates(10, 8) && HomeAdjacent(p, c.birthplace) then Turn(c, HomeDirection(p, c.birthplace))
    else GhostMovementRule(c, steer)
  }

  /** In the middle of the house the eyes of the ghosts born beside it step
      straight to their birthplace. */
  lemma EyesEnterHouse(c: Character, steer: Direction)
    requires c.position == Coordinates(10, 8)
    requires c.birthplace == Coordinates(9, 8) || c.birthplace == Coordinates(11, 8)
    ensures GoBackHomeRule(c, steer, true).dir == (if c.birthplace.x == 9 then LEFT else RIGHT)
  {
  }

  /** The callback call at the start of move(): the direction the character
      chooses and the character as the callback left it. */
  function Dispatch(c: Character, steer: Direction, defaultBoardUsed: bool): (t: Turn)
    ensures SameBody(t.c, c)
    ensures c.update == NoCallback ==> t == Turn(c, c.nextDirection)
    ensures c.update == Steered ==> t == Turn(c, steer)
    ensures c.kind != EYES && c.update != GoBackHome ==> t.c.kind == c.kind
  {
    match c.update
    case NoCallback => Turn(c, c.nextDirection)
    case Steered => Turn(c, steer)
    case StayAtHome => StayAtHomeRule(c)
    case ExitHome => ExitHomeRule(c)
    case GoBackHome => GoBackHomeRule(c, steer, defaultBoardUsed)
    case GhostMovement => GhostMovementRule(c, steer)
  }

  /** A character after move() and the Move it reports. */
  datatype Stepped = Stepped(c: Character, m: Move)

  /** The collision loop's running state: the characters, the moves made so
      far, the counters it changes and the handler calls. */
  datatype Round = Round(
    pacman: Character,
    ghosts: seq<Character>,
    moves: seq<Move>,
    score: Byte,
    lives: Byte,
    reset: bool,
    events: seq<Event>)

  /** Every character of a round and its birthplace is inside the frame. */
  predicate CharactersInside(r: Round)
  {
    |r.ghosts| == NUMBER_OF_GHOSTS && |r.moves| == NUMBER_OF_GHOSTS + 1
    && Inside(r.pacman.position) && Inside(r.pacman.birthplace)
    && forall i :: 0 <= i < NUMBER_OF_GHOSTS ==> Inside(r.ghosts[i].position) && Inside(r.ghosts[i].birthplace)
  }

  /** ... and so is Pacman's move of this step. */
  predicate RoundInside(r: Round)
  {
    CharactersInside(r) && Inside(r.moves[0].from) && Inside(r.moves[0].to)
  }

  /** Every ghost of the sequence turned into a plain ghost. */
  function AllGhosts(gs: seq<Character>): (r: seq<Character>)
    ensures |r| == |gs|
    ensures forall i :: 0 <= i < |gs| ==> r[i] == gs[i].(kind := GHOST)
  {
    seq(|gs|, i requires 0 <= i < |gs| => gs[i].(kind := GHOST))
  }

  /** Ghosts become eatable: only plain ghosts change. */
  function Frightened(gs: seq<Character>): (r: seq<Character>)
    ensures |r| == |gs|
    ensures forall i :: 0 <= i < |gs| ==>
      r[i] == if gs[i].kind == GHOST then gs[i].(kind := EATABLE_GHOST) else gs[i]
  {
    seq(|gs|, i requires 0 <= i < |gs| => if gs[i].kind == GHOST then gs[i].(kind := EATABLE_GHOST) else gs[i])
  }

  /** Eatable ghosts become plain ghosts again. */
  function Calmed(gs: seq<Character>): (r: seq<Character>)
    ensures |r| == |gs|
    ensures forall i :: 0 <= i < |gs| ==>
      r[i] == if gs[i].kind == EATABLE_GHOST then gs[i].(kind := GHOST) else gs[i]
  {
    seq(|gs|, i requires 0 <= i < |gs| => if gs[i].kind == EATABLE_GHOST then gs[i].(kind := GHOST) else gs[i])
  }

  /** A character put back at its birthplace by makeMove. */
  function AtHome(g: Character): Character
  {
    g.(position := g.birthplace, update := StayAtHome, timeToStart := g.startTime)
  }

  /** The cells of the board row by row. */
  function RowPoints(row: seq<Field>): (n: nat)
    ensures n <= |row|
  {
    if row == [] then 0 else RowPoints(row[..|row| - 1]) + (if row[|row| - 1] == POINT then 1 else 0)
  }

  /** The number of POINT cells. */
  function Points(rows: seq<seq<Field>>): nat
  {
    if rows == [] then 0 else Points(rows[..|rows| - 1]) + RowPoints(rows[|rows| - 1])
  }

  /** Emptying a POINT cell of a row removes exactly one point. */
  lemma {:induction false} RowPointEaten(row: seq<Field>, x: nat)
    requires x < |row| && row[x] == POINT
    ensures RowPoints(row[x := EMPTY]) == RowPoints(row) - 1
    decreases |row|
  {
    var n := |row| - 1;
    var row' := row[x := EMPTY];
    if x < n {
      assert row'[..n] == row[..n][x := EMPTY];
      RowPointEaten(row[..n], x);
    } else {
      assert row'[..n] == row[..n];
    }
  }

  /** Emptying any cell that is not a POINT keeps the count. */
  lemma {:induction false} RowOtherEaten(row: seq<Field>, x: nat)
    requires x < |row| && row[x] != POINT
    ensures RowPoints(row[x := EMPTY]) == RowPoints(row)
    decreases |row|
  {
    var n := |row| - 1;
    var row' := row[x := EMPTY];
    if x < n {
      assert row'[..n] == row[..n][x := EMPTY];
      RowOtherEaten(row[..n], x);
    } else {
      assert row'[..n] == row[..n];
    }
  }

  /** Changing one row changes the count by the change of that row. */
  lemma {:induction false} RowReplaced(rows: seq<seq<Field>>, y: nat, row: seq<Field>)
    requires y < |rows|
    ensures Points(rows[y := row]) == Points(rows) - RowPoints(rows[y]) + RowPoints(row)
    decreases |rows|
  {
    var n := |rows| - 1;
    var rows' := rows[y := row];
    if y < n {
      assert rows'[..n] == rows[..n][y := row];
      RowReplaced(rows[..n], y, row);
    } else {
      assert rows'[..n] == rows[..n];
    }
  }

  /** Eating at (x, y): a POINT costs the count one, anything else nothing. */
  lemma PointEaten(rows: seq<seq<Field>>, x: nat, y: nat)
    requires y < |rows| && x < |rows[y]|
    ensures var eaten := rows[y := rows[y][x := EMPTY]];
      Points(eaten) == if rows[y][x] == POINT then Points(rows) - 1 else Points(rows)
  {
    RowReplaced(rows, y, rows[y][x := EMPTY]);
    if rows[y][x] == POINT {
      RowPointEaten(rows[y], x);
    } else {
      RowOtherEaten(rows[y], x);
    }
  }

  /** The board's frame is all walls. */
  predicate Walled(rows: seq<seq<Field>>)
    requires |rows| == BOARD_HEIGHT && forall i :: 0 <= i < BOARD_HEIGHT ==> |rows[i]| == BOARD_WIDTH
  {
    forall k :: 0 <= k < BOARD_WIDTH ==>
      rows[0][k] == WALL && rows[BOARD_HEIGHT - 1][k] == WALL && rows[k][0] == WALL && rows[k][BOARD_WIDTH - 1] == WALL
  }

  /** pacman.c's defaultBoard, by its enum codes. */
  const DEFAULT_CODES: seq<seq<int>> := [
      [1, 1, 1, 1, 1, 1, 1, 1, 1, 1, 1, 1, 1, 1, 1, 1, 1, 1, 1, 1, 1],
      [1, 2, 2, 2, 2, 2, 2, 2, 1, 2, 2, 2, 1, 2, 2, 2, 2, 2, 2, 2, 1],
      [1, 2, 1, 1, 1, 1, 1, 2, 1, 2, 1, 2, 1, 2, 1, 1, 1, 1, 1, 2, 1],
      [1, 3, 1, 2, 2, 2, 2, 2, 1, 2, 1, 2, 1, 2, 2, 2, 2, 2, 1, 3, 1],
      [1, 2, 1, 2, 1, 2, 1, 2, 2, 2, 1, 2, 2, 2, 1, 2, 1, 2, 1, 2, 1],
      [1, 2, 1, 2, 1, 2, 1, 1, 1, 1, 1, 1, 1, 1, 1, 2, 1, 2, 1, 2, 1],
      [1, 2, 1, 2, 1, 2, 1, 0, 0, 0, 0, 0, 0, 0, 1, 2, 1, 2, 1, 2, 1],
      [1, 2, 2, 2, 2, 2, 0, 0, 1, 1, 4, 1, 1, 0, 0, 2, 2, 2, 2, 2, 1],
      [1, 1, 1, 2, 1, 1, 1, 0, 1, 0, 0, 0, 1, 0, 1, 1, 1, 2, 1, 1, 1],
      [1, 2, 2, 2, 2, 0, 0, 0, 1, 1, 1, 1, 1, 0, 0, 0, 2, 2, 2, 2, 1],
      [1, 2, 1, 1, 2, 1, 1, 0, 0, 0, 0, 0, 0, 0, 1, 1, 2, 1, 1, 2, 1],
      [1, 2, 2, 1, 2, 2, 1, 1, 1, 1, 0, 1, 1, 1, 1, 2, 2, 1, 2, 2, 1],
      [1, 1, 2, 1, 1, 2, 2, 2, 2, 1, 0, 1, 2, 2, 2, 2, 1, 1, 2, 1, 1],
      [1, 2, 2, 1, 1, 1, 1, 1, 2, 1, 0, 1, 2, 1, 1, 1, 1, 1, 2, 2, 1],
      [1, 2, 1, 1, 2, 2, 2, 1, 2, 1, 0, 1, 2, 1, 2, 2, 2, 1, 1, 2, 1],
      [1, 3, 2, 2, 2, 1, 2, 2, 2, 2, 0, 2, 2, 2, 2, 1, 2, 2, 2, 3, 1],
      [1, 1, 1, 1, 2, 1, 2, 1, 1, 1, 1, 1, 1, 1, 2, 1, 2, 1, 1, 1, 1],
      [1, 2, 2, 2, 2, 1, 2, 2, 2, 2, 1, 2, 2, 2, 2, 1, 2, 2, 2, 2, 1],
      [1, 2, 1, 1, 1, 1, 1, 1, 1, 2, 1, 2, 1, 1, 1, 1, 1, 1, 1, 2, 1],
      [1, 2, 2, 2, 2, 2, 2, 2, 2, 2, 2, 2, 2, 2, 2, 2, 2, 2, 2, 2, 1],
      [1, 1, 1, 1, 1, 1, 1, 1, 1, 1, 1, 1, 1, 1, 1, 1, 1, 1, 1, 1, 1]
    ]

  /** The Field an enum code stands for. */
  function FieldOf(code: int): Field
  {
    if code == 1 then WALL else if code == 2 then POINT else if code == 3 then BONUS
    else if code == 4 then DOORS else EMPTY
  }

  lemma DefaultShape()
    ensures |DEFAULT_CODES| == BOARD_HEIGHT
    ensures forall i :: 0 <= i < BOARD_HEIGHT ==> |DEFAULT_CODES[i]| == BOARD_WIDTH
  {
  }

  function DefaultField(row: nat, column: nat): Field
    requires row < BOARD_HEIGHT && column < BOARD_WIDTH
  {
    DefaultShape();
    FieldOf(DEFAULT_CODES[row][column])
  }

  /** The default board, row by row. */
  function DefaultBoard(): (rows: seq<seq<Field>>)
    ensures |rows| == BOARD_HEIGHT && forall i :: 0 <= i < BOARD_HEIGHT ==> |rows[i]| == BOARD_WIDTH
  {
    seq(BOARD_HEIGHT, i requires 0 <= i < BOARD_HEIGHT =>
      seq(BOARD_WIDTH, j requires 0 <= j < BOARD_WIDTH => DefaultField(i, j)))
  }

  /** The default board's frame is walls, so nothing ever leaves it. */
  lemma DefaultWalled()
    ensures Walled(DefaultBoard())
  {
    var b := DefaultBoard();
    forall k | 0 <= k < BOARD_WIDTH
      ensures b[0][k] == WALL && b[BOARD_HEIGHT - 1][k] == WALL && b[k][0] == WALL && b[k][BOARD_WIDTH - 1] == WALL
    {
      assert DEFAULT_CODES[0][k] == 1 && DEFAULT_CODES[20][k] == 1 && DEFAULT_CODES[k][0] == 1 && DEFAULT_CODES[k][20] == 1;
    }
  }

  /** A ghost as initPacman places it: at its birthplace, waiting
      `start` steps at home. */
  function StartingGhost(birthplace: Coordinates, current: Direction, next: Direction, home: Direction, start: Byte): Character
  {
    Character(GHOST, birthplace, birthplace, home, current, next, start, start, StayAtHome)
  }

  /** The four ghosts of initPacman. */
  const INITIAL_GHOSTS: seq<Character> := [
    StartingGhost(Coordinates(10, 6), RIGHT, LEFT, LEFT, 0),
    StartingGhost(Coordinates(10, 8), DOWN, DOWN, DOWN, 8),
    StartingGhost(Coordinates(9, 8), LEFT, LEFT, LEFT, 15),
    StartingGhost(Coordinates(11, 8), RIGHT, RIGHT, RIGHT, 25)
  ]

  const PACMAN_BIRTHPLACE: Coordinates := Coordinates(10, 15)

  /** Pacman as initPacman places it. The fields it does not set keep their
      values; with no direction callback it moves like a ghost. */
  function StartingPacman(c: Character): Character
  {
    c.(birthplace := PACMAN_BIRTHPLACE, currentDirection := LEFT, nextDirection := LEFT,
       position := PACMAN_BIRTHPLACE, kind := PACMAN,
       update := if c.update == NoCallback then GhostMovement else c.update)
  }

  /** An 8-bit counter at the count stays at the count when both drop by one. */
  lemma ByteOfPred(n: int)
    ensures ByteOf(ByteOf(n) - 1) == ByteOf(n - 1)
  {
  }

  /** A board of BOARD_HEIGHT rows of BOARD_WIDTH fields. */
  predicate IsBoard(rows: seq<seq<Field>>)
  {
    |rows| == BOARD_HEIGHT && forall i :: 0 <= i < BOARD_HEIGHT ==> |rows[i]| == BOARD_WIDTH
  }

  /** canMove: walls stop everyone, doors stop only Pacman. */
  predicate CanMove(rows: seq<seq<Field>>, to: Coordinates, kind: CharacterType)
    requires IsBoard(rows) && OnBoard(to)
  {
    rows[to.y][to.x] != WALL && !(kind == PACMAN && rows[to.y][to.x] == DOORS)
  }

  /** On a walled board a field a character can enter from inside the
      frame is inside the frame. */
  lemma PassableInside(rows: seq<seq<Field>>, from: Coordinates, d: Direction, kind: CharacterType)
    requires IsBoard(rows) && Inside(from)
    ensures OnBoard(CalculateMove(from, d))
    ensures Walled(rows) && CanMove(rows, CalculateMove(from, d), kind) ==> Inside(CalculateMove(from, d))
  {
    var to := CalculateMove(from, d);
    if Walled(rows) {
      assert rows[to.y][0] == WALL && rows[to.y][BOARD_WIDTH - 1] == WALL;
      assert rows[0][to.x] == WALL && rows[BOARD_HEIGHT - 1][to.x] == WALL;
    }
  }

  /** What a step of the game reads besides the characters: the board, the
      defaultBoardUsed flag, the handlers, the level and the points for an
      eaten ghost. */
  datatype Setup = Setup(
    rows: seq<seq<Field>>,
    defaultBoardUsed: bool,
    hooks: set<Hook>,
    level: Byte,
    pointsForEating: Byte)

  /** A walled board of the right shape. */
  predicate Ready(e: Setup)
  {
    IsBoard(e.rows) && Walled(e.rows)
  }

  /** move(): the callback's choice is taken when that field can be
      entered, and becomes the current direction; otherwise the current
      direction is kept if its field can be entered; otherwise the
      character stays. The Move reports the type after the callback, the
      old field and the new one. On a walled board nobody leaves the
      frame. */
  function StepOf(e: Setup, c: Character, steer: Direction): (s: Stepped)
    requires IsBoard(e.rows) && Inside(c.position)
    ensures var t := Dispatch(c, steer, e.defaultBoardUsed);
      var next := CalculateMove(c.position, t.dir);
      var cur := CalculateMove(c.position, c.currentDirection);
      s.m == Move(t.c.kind, c.position, s.c.position)
      && s.c == t.c.(nextDirection := t.dir, currentDirection := s.c.currentDirection, position := s.c.position)
      && (CanMove(e.rows, next, t.c.kind) ==> s.c.position == next && s.c.currentDirection == t.dir)
      && (!CanMove(e.rows, next, t.c.kind) ==>
            s.c.currentDirection == c.currentDirection
            && s.c.position == if CanMove(e.rows, cur, t.c.kind) then cur else c.position)
    ensures Walled(e.rows) ==> Inside(s.c.position)
  {
    var t := Dispatch(c, steer, e.defaultBoardUsed);
    PassableInside(e.rows, c.position, t.dir, t.c.kind);
    PassableInside(e.rows, c.position, c.currentDirection, t.c.kind);
    var d := t.c.(nextDirection := t.dir);
    var to := CalculateMove(d.position, t.dir);
    if CanMove(e.rows, to, d.kind) then
      Stepped(d.(currentDirection := t.dir, position := to), Move(d.kind, d.position, to))
    else
      var alt := CalculateMove(d.position, d.currentDirection);
      if CanMove(e.rows, alt, d.kind) then Stepped(d.(position := alt), Move(d.kind, d.position, alt))
      else Stepped(d, Move(d.kind, d.position, d.position))
  }

  /** Pacman's move at the start of a makeMove step. */
  function Started(e: Setup, r: Round, steer: Direction): (res: Round)
    requires Ready(e) && CharactersInside(r)
    ensures RoundInside(res)
    ensures res == r.(pacman := res.pacman, moves := res.moves)
  {
    var s := StepOf(e, r.pacman, steer);
    r.(pacman := s.c, moves := r.moves[0 := s.m])
  }

  /** Ghost i's move in makeMove's ghost loop. */
  function GhostMoved(e: Setup, r: Round, i: nat, steer: Direction): (res: Round)
    requires Ready(e) && RoundInside(r) && i < NUMBER_OF_GHOSTS
    ensures RoundInside(res) && Inside(res.moves[i + 1].from)
    ensures res == r.(ghosts := res.ghosts, moves := res.moves)
  {
    var s := StepOf(e, r.ghosts[i], steer);
    r.(ghosts := r.ghosts[i := s.c], moves := r.moves[i + 1 := s.m])
  }

  /** Pacman eats an eatable ghost: its handler, then the points. */
  function AteGhost(e: Setup, r: Round): (res: Round)
    ensures res == r.(score := res.score, events := res.events)
  {
    var r1 := r.(events := r.events + Emit(e.hooks, GhostEaten), score := ByteOf(r.score + e.pointsForEating));
    r1.(events := r1.events + Emit(e.hooks, ScoreChanged(r1.score)))
  }

  /** A ghost catches Pacman: a life less, reported; every ghost a plain
      ghost again; the game lost reported at no lives left; positions to
      be reset. */
  function Caught(e: Setup, r: Round): (res: Round)
    ensures res == r.(ghosts := res.ghosts, lives := res.lives, reset := true, events := res.events)
    ensures res.ghosts == AllGhosts(r.ghosts)
  {
    var lost := ByteOf(r.lives - 1);
    var r1 := r.(reset := true, lives := lost, events := r.events + Emit(e.hooks, LifeLost(lost)));
    var r2 := r1.(ghosts := AllGhosts(r1.ghosts));
    r2.(events := r2.events + if lost == 0 then Emit(e.hooks, GameLost(e.level, r2.score)) else [])
  }

  /** Ghost i and Pacman swapped fields in this step. */
  predicate HeadOn(r: Round, i: nat)
    requires |r.moves| == NUMBER_OF_GHOSTS + 1 && i < NUMBER_OF_GHOSTS
  {
    r.moves[i + 1].to == r.moves[0].from && r.moves[i + 1].from == r.moves[0].to
  }

  /** Ghost i, not as eyes, met Pacman: head-on or on the same field. */
  predicate Meets(r: Round, i: nat)
    requires |r.ghosts| == NUMBER_OF_GHOSTS && |r.moves| == NUMBER_OF_GHOSTS + 1 && i < NUMBER_OF_GHOSTS
  {
    r.ghosts[i].kind != EYES && (HeadOn(r, i) || r.moves[i + 1].to == r.moves[0].to)
  }

  /** ... and was not eatable: Pacman loses a life. */
  predicate Catches(r: Round, i: nat)
    requires |r.ghosts| == NUMBER_OF_GHOSTS && |r.moves| == NUMBER_OF_GHOSTS + 1 && i < NUMBER_OF_GHOSTS
  {
    Meets(r, i) && r.ghosts[i].kind != EATABLE_GHOST
  }

  /** Every ghost is a plain ghost. */
  predicate AllPlain(gs: seq<Character>)
  {
    forall k :: 0 <= k < |gs| ==> gs[k].kind == GHOST
  }

  /** From r to res Pacman lost one life: reset asked for, all ghosts
      plain. */
  predicate LostOne(r: Round, res: Round)
  {
    res.lives == ByteOf(r.lives - 1) && res.reset && AllPlain(res.ghosts)
  }

  /** No life lost from r to res, or one. */
  predicate LivesRule(r: Round, res: Round)
  {
    (res.lives == r.lives && res.reset == r.reset) || LostOne(r, res)
  }

  /** The lives over a whole makeMove step: kept with no reset asked for,
      or one lost (in 8 bits) and the reset asked for. */
  predicate OneLifeAtMost(r: Round, res: Round)
  {
    (res.lives == r.lives && !res.reset) || (res.lives == ByteOf(r.lives - 1) && res.reset)
  }

  lemma LivesCarried(r: Round, next: Round, res: Round)
    requires next.lives == r.lives && next.reset == r.reset && LivesRule(next, res)
    ensures LivesRule(r, res)
  {
  }

  /** The collision checks of makeMove's ghost loop once ghost i has
      moved: head-on first, then on the same field. An eatable ghost is
      eaten and turns into eyes going home (head-on, back on the field it
      came from); any other ghost but eyes catches Pacman, and head-on
      Pacman is sent back too. */
  function Collide(e: Setup, r: Round, i: nat): (res: Round)
    requires RoundInside(r) && i < NUMBER_OF_GHOSTS && Inside(r.moves[i + 1].from)
    ensures RoundInside(res)
  {
    var g := r.ghosts[i];
    var m := r.moves[i + 1];
    var p := r.moves[0];
    if !Meets(r, i) then r
    else if HeadOn(r, i) then
      if g.kind == EATABLE_GHOST then
        var eyes := g.(kind := EYES, update := GoBackHome, position := m.from);
        AteGhost(e, r.(ghosts := r.ghosts[i := eyes], moves := r.moves[i + 1 := m.(to := m.from)]))
      else
        var r2 := Caught(e, r);
        r2.(pacman := r2.pacman.(position := p.from), moves := r2.moves[0 := p.(to := p.from)])
    else if g.kind == EATABLE_GHOST then
      AteGhost(e, r.(ghosts := r.ghosts[i := g.(kind := EYES, update := GoBackHome)]))
    else
      Caught(e, r)
  }

  /** The ghost loop from ghost i on: each ghost moves and is checked, up
      to the first one that catches Pacman. */
  function Turns(e: Setup, r: Round, i: nat, steers: seq<Direction>): (res: Round)
    requires Ready(e) && RoundInside(r) && i <= NUMBER_OF_GHOSTS && |steers| == NUMBER_OF_GHOSTS
    ensures RoundInside(res)
    decreases NUMBER_OF_GHOSTS - i, r.lives
  {
    if i == NUMBER_OF_GHOSTS then r
    else
      var moved := GhostMoved(e, r, i, steers[i]);
      var next := Collide(e, moved, i);
      if Catches(moved, i) then next else Turns(e, next, i + 1, steers)
  }

  /** makeMove's collision rules: an eatable ghost that meets Pacman turns
      into eyes going home and scores; any other ghost but eyes costs a
      life, sets every ghost back to a plain ghost and asks for the
      positions to be reset; without a meeting nothing changes. */
  lemma {:induction false} CollisionRules(e: Setup, r: Round, i: nat)
    requires RoundInside(r) && i < NUMBER_OF_GHOSTS && Inside(r.moves[i + 1].from)
    ensures var res := Collide(e, r, i);
      (Catches(r, i) ==> LostOne(r, res) && res.score == r.score)
      && (Meets(r, i) && r.ghosts[i].kind == EATABLE_GHOST ==>
            res.ghosts[i].kind == EYES && res.ghosts[i].update == GoBackHome
            && res.score == ByteOf(r.score + e.pointsForEating)
            && res.lives == r.lives && res.reset == r.reset)
      && (!Meets(r, i) ==> res == r)
      && r.events <= res.events
  {
  }

  /** One pass of the ghost loop: a ghost that catches Pacman ends it
      with a life lost; otherwise the loop goes on with the lives, the
      reset flag and the handler calls so far kept. */
  lemma {:induction false} TurnStep(e: Setup, r: Round, i: nat, steers: seq<Direction>)
    requires Ready(e) && RoundInside(r) && i < NUMBER_OF_GHOSTS && |steers| == NUMBER_OF_GHOSTS
    ensures var moved := GhostMoved(e, r, i, steers[i]);
      var next := Collide(e, moved, i);
      r.events <= next.events
      && (Catches(moved, i) ==> Turns(e, r, i, steers) == next && LostOne(r, next))
      && (!Catches(moved, i) ==>
            Turns(e, r, i, steers) == Turns(e, next, i + 1, steers)
            && next.lives == r.lives && next.reset == r.reset)
  {
    var moved := GhostMoved(e, r, i, steers[i]);
    CollisionRules(e, moved, i);
    assert moved.lives == r.lives && moved.reset == r.reset && moved.events == r.events;
  }

  /** The ghost loop only adds handler calls. */
  lemma {:induction false} TurnsEvents(e: Setup, r: Round, i: nat, steers: seq<Direction>)
    requires Ready(e) && RoundInside(r) && i <= NUMBER_OF_GHOSTS && |steers| == NUMBER_OF_GHOSTS
    ensures r.events <= Turns(e, r, i, steers).events
    decreases NUMBER_OF_GHOSTS - i
  {
    if i < NUMBER_OF_GHOSTS {
      TurnStep(e, r, i, steers);
      var next := Collide(e, GhostMoved(e, r, i, steers[i]), i);
      if !Catches(GhostMoved(e, r, i, steers[i]), i) {
        TurnsEvents(e, next, i + 1, steers);
        PrefixTransitive(r.events, next.events, Turns(e, next, i + 1, steers).events);
      }
    }
  }

  /** The ghost loop loses no life, or exactly one, and then asks for the
      reset and leaves every ghost a plain ghost. */
  lemma {:induction false} TurnsLives(e: Setup, r: Round, i: nat, steers: seq<Direction>)
    requires Ready(e) && RoundInside(r) && i <= NUMBER_OF_GHOSTS && |steers| == NUMBER_OF_GHOSTS
    ensures LivesRule(r, Turns(e, r, i, steers))
    decreases NUMBER_OF_GHOSTS - i
  {
    if i < NUMBER_OF_GHOSTS {
      TurnStep(e, r, i, steers);
      var next := Collide(e, GhostMoved(e, r, i, steers[i]), i);
      if !Catches(GhostMoved(e, r, i, steers[i]), i) {
        TurnsLives(e, next, i + 1, steers);
        LivesCarried(r, next, Turns(e, next, i + 1, steers));
      }
    }
  }

  /** The moves of one makeMove step: Pacman's, then the ghost loop. */
  function Moves(e: Setup, r: Round, pacmanSteer: Direction, ghostSteers: seq<Direction>): Round
    requires Ready(e) && CharactersInside(r) && |ghostSteers| == NUMBER_OF_GHOSTS
  {
    Turns(e, Started(e, r, pacmanSteer), 0, ghostSteers)
  }

  /** A step's moves keep every character inside the frame, only add
      handler calls, and lose at most one life. */
  lemma {:induction false} MovesOutcome(e: Setup, r: Round, pacmanSteer: Direction, ghostSteers: seq<Direction>)
    requires Ready(e) && CharactersInside(r) && |ghostSteers| == NUMBER_OF_GHOSTS
    ensures var res := Moves(e, r, pacmanSteer, ghostSteers);
      RoundInside(res) && r.events <= res.events && LivesRule(r, res)
  {
    var started := Started(e, r, pacmanSteer);
    TurnsEvents(e, started, 0, ghostSteers);
    TurnsLives(e, started, 0, ghostSteers);
    LivesCarried(r, started, Moves(e, r, pacmanSteer, ghostSteers));
  }

  lemma PrefixTransitive<T>(a: seq<T>, b: seq<T>, c: seq<T>)
    requires a <= b && b <= c
    ensures a <= c
  {
    assert c[..|a|] == b[..|a|];
  }

  /** The board once Pacman has eaten at `at`: that field emptied. */
  function Eaten(rows: seq<seq<Field>>, at: Coordinates): (res: seq<seq<Field>>)
    requires IsBoard(rows) && OnBoard(at)
    ensures IsBoard(res)
  {
    rows[at.y := rows[at.y][at.x := EMPTY]]
  }

  /** Eating inside the frame keeps the board walled and takes a POINT
      off the count. */
  lemma EatenWalled(rows: seq<seq<Field>>, at: Coordinates)
    requires IsBoard(rows) && Walled(rows) && Inside(at)
    ensures Walled(Eaten(rows, at))
    ensures Points(Eaten(rows, at)) == if rows[at.y][at.x] == POINT then Points(rows) - 1 else Points(rows)
  {
    PointEaten(rows, at.x, at.y);
  }

  /** Two boards that agree field by field are the same board. */
  lemma SameBoard(a: seq<seq<Field>>, b: seq<seq<Field>>)
    requires IsBoard(a) && IsBoard(b)
    requires forall i, j :: 0 <= i < BOARD_HEIGHT && 0 <= j < BOARD_WIDTH ==> a[i][j] == b[i][j]
    ensures a == b
  {
    forall i | 0 <= i < BOARD_HEIGHT
      ensures a[i] == b[i]
    {
      assert forall j :: 0 <= j < BOARD_WIDTH ==> a[i][j] == b[i][j];
    }
  }

  /** What makeMove relies on once initPacman ran, on values: the board
      is walled, every character and birthplace is inside the frame, and
      the points counter is the number of POINT cells left, in 8 bits. */
  predicate Sound(rows: seq<seq<Field>>, points: Byte, pacman: Character, ghosts: seq<Character>)
  {
    IsBoard(rows) && Walled(rows) && |ghosts| == NUMBER_OF_GHOSTS
    && Inside(pacman.position) && Inside(pacman.birthplace)
    && (forall i :: 0 <= i < NUMBER_OF_GHOSTS ==> Inside(ghosts[i].position) && Inside(ghosts[i].birthplace))
    && points == ByteOf(Points(rows))
  }

  /** initPacman's characters on a walled board, with the points counter
      at the board's POINT cells, make a sound game. */
  lemma StartSound(rows: seq<seq<Field>>, pacman: Character)
    requires IsBoard(rows) && Walled(rows)
    ensures Sound(rows, ByteOf(Points(rows)), StartingPacman(pacman), INITIAL_GHOSTS)
  {
  }

  /** Eating a POINT keeps the game sound with one point less to eat. */
  lemma PointSound(rows: seq<seq<Field>>, points: Byte, pacman: Character, ghosts: seq<Character>)
    requires Sound(rows, points, pacman, ghosts) && rows[pacman.position.y][pacman.position.x] == POINT
    ensures Sound(Eaten(rows, pacman.position), ByteOf(points - 1), pacman, ghosts)
  {
    EatenWalled(rows, pacman.position);
    ByteOfPred(Points(rows));
  }

  /** Eating a BONUS keeps the game sound with the ghosts frightened. */
  lemma BonusSound(rows: seq<seq<Field>>, points: Byte, pacman: Character, ghosts: seq<Character>)
    requires Sound(rows, points, pacman, ghosts) && rows[pacman.position.y][pacman.position.x] == BONUS
    ensures Sound(Eaten(rows, pacman.position), points, pacman, Frightened(ghosts))
  {
    EatenWalled(rows, pacman.position);
  }

  /** A sound game stays sound when its ghosts change in anything but
      their fields and birthplaces. */
  lemma GhostKindsSound(rows: seq<seq<Field>>, points: Byte, pacman: Character, ghosts: seq<Character>, now: seq<Character>)
    requires Sound(rows, points, pacman, ghosts) && |now| == |ghosts|
    requires forall i :: 0 <= i < |now| ==> now[i].position == ghosts[i].position && now[i].birthplace == ghosts[i].birthplace
    ensures Sound(rows, points, pacman, now)
  {
  }

  /** A sound game whose characters moved inside the frame, and kept
      their birthplaces, is sound. */
  lemma MovedSound(rows: seq<seq<Field>>, points: Byte, was: Round, r: Round)
    requires Sound(rows, points, was.pacman, was.ghosts) && CharactersInside(r)
    ensures Sound(rows, points, r.pacman, r.ghosts)
  {
  }

  /** Everything a makeMove step changes: the board, the round state, the
      points left to the end of the level and the eating time. */
  datatype GameState = GameState(rows: seq<seq<Field>>, round: Round, points: Byte, mode: Byte)

  /** The value-level soundness of a whole state. */
  predicate SoundState(st: GameState)
  {
    Sound(st.rows, st.points, st.round.pacman, st.round.ghosts) && |st.round.moves| == NUMBER_OF_GHOSTS + 1
  }

  /** makeMove's first step after initPacman or a lost life, on values:
      Pacman at his birthplace, every ghost at home waiting for its start
      time, every Move staying on a birthplace, and nothing else. */
  function ResetRound(r: Round): (res: Round)
    requires |r.ghosts| == NUMBER_OF_GHOSTS
  {
    r.(pacman := r.pacman.(position := r.pacman.birthplace),
       ghosts := seq(NUMBER_OF_GHOSTS, i requires 0 <= i < NUMBER_OF_GHOSTS => AtHome(r.ghosts[i])),
       moves := [Move(r.pacman.kind, r.pacman.birthplace, r.pacman.birthplace)]
         + seq(NUMBER_OF_GHOSTS, i requires 0 <= i < NUMBER_OF_GHOSTS =>
             Move(r.ghosts[i].kind, r.ghosts[i].birthplace, r.ghosts[i].birthplace)),
       reset := false)
  }

  /** The eating at Pacman's field, on values. */
  function EatenAt(st: GameState, hooks: set<Hook>, bonus: Byte): (res: GameState)
    requires IsBoard(st.rows) && OnBoard(st.round.pacman.position)
    ensures IsBoard(res.rows)
  {
    var at := st.round.pacman.position;
    var r := st.round;
    match st.rows[at.y][at.x]
    case POINT =>
      var score := ByteOf(r.score + 1);
      GameState(Eaten(st.rows, at), r.(score := score, events := r.events + Emit(hooks, ScoreChanged(score))),
                ByteOf(st.points - 1), st.mode)
    case BONUS =>
      var score := ByteOf(r.score + bonus);
      GameState(Eaten(st.rows, at),
                r.(ghosts := Frightened(r.ghosts), score := score, events := r.events + Emit(hooks, ScoreChanged(score))),
                st.points, INIT_TIME_TO_EAT)
    case _ => st
  }

  /** The count-down of the eating time, on values. */
  function CountedDown(st: GameState, hooks: set<Hook>): (res: GameState)
    ensures res.rows == st.rows
  {
    if st.mode == 0 then st
    else
      var mode := st.mode - 1;
      var r := st.round;
      st.(mode := mode,
          round := r.(ghosts := if mode == 0 then Calmed(r.ghosts) else r.ghosts,
                      events := r.events + Emit(hooks, TimeToEatChanged(mode))))
  }

  /** The level check at the end of a step, on values. */
  function LevelChecked(st: GameState, hooks: set<Hook>, level: Byte): (res: GameState)
    ensures res.rows == st.rows
  {
    if st.points == 0 then st.(round := st.round.(events := st.round.events + Emit(hooks, LevelCompleted(level, st.round.score))))
    else st
  }

  /** makeMove after the moves: eating, count-down, level check. */
  function Fed(st: GameState, hooks: set<Hook>, bonus: Byte, level: Byte): (res: GameState)
    requires IsBoard(st.rows) && OnBoard(st.round.pacman.position)
    ensures IsBoard(res.rows)
  {
    LevelChecked(CountedDown(EatenAt(st, hooks, bonus), hooks), hooks, level)
  }

  /** The moves of a makeMove step, on the whole state. */
  function MovedState(e: Setup, st: GameState, pacmanSteer: Direction, ghostSteers: seq<Direction>): (res: GameState)
    requires Ready(e) && CharactersInside(st.round) && |ghostSteers| == NUMBER_OF_GHOSTS
  {
    st.(round := Moves(e, st.round, pacmanSteer, ghostSteers))
  }

  /** A makeMove step past the reset, on values. */
  function Played(e: Setup, st: GameState, bonus: Byte, pacmanSteer: Direction, ghostSteers: seq<Direction>): (res: GameState)
    requires Ready(e) && IsBoard(st.rows) && CharactersInside(st.round) && |ghostSteers| == NUMBER_OF_GHOSTS
  {
    Fed(MovedState(e, st, pacmanSteer, ghostSteers), e.hooks, bonus, e.level)
  }

  /** A whole makeMove step, on values. */
  function MadeMove(e: Setup, st: GameState, bonus: Byte, pacmanSteer: Direction, ghostSteers: seq<Direction>): (res: GameState)
    requires Ready(e) && IsBoard(st.rows) && CharactersInside(st.round) && |ghostSteers| == NUMBER_OF_GHOSTS
  {
    if st.round.reset then st.(round := ResetRound(st.round))
    else Played(e, st, bonus, pacmanSteer, ghostSteers)
  }

  /** Eating keeps a sound state sound and changes only the board, the
      score, the ghosts' kinds, the counters and the handler calls: a
      POINT takes one point off the board, a BONUS none, and the handler
      calls only grow. */
  lemma EatenAtSound(st: GameState, hooks: set<Hook>, bonus: Byte)
    requires SoundState(st)
    ensures var res := EatenAt(st, hooks, bonus);
      var at := st.round.pacman.position;
      SoundState(res) && st.round.events <= res.round.events
      && res.round == st.round.(ghosts := res.round.ghosts, score := res.round.score, events := res.round.events)
      && Points(res.rows) == (if st.rows[at.y][at.x] == POINT then Points(st.rows) - 1 else Points(st.rows))
  {
    var at := st.round.pacman.position;
    var r := st.round;
    if st.rows[at.y][at.x] == POINT {
      PointSound(st.rows, st.points, r.pacman, r.ghosts);
    } else if st.rows[at.y][at.x] == BONUS {
      BonusSound(st.rows, st.points, r.pacman, r.ghosts);
    }
    if st.rows[at.y][at.x] == POINT || st.rows[at.y][at.x] == BONUS {
      EatenWalled(st.rows, at);
    }
  }

  /** The count-down keeps a sound state sound, changes only the eating
      time, the ghosts' kinds and the handler calls, and when the time
      runs out no ghost is eatable any more. */
  lemma CountedDownSound(st: GameState, hooks: set<Hook>)
    requires SoundState(st)
    ensures var res := CountedDown(st, hooks);
      SoundState(res) && st.round.events <= res.round.events && res.points == st.points
      && res.round == st.round.(ghosts := res.round.ghosts, events := res.round.events)
      && (st.mode != 0 && res.mode == 0 ==> forall i :: 0 <= i < |res.round.ghosts| ==> res.round.ghosts[i].kind != EATABLE_GHOST)
  {
    var res := CountedDown(st, hooks);
    if st.mode != 0 {
      GhostKindsSound(st.rows, st.points, st.round.pacman, st.round.ghosts, res.round.ghosts);
    }
  }

  /** makeMove after the moves keeps a sound state sound, never adds a
      point to the board, leaves Pacman, the moves, the lives and the
      reset flag alone, only adds handler calls, and reports the level
      complete last when no point is left. */
  lemma FedSound(st: GameState, hooks: set<Hook>, bonus: Byte, level: Byte)
    requires SoundState(st)
    ensures var res := Fed(st, hooks, bonus, level);
      SoundState(res) && st.round.events <= res.round.events && Points(res.rows) <= Points(st.rows)
      && res.round == st.round.(ghosts := res.round.ghosts, score := res.round.score, events := res.round.events)
      && (res.points == 0 && OnLevelCompleted in hooks ==>
            res.round.events != [] && res.round.events[|res.round.events| - 1] == LevelCompleted(level, res.round.score))
  {
    var eaten := EatenAt(st, hooks, bonus);
    var counted := CountedDown(eaten, hooks);
    var res := LevelChecked(counted, hooks, level);
    assert res == Fed(st, hooks, bonus, level);
    EatenAtSound(st, hooks, bonus);
    CountedDownSound(eaten, hooks);
    assert res.rows == counted.rows && res.points == counted.points && res.round == counted.round.(events := res.round.events);
    PrefixTransitive(st.round.events, eaten.round.events, counted.round.events);
    PrefixTransitive(st.round.events, counted.round.events, res.round.events);
  }

  /** The reset step keeps a sound state sound: every character on its
      birthplace, every ghost waiting at home for its start time, every
      Move staying where it is, the reset done, and the board, score,
      lives, counters and handler calls unchanged. */
  lemma ResetSound(st: GameState)
    requires SoundState(st)
    ensures var r := ResetRound(st.round);
      SoundState(st.(round := r)) && !r.reset
      && r.pacman.position == r.pacman.birthplace
      && (forall i :: 0 <= i < NUMBER_OF_GHOSTS ==>
            r.ghosts[i].position == r.ghosts[i].birthplace && r.ghosts[i].update == StayAtHome
            && r.ghosts[i].timeToStart == r.ghosts[i].startTime && r.ghosts[i].kind == st.round.ghosts[i].kind)
      && (forall i :: 0 <= i <= NUMBER_OF_GHOSTS ==> r.moves[i].from == r.moves[i].to)
      && r.score == st.round.score && r.lives == st.round.lives && r.events == st.round.events
  {
  }

  /** A makeMove step past the reset, on a sound state, gives a sound
      state whose handler calls extend the old ones. It loses at most one
      life, and then asks for the reset; never adds a point to the board;
      and reports the level complete last when no point is left. */
  lemma PlayedSound(e: Setup, st: GameState, bonus: Byte, pacmanSteer: Direction, ghostSteers: seq<Direction>)
    requires Ready(e) && SoundState(st) && !st.round.reset && |ghostSteers| == NUMBER_OF_GHOSTS
    ensures var res := Played(e, st, bonus, pacmanSteer, ghostSteers);
      SoundState(res) && st.round.events <= res.round.events && Points(res.rows) <= Points(st.rows)
      && OneLifeAtMost(st.round, res.round)
      && (res.points == 0 && OnLevelCompleted in e.hooks ==>
            res.round.events != [] && res.round.events[|res.round.events| - 1] == LevelCompleted(e.level, res.round.score))
  {
    var moved := Moves(e, st.round, pacmanSteer, ghostSteers);
    MovesOutcome(e, st.round, pacmanSteer, ghostSteers);
    MovedSound(st.rows, st.points, st.round, moved);
    FedSound(st.(round := moved), e.hooks, bonus, e.level);
    PrefixTransitive(st.round.events, moved.events, Played(e, st, bonus, pacmanSteer, ghostSteers).round.events);
  }

  /** A whole makeMove step on a sound state gives a sound state whose
      handler calls extend the old ones. The reset step changes nothing
      but the characters, the moves and the flag. Any other step loses at
      most one life, and then asks for the reset; never adds a point to
      the board; and reports the level complete last when no point is
      left. */
  lemma {:induction false} MadeMoveSound(e: Setup, st: GameState, bonus: Byte, pacmanSteer: Direction, ghostSteers: seq<Direction>)
    requires Ready(e) && SoundState(st) && |ghostSteers| == NUMBER_OF_GHOSTS
    ensures var res := MadeMove(e, st, bonus, pacmanSteer, ghostSteers);
      SoundState(res) && st.round.events <= res.round.events
      && (st.round.reset ==>
            res.rows == st.rows && res.points == st.points && res.mode == st.mode
            && res.round.events == st.round.events && res.round.lives == st.round.lives && !res.round.reset)
      && (!st.round.reset ==>
            Points(res.rows) <= Points(st.rows)
            && OneLifeAtMost(st.round, res.round)
            && (res.points == 0 && OnLevelCompleted in e.hooks ==>
                  res.round.events != [] && res.round.events[|res.round.events| - 1] == LevelCompleted(e.level, res.round.score)))
  {
    if st.round.reset {
      ResetSound(st);
    } else {
      PlayedSound(e, st, bonus, pacmanSteer, ghostSteers);
    }
  }

  /** The game: the global board, the static moves buffer, the characters
      and the counters of pacman.c. The values the source takes from
      definitions outside the files shown (INIT_LEVEL, INIT_LIVES,
      INIT_SCORE, POINTS_FOR_EATING, POINTS_FOR_BONUS) are constants this
      object is built with. */
  class Game {
    const board: array2<Field>
    const moves: array<Move>
    const initLevel: Byte
    const initLives: Byte
    const initScore: Byte
    const pointsForEating: Byte
    const pointsForBonus: Byte

    var pacman: Character
    var ghosts: seq<Character>
    var ghostEatingMode: Byte
    var moveToInitPositions: bool
    var defaultBoardUsed: bool
    var level: Byte
    var lives: Byte
    var score: Byte
    var pointsToCompleteLevel: Byte
    /** The handlers registered so far. */
    var hooks: set<Hook>
    /** Every handler call, in order. */
    var events: seq<Event>

    predicate Shaped()
    {
      board.Length0 == BOARD_HEIGHT && board.Length1 == BOARD_WIDTH && moves.Length == NUMBER_OF_GHOSTS + 1
    }

    /** The board as rows of fields. */
    function Rows(): (rows: seq<seq<Field>>)
      reads board
      requires Shaped()
      ensures |rows| == BOARD_HEIGHT && forall i :: 0 <= i < BOARD_HEIGHT ==> |rows[i]| == BOARD_WIDTH
      ensures forall i, j :: 0 <= i < BOARD_HEIGHT && 0 <= j < BOARD_WIDTH ==> rows[i][j] == board[i, j]
    {
      seq(BOARD_HEIGHT, i requires 0 <= i < BOARD_HEIGHT reads board =>
        seq(BOARD_WIDTH, j requires 0 <= j < BOARD_WIDTH reads board => board[i, j]))
    }

    /** What makeMove relies on once initPacman ran: the board is walled,
        every character and birthplace is inside the frame, and the points
        counter is the number of POINT cells left, in 8 bits. */
    predicate Valid()
      reads this, board
    {
      Shaped() && Sound(Rows(), pointsToCompleteLevel, pacman, ghosts)
    }

    /** The zero-initialised globals, before initPacman. */
    constructor (initLevel: Byte, initLives: Byte, initScore: Byte, pointsForEating: Byte, pointsForBonus: Byte)
      ensures Shaped() && |ghosts| == NUMBER_OF_GHOSTS && fresh(board) && fresh(moves)
      ensures this.initLevel == initLevel && this.initLives == initLives && this.initScore == initScore
      ensures this.pointsForEating == pointsForEating && this.pointsForBonus == pointsForBonus
      ensures hooks == {} && events == [] && !moveToInitPositions
    {
      var origin := Coordinates(0, 0);
      var blank := Character(PACMAN, origin, origin, LEFT, LEFT, LEFT, 0, 0, NoCallback);
      board := new Field[BOARD_HEIGHT, BOARD_WIDTH]((i, j) => EMPTY);
      moves := new Move[NUMBER_OF_GHOSTS + 1](_ => Move(PACMAN, origin, origin));
      this.initLevel := initLevel;
      this.initLives := initLives;
      this.initScore := initScore;
      this.pointsForEating := pointsForEating;
      this.pointsForBonus := pointsForBonus;
      pacman := blank;
      ghosts := [blank, blank, blank, blank];
      ghostEatingMode := 0;
      moveToInitPositions := false;
      defaultBoardUsed := false;
      level := 0;
      lives := 0;
      score := 0;
      pointsToCompleteLevel := 0;
      hooks := {};
      events := [];
    }

    /** setDirectionCallback. */
    method SetDirectionCallback(b: Behaviour)
      modifies this`pacman
      ensures pacman == old(pacman).(update := b)
    {
      pacman := pacman.(update := b);
    }

    /** setGhostDirectionCallback: an index past the last ghost is ignored. */
    method SetGhostDirectionCallback(index: Byte, b: Behaviour)
      requires |ghosts| == NUMBER_OF_GHOSTS
      modifies this`ghosts
      ensures index < NUMBER_OF_GHOSTS ==> ghosts == old(ghosts)[index := old(ghosts)[index].(update := b)]
      ensures index >= NUMBER_OF_GHOSTS ==> ghosts == old(ghosts)
    {
      if index < NUMBER_OF_GHOSTS {
        ghosts := ghosts[index := ghosts[index].(update := b)];
      }
    }

    /** onGameLost, onLifeLost, onScoreChanged, onLevelCompleted,
        onGhostEaten, onTimeToEatChanged: `present` is false for a NULL
        handler. */
    method SetHandler(h: Hook, present: bool)
      modifies this`hooks
      ensures hooks == if present then old(hooks) + {h} else old(hooks) - {h}
    {
      hooks := if present then hooks + {h} else hooks - {h};
    }

    /** calculatePointsToComplete: the POINT cells of the board. */
    method CalculatePointsToComplete() returns (result: int)
      requires Shaped()
      ensures result == Points(Rows())
    {
      ghost var rows := Rows();
      result := 0;
      var i := 0;
      while i < BOARD_HEIGHT
        invariant 0 <= i <= BOARD_HEIGHT && result == Points(rows[..i])
      {
        var j := 0;
        while j < BOARD_WIDTH
          invariant 0 <= j <= BOARD_WIDTH && result == Points(rows[..i]) + RowPoints(rows[i][..j])
        {
          assert rows[i][..j + 1][..j] == rows[i][..j];
          if board[i, j] == POINT {
            result := result + 1;
          }
          j := j + 1;
        }
        assert rows[..i + 1][..i] == rows[..i];
        assert rows[i][..BOARD_WIDTH] == rows[i];
        i := i + 1;
      }
      assert rows[..BOARD_HEIGHT] == rows;
    }

    /** The row-by-row copy of defaultBoard into board. */
    method CopyDefaultBoard()
      requires Shaped()
      modifies board
      ensures Rows() == DefaultBoard()
    {
      var row := 0;
      while row < BOARD_HEIGHT
        invariant 0 <= row <= BOARD_HEIGHT
        invariant forall r, c :: 0 <= r < row && 0 <= c < BOARD_WIDTH ==> board[r, c] == DefaultField(r, c)
      {
        var column := 0;
        while column < BOARD_WIDTH
          invariant 0 <= column <= BOARD_WIDTH
          invariant forall r, c :: 0 <= r < row && 0 <= c < BOARD_WIDTH ==> board[r, c] == DefaultField(r, c)
          invariant forall c :: 0 <= c < column ==> board[row, c] == DefaultField(row, c)
        {
          board[row, column] := DefaultField(row, column);
          column := column + 1;
        }
        row := row + 1;
      }
      var rows := Rows();
      forall i | 0 <= i < BOARD_HEIGHT
        ensures rows[i] == DefaultBoard()[i]
      {
        assert forall j :: 0 <= j < BOARD_WIDTH ==> rows[i][j] == DefaultBoard()[i][j];
      }
    }

    /** The counters initPacman starts a game with, the points to eat
        counted on the board. */
    method StartCounters()
      requires Shaped()
      modifies this`ghostEatingMode, this`moveToInitPositions, this`level, this`lives, this`score, this`pointsToCompleteLevel
      ensures ghostEatingMode == 0 && moveToInitPositions
      ensures level == initLevel && lives == initLives && score == initScore
      ensures pointsToCompleteLevel == ByteOf(Points(Rows()))
    {
      ghostEatingMode := 0;
      moveToInitPositions := true;
      level := initLevel;
      lives := initLives;
      score := initScore;
      var points := CalculatePointsToComplete();
      pointsToCompleteLevel := ByteOf(points);
    }

    /** Pacman and the ghosts at their starting fields. */
    method PlaceCharacters()
      modifies this`pacman, this`ghosts
      ensures pacman == StartingPacman(old(pacman)) && ghosts == INITIAL_GHOSTS
    {
      pacman := pacman.(birthplace := PACMAN_BIRTHPLACE, currentDirection := LEFT, nextDirection := LEFT);
      pacman := pacman.(position := PACMAN_BIRTHPLACE, kind := PACMAN);
      if pacman.update == NoCallback {
        pacman := pacman.(update := GhostMovement);
      }
      ghosts := INITIAL_GHOSTS;
    }

    /** initPacman: the default board when asked for, the counters, the
        points to eat, and every character at its start; then the life
        count is reported. */
    method InitPacman(useDefaultBoard: bool)
      requires Shaped() && |ghosts| == NUMBER_OF_GHOSTS
      modifies board, this`defaultBoardUsed, this`ghostEatingMode, this`moveToInitPositions, this`level
      modifies this`lives, this`score, this`pointsToCompleteLevel, this`pacman, this`ghosts, this`events
      ensures useDefaultBoard ==> Rows() == DefaultBoard()
      ensures !useDefaultBoard ==> Rows() == old(Rows())
      ensures defaultBoardUsed == useDefaultBoard
      ensures ghostEatingMode == 0 && moveToInitPositions
      ensures level == initLevel && lives == initLives && score == initScore
      ensures pointsToCompleteLevel == ByteOf(Points(Rows()))
      ensures pacman == StartingPacman(old(pacman)) && ghosts == INITIAL_GHOSTS
      ensures events == old(events) + Emit(hooks, LifeLost(lives))
      ensures useDefaultBoard || Walled(old(Rows())) ==> Valid()
    {
      defaultBoardUsed := useDefaultBoard;
      if useDefaultBoard {
        CopyDefaultBoard();
        DefaultWalled();
      }
      StartCounters();
      PlaceCharacters();
      events := events + Emit(hooks, LifeLost(lives));
      if useDefaultBoard || Walled(old(Rows())) {
        StartSound(Rows(), old(pacman));
      }
    }

    /** The round state as the fields hold it. */
    function Snapshot(): Round
      reads this`pacman, this`ghosts, this`score, this`lives, this`moveToInitPositions, this`events, moves
    {
      Round(pacman, ghosts, moves[..], score, lives, moveToInitPositions, events)
    }

    /** Everything a makeMove step changes, as a value. */
    function State(): GameState
      reads this, board, moves
      requires Shaped()
    {
      GameState(Rows(), Snapshot(), pointsToCompleteLevel, ghostEatingMode)
    }

    /** What a step reads besides the round state. */
    function CurrentSetup(): (e: Setup)
      reads this`defaultBoardUsed, this`hooks, this`level, board
      requires Shaped()
      ensures IsBoard(e.rows)
    {
      Setup(Rows(), defaultBoardUsed, hooks, level, pointsForEating)
    }

    /** The handlers, the level and the points for a ghost are those of e. */
    predicate Scores(e: Setup)
      reads this`hooks, this`level
    {
      e.hooks == hooks && e.level == level && e.pointsForEating == pointsForEating
    }

    /** canMove on the board itself. */
    function Passable(to: Coordinates, kind: CharacterType): (b: bool)
      reads board
      requires Shaped() && OnBoard(to)
      ensures b == CanMove(Rows(), to, kind)
    {
      board[to.y, to.x] != WALL && !(kind == PACMAN && board[to.y, to.x] == DOORS)
    }

    /** The search of defaultGoBackHome in the middle of the house: the
        directions in enum order until one steps onto the birthplace. The
        source keeps counting past DOWN when none does and never returns;
        here the search stops after DOWN and reports that it failed. */
    static method FindHome(position: Coordinates, birthplace: Coordinates) returns (found: bool, dir: Direction)
      ensures found == HomeAdjacent(position, birthplace)
      ensures found ==> dir == HomeDirection(position, birthplace)
    {
      var k: nat := 0;
      var coords := CalculateMove(position, DirectionOf(k));
      while coords != birthplace && k < 3
        invariant k <= 3 && coords == CalculateMove(position, DirectionOf(k))
        invariant forall j :: 0 <= j < k ==> CalculateMove(position, DirectionOf(j)) != birthplace
      {
        k := k + 1;
        coords := CalculateMove(position, DirectionOf(k));
      }
      found := coords == birthplace;
      dir := DirectionOf(k);
      assert DirectionOf(0) == LEFT && DirectionOf(1) == RIGHT && DirectionOf(2) == UP && DirectionOf(3) == DOWN;
    }

    /** defaultGoBackHome, through the search above. */
    method DefaultGoBackHome(c: Character, steer: Direction) returns (t: Turn)
      ensures t == GoBackHomeRule(c, steer, defaultBoardUsed)
    {
      if c.position == c.birthplace {
        t := ExitHomeRule(c.(kind := GHOST, update := ExitHome));
      } else if !defaultBoardUsed {
        t := GhostMovementRule(c, steer);
      } else if HasSignpost(c.position) {
        t := Turn(c, Signpost(c.position));
      } else if c.position == Coordinates(10, 8) {
        var found, dir := FindHome(c.position, c.birthplace);
        t := if found then Turn(c, dir) else GhostMovementRule(c, steer);
      } else {
        t := GhostMovementRule(c, steer);
      }
    }

    /** The call through character->updateDirection. */
    method UpdateDirection(c: Character, steer: Direction) returns (t: Turn)
      requires c.update != NoCallback
      ensures t == Dispatch(c, steer, defaultBoardUsed)
    {
      match c.update
      case Steered => t := Turn(c, steer);
      case StayAtHome => t := StayAtHomeRule(c);
      case ExitHome => t := ExitHomeRule(c);
      case GoBackHome => t := DefaultGoBackHome(c, steer);
      case GhostMovement => t := GhostMovementRule(c, steer);
    }

    /** move(): the character after its step, and the Move it reports. */
    method MoveCharacter(c: Character, steer: Direction) returns (s: Stepped)
      requires Shaped() && Inside(c.position)
      ensures s == StepOf(CurrentSetup(), c, steer)
    {
      var ch := c;
      if c.update != NoCallback {
        var t := UpdateDirection(c, steer);
        ch := t.c.(nextDirection := t.dir);
      }
      var kind := ch.kind;
      var from := ch.position;
      var to := CalculateMove(from, ch.nextDirection);
      StepOnBoard(from, ch.nextDirection);
      StepOnBoard(from, ch.currentDirection);
      if Passable(to, kind) {
        ch := ch.(currentDirection := ch.nextDirection);
      } else {
        to := CalculateMove(from, ch.currentDirection);
        if !Passable(to, kind) {
          to := from;
        }
      }
      ch := ch.(position := to);
      s := Stepped(ch, Move(kind, from, to));
    }


    /** makeMove's first step after initPacman or a lost life: every
        character put at its birthplace with a Move that stays there, the
        ghosts waiting at home again for their start time. */
    method ResetPositions()
      requires Shaped() && |ghosts| == NUMBER_OF_GHOSTS
      modifies this`pacman, this`ghosts, this`moveToInitPositions, moves
      ensures pacman == old(pacman).(position := old(pacman).birthplace)
      ensures |ghosts| == NUMBER_OF_GHOSTS
      ensures forall i :: 0 <= i < NUMBER_OF_GHOSTS ==> ghosts[i] == AtHome(old(ghosts)[i])
      ensures moves[0] == Move(old(pacman).kind, old(pacman).birthplace, old(pacman).birthplace)
      ensures forall i :: 0 <= i < NUMBER_OF_GHOSTS ==>
        moves[i + 1] == Move(old(ghosts)[i].kind, old(ghosts)[i].birthplace, old(ghosts)[i].birthplace)
      ensures !moveToInitPositions
      ensures Snapshot() == old(ResetRound(Snapshot()))
    {
      ghost var goal := ResetRound(Snapshot());
      moves[0] := Move(pacman.kind, pacman.birthplace, pacman.birthplace);
      pacman := pacman.(position := pacman.birthplace);
      var i := 0;
      while i < NUMBER_OF_GHOSTS
        invariant 0 <= i <= NUMBER_OF_GHOSTS && |ghosts| == NUMBER_OF_GHOSTS
        invariant pacman == old(pacman).(position := old(pacman).birthplace)
        invariant moves[0] == old(Move(pacman.kind, pacman.birthplace, pacman.birthplace))
        invariant forall k :: 0 <= k < i ==> ghosts[k] == AtHome(old(ghosts)[k])
        invariant forall k :: i <= k < NUMBER_OF_GHOSTS ==> ghosts[k] == old(ghosts)[k]
        invariant forall k :: 0 <= k < i ==>
          moves[k + 1] == Move(old(ghosts)[k].kind, old(ghosts)[k].birthplace, old(ghosts)[k].birthplace)
      {
        var g := ghosts[i];
        moves[i + 1] := Move(g.kind, g.birthplace, g.birthplace);
        ghosts := ghosts[i := g.(position := g.birthplace, update := StayAtHome, timeToStart := g.startTime)];
        i := i + 1;
      }
      moveToInitPositions := false;
      assert ghosts == goal.ghosts;
      assert moves[..] == goal.moves by {
        forall k | 1 <= k <= NUMBER_OF_GHOSTS
          ensures moves[k] == goal.moves[k]
        {
          assert moves[(k - 1) + 1] == goal.moves[k];
        }
      }
    }

    /** The loop of a lost life that turns every ghost into a plain ghost. */
    method AllPlainGhosts()
      requires |ghosts| == NUMBER_OF_GHOSTS
      modifies this`ghosts
      ensures ghosts == AllGhosts(old(ghosts))
    {
      var i := 0;
      while i < NUMBER_OF_GHOSTS
        invariant 0 <= i <= NUMBER_OF_GHOSTS && |ghosts| == NUMBER_OF_GHOSTS
        invariant forall k :: 0 <= k < i ==> ghosts[k] == old(ghosts)[k].(kind := GHOST)
        invariant forall k :: i <= k < NUMBER_OF_GHOSTS ==> ghosts[k] == old(ghosts)[k]
      {
        ghosts := ghosts[i := ghosts[i].(kind := GHOST)];
        i := i + 1;
      }
    }

    /** Pacman is caught: a life less and reported, plain ghosts, and the
        lost game reported when no life is left. */
    method LoseLife(ghost e: Setup)
      requires |ghosts| == NUMBER_OF_GHOSTS && Scores(e)
      modifies this`moveToInitPositions, this`lives, this`events, this`ghosts
      ensures Snapshot() == Caught(e, old(Snapshot()))
    {
      moveToInitPositions := true;
      lives := ByteOf(lives - 1);
      events := events + Emit(hooks, LifeLost(lives));
      AllPlainGhosts();
      if lives == 0 {
        events := events + Emit(hooks, GameLost(level, score));
      }
    }

    /** Pacman eats an eatable ghost. */
    method EatGhost(ghost e: Setup)
      requires Scores(e)
      modifies this`score, this`events
      ensures Snapshot() == AteGhost(e, old(Snapshot()))
    {
      events := events + Emit(hooks, GhostEaten);
      score := ByteOf(score + pointsForEating);
      events := events + Emit(hooks, ScoreChanged(score));
    }

    /** Ghost i's move in the ghost loop of makeMove. */
    method MoveGhost(ghost e: Setup, i: nat, steer: Direction)
      requires Shaped() && e == CurrentSetup() && Ready(e) && RoundInside(Snapshot()) && i < NUMBER_OF_GHOSTS
      modifies this`ghosts, moves
      ensures Snapshot() == GhostMoved(e, old(Snapshot()), i, steer)
    {
      var s := MoveCharacter(ghosts[i], steer);
      ghosts := ghosts[i := s.c];
      moves[i + 1] := s.m;
    }

    /** The collision checks of ghost i; `stop` when it caught Pacman. */
    method Collision(ghost e: Setup, i: nat) returns (stop: bool)
      requires RoundInside(Snapshot()) && i < NUMBER_OF_GHOSTS && Inside(moves[i + 1].from) && Scores(e)
      modifies this`ghosts, this`pacman, this`score, this`lives, this`moveToInitPositions, this`events, moves
      ensures Snapshot() == Collide(e, old(Snapshot()), i)
      ensures stop == Catches(old(Snapshot()), i)
    {
      ghost var r := Snapshot();
      var g := ghosts[i];
      var m := moves[i + 1];
      var p := moves[0];
      stop := false;
      if g.kind != EYES && m.to == p.from && m.from == p.to {
        if g.kind == EATABLE_GHOST {
          ghosts := ghosts[i := g.(kind := EYES, update := GoBackHome, position := m.from)];
          moves[i + 1] := m.(to := m.from);
          assert Snapshot() == r.(ghosts := r.ghosts[i := g.(kind := EYES, update := GoBackHome, position := m.from)],
                                  moves := r.moves[i + 1 := m.(to := m.from)]);
          EatGhost(e);
        } else {
          LoseLife(e);
          ghost var r2 := Caught(e, r);
          pacman := pacman.(position := p.from);
          moves[0] := p.(to := p.from);
          assert Snapshot() == r2.(pacman := r2.pacman.(position := p.from), moves := r2.moves[0 := p.(to := p.from)]);
          stop := true;
        }
      } else if g.kind != EYES && m.to == p.to {
        if g.kind == EATABLE_GHOST {
          ghosts := ghosts[i := g.(kind := EYES, update := GoBackHome)];
          assert Snapshot() == r.(ghosts := r.ghosts[i := g.(kind := EYES, update := GoBackHome)]);
          EatGhost(e);
        } else {
          LoseLife(e);
          stop := true;
        }
      }
    }

    /** makeMove's moves: Pacman, then each ghost with its collision checks,
        up to the first one that catches Pacman. */
    method MoveAll(pacmanSteer: Direction, ghostSteers: seq<Direction>)
      requires Valid() && |ghostSteers| == NUMBER_OF_GHOSTS
      modifies this`ghosts, this`pacman, this`score, this`lives, this`moveToInitPositions, this`events, moves
      ensures Snapshot() == old(Moves(CurrentSetup(), Snapshot(), pacmanSteer, ghostSteers))
    {
      ghost var e := CurrentSetup();
      ghost var goal := Turns(e, Started(e, Snapshot(), pacmanSteer), 0, ghostSteers);
      MovePacman(e, pacmanSteer);
      var i := 0;
      while i < NUMBER_OF_GHOSTS
        invariant 0 <= i <= NUMBER_OF_GHOSTS && RoundInside(Snapshot()) && e == CurrentSetup()
        invariant Turns(e, Snapshot(), i, ghostSteers) == goal
      {
        TurnStep(e, Snapshot(), i, ghostSteers);
        var stop := GhostPass(e, i, ghostSteers[i]);
        if stop {
          break;
        }
        i := i + 1;
      }
      assert Snapshot() == goal;
    }

    /** One pass of makeMove's ghost loop: ghost i moves and is checked;
        `stop` when it caught Pacman, and otherwise the loop goes on with
        the next ghost. */
    method GhostPass(ghost e: Setup, i: nat, steer: Direction) returns (stop: bool)
      requires Shaped() && e == CurrentSetup() && Ready(e) && RoundInside(Snapshot()) && i < NUMBER_OF_GHOSTS
      modifies this`ghosts, this`pacman, this`score, this`lives, this`moveToInitPositions, this`events, moves
      ensures var moved := GhostMoved(e, old(Snapshot()), i, steer);
        Snapshot() == Collide(e, moved, i) && stop == Catches(moved, i)
      ensures e == CurrentSetup()
    {
      MoveGhost(e, i, steer);
      stop := Collision(e, i);
    }

    /** Pacman's move at the start of makeMove's moves. */
    method MovePacman(ghost e: Setup, steer: Direction)
      requires Shaped() && e == CurrentSetup() && Ready(e) && CharactersInside(Snapshot())
      modifies this`pacman, moves
      ensures Snapshot() == Started(e, old(Snapshot()), steer)
    {
      var s := MoveCharacter(pacman, steer);
      pacman := s.c;
      moves[0] := s.m;
    }

    /** The BONUS loop that makes every plain ghost eatable. */
    method FrightenGhosts()
      modifies this`ghosts
      ensures ghosts == Frightened(old(ghosts))
    {
      var i := 0;
      while i < |ghosts|
        invariant 0 <= i <= |ghosts| == |old(ghosts)|
        invariant forall k :: 0 <= k < i ==>
          ghosts[k] == if old(ghosts)[k].kind == GHOST then old(ghosts)[k].(kind := EATABLE_GHOST) else old(ghosts)[k]
        invariant forall k :: i <= k < |ghosts| ==> ghosts[k] == old(ghosts)[k]
      {
        if ghosts[i].kind == GHOST {
          ghosts := ghosts[i := ghosts[i].(kind := EATABLE_GHOST)];
        }
        i := i + 1;
      }
    }

    /** The loop at the end of the eating time that makes every eatable
        ghost a plain ghost again. */
    method CalmGhosts()
      modifies this`ghosts
      ensures ghosts == Calmed(old(ghosts))
    {
      var i := 0;
      while i < |ghosts|
        invariant 0 <= i <= |ghosts| == |old(ghosts)|
        invariant forall k :: 0 <= k < i ==>
          ghosts[k] == if old(ghosts)[k].kind == EATABLE_GHOST then old(ghosts)[k].(kind := GHOST) else old(ghosts)[k]
        invariant forall k :: i <= k < |ghosts| ==> ghosts[k] == old(ghosts)[k]
      {
        if ghosts[i].kind == EATABLE_GHOST {
          ghosts := ghosts[i := ghosts[i].(kind := GHOST)];
        }
        i := i + 1;
      }
    }

    /** makeMove's eating at Pacman's field: a POINT scores one and is one
        point less to the end of the level; a BONUS scores pointsForBonus
        and makes the plain ghosts eatable for INIT_TIME_TO_EAT steps;
        either field is emptied and the new score reported. Any other
        field changes nothing. */
    method Eat()
      requires Valid()
      modifies board, this`score, this`pointsToCompleteLevel, this`ghostEatingMode, this`ghosts, this`events
      ensures Valid()
      ensures var at := pacman.position;
        var f := old(Rows())[at.y][at.x];
        (f == POINT || f == BONUS ==>
           Rows() == Eaten(old(Rows()), at) && events == old(events) + Emit(hooks, ScoreChanged(score)))
        && (f != POINT && f != BONUS ==> Rows() == old(Rows()) && events == old(events))
        && score == (if f == POINT then ByteOf(old(score) + 1)
                     else if f == BONUS then ByteOf(old(score) + pointsForBonus) else old(score))
        && pointsToCompleteLevel == (if f == POINT then ByteOf(old(pointsToCompleteLevel) - 1)
                                     else old(pointsToCompleteLevel))
        && ghostEatingMode == (if f == BONUS then INIT_TIME_TO_EAT else old(ghostEatingMode))
        && ghosts == (if f == BONUS then Frightened(old(ghosts)) else old(ghosts))
    {
      var at := pacman.position;
      var f := board[at.y, at.x];
      if f == POINT {
        EatPoint();
      } else if f == BONUS {
        EatBonus();
      }
    }

    /** Eating a POINT: the field emptied, one point scored, one point
        less to the end of the level. */
    method EatPoint()
      requires Valid() && Rows()[pacman.position.y][pacman.position.x] == POINT
      modifies board, this`score, this`pointsToCompleteLevel, this`events
      ensures Valid()
      ensures Rows() == Eaten(old(Rows()), pacman.position)
      ensures score == ByteOf(old(score) + 1) && pointsToCompleteLevel == ByteOf(old(pointsToCompleteLevel) - 1)
      ensures events == old(events) + Emit(hooks, ScoreChanged(score))
    {
      PointSound(Rows(), pointsToCompleteLevel, pacman, ghosts);
      var at := pacman.position;
      EmptyField(at);
      score := ByteOf(score + 1);
      pointsToCompleteLevel := ByteOf(pointsToCompleteLevel - 1);
      events := events + Emit(hooks, ScoreChanged(score));
    }

    /** Eating a BONUS: the field emptied, pointsForBonus scored, and the
        plain ghosts eatable for INIT_TIME_TO_EAT steps. */
    method EatBonus()
      requires Valid() && Rows()[pacman.position.y][pacman.position.x] == BONUS
      modifies board, this`score, this`ghostEatingMode, this`ghosts, this`events
      ensures Valid()
      ensures Rows() == Eaten(old(Rows()), pacman.position)
      ensures score == ByteOf(old(score) + pointsForBonus) && ghostEatingMode == INIT_TIME_TO_EAT
      ensures ghosts == Frightened(old(ghosts))
      ensures events == old(events) + Emit(hooks, ScoreChanged(score))
    {
      BonusSound(Rows(), pointsToCompleteLevel, pacman, ghosts);
      var at := pacman.position;
      EmptyField(at);
      score := ByteOf(score + pointsForBonus);
      ghostEatingMode := INIT_TIME_TO_EAT;
      FrightenGhosts();
      events := events + Emit(hooks, ScoreChanged(score));
    }

    /** The write that empties the field Pacman ate. */
    method EmptyField(at: Coordinates)
      requires Shaped() && OnBoard(at)
      modifies board
      ensures Rows() == Eaten(old(Rows()), at)
    {
      ghost var before := Rows();
      board[at.y, at.x] := EMPTY;
      SameBoard(Rows(), Eaten(before, at));
    }

    /** makeMove's count-down of the eating time: reported at every step,
        and when it runs out the eatable ghosts are plain ghosts again. */
    method CountDown()
      modifies this`ghostEatingMode, this`ghosts, this`events
      ensures old(ghostEatingMode) == 0 ==> ghostEatingMode == 0 && ghosts == old(ghosts) && events == old(events)
      ensures old(ghostEatingMode) != 0 ==>
        ghostEatingMode == old(ghostEatingMode) - 1
        && events == old(events) + Emit(hooks, TimeToEatChanged(ghostEatingMode))
        && ghosts == if ghostEatingMode == 0 then Calmed(old(ghosts)) else old(ghosts)
    {
      if ghostEatingMode != 0 {
        ghostEatingMode := ghostEatingMode - 1;
        events := events + Emit(hooks, TimeToEatChanged(ghostEatingMode));
        if ghostEatingMode == 0 {
          CalmGhosts();
        }
      }
    }

    /** A step's moves on a valid game: still valid, at most one life
        lost (and then the reset asked for), handler calls only added. */
    method MoveAllValid(pacmanSteer: Direction, ghostSteers: seq<Direction>)
      requires Valid() && |ghostSteers| == NUMBER_OF_GHOSTS
      modifies this`ghosts, this`pacman, this`score, this`lives, this`moveToInitPositions, this`events, moves
      ensures Valid()
      ensures State() == old(MovedState(CurrentSetup(), State(), pacmanSteer, ghostSteers))
      ensures LivesRule(old(Snapshot()), Snapshot()) && old(events) <= events
    {
      ghost var e := CurrentSetup();
      ghost var was := Snapshot();
      MovesOutcome(e, was, pacmanSteer, ghostSteers);
      MoveAll(pacmanSteer, ghostSteers);
      MovedSound(e.rows, pointsToCompleteLevel, was, Snapshot());
      assert Rows() == e.rows;
    }

    /** makeMove. The first step after initPacman or a lost life puts
        every character back at its birthplace and does nothing else.
        Otherwise Pacman and the ghosts move with their collision checks,
        Pacman eats what is on his field, the eating time counts down, and
        a level with no points left is reported complete. */
    method MakeMove(pacmanSteer: Direction, ghostSteers: seq<Direction>)
      requires Valid() && |ghostSteers| == NUMBER_OF_GHOSTS
      modifies board, moves, this`ghosts, this`pacman, this`score, this`lives, this`moveToInitPositions
      modifies this`events, this`pointsToCompleteLevel, this`ghostEatingMode
      ensures Valid()
      ensures State() == old(MadeMove(CurrentSetup(), State(), pointsForBonus, pacmanSteer, ghostSteers))
      ensures old(moveToInitPositions) ==>
        pacman == old(pacman).(position := old(pacman).birthplace)
        && (forall i :: 0 <= i < NUMBER_OF_GHOSTS ==> ghosts[i] == AtHome(old(ghosts)[i]))
        && !moveToInitPositions && Rows() == old(Rows()) && score == old(score) && lives == old(lives)
        && events == old(events) && ghostEatingMode == old(ghostEatingMode)
      ensures !old(moveToInitPositions) ==>
        OneLifeAtMost(old(Snapshot()), Snapshot())
      ensures old(events) <= events
      ensures !old(moveToInitPositions) && pointsToCompleteLevel == 0 && OnLevelCompleted in hooks ==>
        events != [] && events[|events| - 1] == LevelCompleted(level, score)
    {
      ghost var e := CurrentSetup();
      ghost var was := State();
      if moveToInitPositions {
        Restart();
        assert State() == MadeMove(e, was, pointsForBonus, pacmanSteer, ghostSteers);
      } else {
        Play(pacmanSteer, ghostSteers);
        assert State() == MadeMove(e, was, pointsForBonus, pacmanSteer, ghostSteers);
      }
    }

    /** makeMove's reset step on a valid game: the state ResetRound has,
        still valid. */
    method Restart()
      requires Valid()
      modifies this`pacman, this`ghosts, this`moveToInitPositions, moves
      ensures Valid()
      ensures State() == old(State().(round := ResetRound(Snapshot())))
      ensures pacman == old(pacman).(position := old(pacman).birthplace)
      ensures forall i :: 0 <= i < NUMBER_OF_GHOSTS ==> ghosts[i] == AtHome(old(ghosts)[i])
      ensures !moveToInitPositions
    {
      ghost var was := State();
      ResetSound(was);
      ResetPositions();
    }

    /** makeMove past the reset: the step Played has on values, with
        what PlayedSound proves of it on the fields. */
    method Play(pacmanSteer: Direction, ghostSteers: seq<Direction>)
      requires Valid() && !moveToInitPositions && |ghostSteers| == NUMBER_OF_GHOSTS
      modifies board, moves, this`ghosts, this`pacman, this`score, this`lives, this`moveToInitPositions
      modifies this`events, this`pointsToCompleteLevel, this`ghostEatingMode
      ensures Valid()
      ensures State() == old(Played(CurrentSetup(), State(), pointsForBonus, pacmanSteer, ghostSteers))
      ensures OneLifeAtMost(old(Snapshot()), Snapshot())
      ensures old(events) <= events
      ensures pointsToCompleteLevel == 0 && OnLevelCompleted in hooks ==>
        events != [] && events[|events| - 1] == LevelCompleted(level, score)
    {
      ghost var e := CurrentSetup();
      ghost var was := State();
      PlayedSound(e, was, pointsForBonus, pacmanSteer, ghostSteers);
      Advance(pacmanSteer, ghostSteers);
    }

    /** The moves, then the feeding. */
    method Advance(pacmanSteer: Direction, ghostSteers: seq<Direction>)
      requires Valid() && |ghostSteers| == NUMBER_OF_GHOSTS
      modifies board, moves, this`ghosts, this`pacman, this`score, this`lives, this`moveToInitPositions
      modifies this`events, this`pointsToCompleteLevel, this`ghostEatingMode
      ensures Valid()
      ensures State() == old(Played(CurrentSetup(), State(), pointsForBonus, pacmanSteer, ghostSteers))
      ensures pointsToCompleteLevel == 0 && OnLevelCompleted in hooks ==>
        events != [] && events[|events| - 1] == LevelCompleted(level, score)
    {
      MoveAllValid(pacmanSteer, ghostSteers);
      Feed();
    }

    /** Eat, seen from makeMove: the state as EatenAt has it, still valid,
        the handler calls only grown. */
    method EatValid()
      requires Valid()
      modifies board, this`score, this`pointsToCompleteLevel, this`ghostEatingMode, this`ghosts, this`events
      ensures Valid() && old(events) <= events
      ensures State() == old(EatenAt(State(), hooks, pointsForBonus))
    {
      ghost var was := State();
      ghost var f := was.rows[pacman.position.y][pacman.position.x];
      Eat();
      if f == POINT {
        assert State() == EatenAt(was, hooks, pointsForBonus);
      } else if f == BONUS {
        assert State() == EatenAt(was, hooks, pointsForBonus);
      } else {
        assert State() == was;
      }
    }

    /** CountDown, seen from makeMove: the state as CountedDown has it,
        still valid, the handler calls only grown. */
    method CountDownValid()
      requires Valid()
      modifies this`ghostEatingMode, this`ghosts, this`events
      ensures Valid() && old(events) <= events
      ensures State() == old(CountedDown(State(), hooks))
    {
      ghost var was := State();
      CountedDownSound(was, hooks);
      CountDown();
      assert Snapshot() == CountedDown(was, hooks).round;
    }

    /** makeMove after the moves: the eating, the count-down and the level
        check, as Fed has them. */
    method Feed()
      requires Valid()
      modifies board, this`ghosts, this`score, this`events, this`pointsToCompleteLevel, this`ghostEatingMode
      ensures Valid() && old(events) <= events
      ensures State() == old(Fed(State(), hooks, pointsForBonus, level))
      ensures pointsToCompleteLevel == 0 && OnLevelCompleted in hooks ==>
        events != [] && events[|events| - 1] == LevelCompleted(level, score)
    {
      ghost var was := State();
      EatValid();
      ghost var eaten := State();
      CountDownValid();
      ghost var counted := State();
      CheckLevel();
      assert State() == LevelChecked(counted, hooks, level);
      assert State() == Fed(was, hooks, pointsForBonus, level);
      FedSound(was, hooks, pointsForBonus, level);
    }

    /** makeMove's last check: a level with no points left is reported
        complete. */
    method CheckLevel()
      requires Valid()
      modifies this`events
      ensures Valid() && State() == old(LevelChecked(State(), hooks, level))
    {
      if pointsToCompleteLevel == 0 {
        events := events + Emit(hooks, LevelCompleted(level, score));
      }
    }
  }
}
