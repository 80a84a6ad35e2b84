/** The single-player maze: one square player on a 400 x 300 arena with six
    fixed walls, moved by held keys, stopped by walls with a 1-unit
    tolerance, and winning when it comes within one player size of the goal.
    Rendering, messages and timers are outside this model. */
module Maze {
  import opened Geometry

  const Width := 400
  const Height := 300
  const PlayerSize := 20
  const PlayerSpeed := 5

  /** The largest coordinates the player's top-left corner may take. */
  const MaxX := Width - PlayerSize
  const MaxY := Height - PlayerSize

  /** Where the player starts and where `resetGame` and `emergencyReset` put it. */
  const Start := Point(40, 40)

  /** The goal sits 60 units in from the bottom-right corner: (340, 240). */
  const Goal := Point(Width - 60, Height - 60)

  /** Each wall is shrunk by this much on every side when testing a move. */
  const WallBuffer := 1

  const Walls: seq<Rect> := [
    Rect(100, 0, 20, 180),
    Rect(200, 120, 20, 180),
    Rect(300, 0, 20, 180),
    Rect(0, 150, 80, 20),
    Rect(150, 250, 150, 20),
    Rect(250, 50, 130, 20)
  ]

  /** The held-key dictionary, keyed by the browser's key name. A key never
      pressed has no entry and reads as not held. */
  type KeyMap = map<string, bool>

  predicate Held(keys: KeyMap, key: string)
  {
    key in keys && keys[key]
  }

  /** The keys `movePlayer` reads, letters in both cases and the four arrows. */
  const MovementKeys: set<string> := {"w", "W", "a", "A", "s", "S", "d", "D",
                                      "ArrowUp", "ArrowDown", "ArrowLeft", "ArrowRight"}

  /** How many control sources push one way along an axis: the letter key in
      either case counts once, and its arrow key counts once more. */
  function Sources(keys: KeyMap, lower: string, upper: string, arrow: string): (n: nat)
    ensures n <= 2
  {
    (if Held(keys, lower) || Held(keys, upper) then 1 else 0) +
    (if Held(keys, arrow) then 1 else 0)
  }

  /** Horizontal displacement for one tick: speed times (right sources minus left sources). */
  function StepX(keys: KeyMap): int
  {
    PlayerSpeed * (Sources(keys, "d", "D", "ArrowRight") - Sources(keys, "a", "A", "ArrowLeft"))
  }

  /** Vertical displacement for one tick: speed times (down sources minus up sources). */
  function StepY(keys: KeyMap): int
  {
    PlayerSpeed * (Sources(keys, "s", "S", "ArrowDown") - Sources(keys, "w", "W", "ArrowUp"))
  }

  predicate InBounds(p: Point)
  {
    0 <= p.x <= MaxX && 0 <= p.y <= MaxY
  }

  function Gap(a: int, b: int): nat
  {
    if a < b then b - a else a - b
  }

  /** Puts `v` back into [0, hi]: the value there nearest to `v`. */
  function Clamp(v: int, hi: int): (r: int)
    requires 0 <= hi
    ensures 0 <= r <= hi
    ensures forall z :: 0 <= z <= hi ==> Gap(r, v) <= Gap(z, v)
  {
    if v < 0 then 0 else if v > hi then hi else v
  }

  /** The move-rejection test: the hitbox at `p` overlaps some wall shrunk by
      `WallBuffer`. */
  predicate CheckWallCollision(p: Point)
  {
    AnyOverlap(Walls, p, PlayerSize, WallBuffer)
  }

  /** The advisory test behind the "touching a wall" warning: the same scan
      with no shrinking. */
  predicate TouchingWall(p: Point)
  {
    AnyOverlap(Walls, p, PlayerSize, 0)
  }

  /** The win test, with the square root replaced by comparing squares. */
  predicate WinReached(p: Point)
  {
    WithinDistance(p, Goal, PlayerSize)
  }

  /** The position the held keys ask for, clamped to the arena. */
  function Candidate(p: Point, keys: KeyMap): Point
  {
    Point(Clamp(p.x + StepX(keys), MaxX), Clamp(p.y + StepY(keys), MaxY))
  }

  /** The position one tick of movement leads to: the candidate if it hits
      no wall, otherwise where the player already was. */
  function MoveTarget(p: Point, keys: KeyMap): Point
  {
    if CheckWallCollision(Candidate(p, keys)) then p else Candidate(p, keys)
  }

  /** The displacement `movePlayer` builds up from the held keys, one speed
      step per held source: letter keys first, then arrow keys. */
  method HeldDisplacement(keys: KeyMap) returns (dx: int, dy: int)
    ensures dx == StepX(keys) && dy == StepY(keys)
  {
    dx := 0;
    dy := 0;

    if Held(keys, "w") || Held(keys, "W") {
      dy := dy - PlayerSpeed;
    }
    if Held(keys, "a") || Held(keys, "A") {
      dx := dx - PlayerSpeed;
    }
    if Held(keys, "s") || Held(keys, "S") {
      dy := dy + PlayerSpeed;
    }
    if Held(keys, "d") || Held(keys, "D") {
      dx := dx + PlayerSpeed;
    }

    if Held(keys, "ArrowUp") {
      dy := dy - PlayerSpeed;
    }
    if Held(keys, "ArrowLeft") {
      dx := dx - PlayerSpeed;
    }
    if Held(keys, "ArrowDown") {
      dy := dy + PlayerSpeed;
    }
    if Held(keys, "ArrowRight") {
      dx := dx + PlayerSpeed;
    }
  }

  /** The state of a running game: the player's position, the held keys and
      whether the key listeners are attached. */
  class Game {
    var x: int
    var y: int
    var keysPressed: KeyMap
    var inputEnabled: bool

    function Position(): Point
      reads this
    {
      Point(x, y)
    }

    /** Every reachable state has the player inside the arena and clear of
        every wall under the move-rejection test. */
    ghost predicate Valid()
      reads this
    {
      InBounds(Position()) && !CheckWallCollision(Position())
    }

    /** Page load: the player at the start, no key ever pressed, listeners attached. */
    constructor ()
      ensures Valid()
      ensures Position() == Start && keysPressed == map[] && inputEnabled
    {
      x, y := Start.x, Start.y;
      keysPressed := map[];
      inputEnabled := true;
      StartIsClear();
    }

    /** A key-down event marks its key as held, unless the listeners were removed. */
    method HandleKeyDown(key: string)
      modifies this`keysPressed
      ensures keysPressed == if inputEnabled then old(keysPressed)[key := true] else old(keysPressed)
    {
      if inputEnabled {
        keysPressed := keysPressed[key := true];
      }
    }

    /** A key-up event marks its key as released, unless the listeners were removed. */
    method HandleKeyUp(key: string)
      modifies this`keysPressed
      ensures keysPressed == if inputEnabled then old(keysPressed)[key := false] else old(keysPressed)
    {
      if inputEnabled {
        keysPressed := keysPressed[key := false];
      }
    }

    /** One tick of movement from the held keys. */
    method MovePlayer()
      modifies this`x, this`y
      ensures Position() == MoveTarget(old(Position()), keysPressed)
      ensures old(Valid()) ==> Valid()
    {
      var dx, dy := HeldDisplacement(keysPressed);

      var newX := x + dx;
      var newY := y + dy;

      if newX < 0 { newX := 0; }
      if newY < 0 { newY := 0; }
      if newX > Width - PlayerSize { newX := Width - PlayerSize; }
      if newY > Height - PlayerSize { newY := Height - PlayerSize; }
      assert Point(newX, newY) == Candidate(Position(), keysPressed);

      var wouldCollide := CheckWallCollision(Point(newX, newY));
      if !wouldCollide {
        x := newX;
        y := newY;
      }
      if old(Valid()) {
        MoveKeepsClear(old(Position()), keysPressed);
      }
    }

    /** The advisory check: whether the player currently touches a wall. */
    method CheckCollisions() returns (touching: bool)
      ensures touching <==> exists i :: 0 <= i < |Walls| && Overlaps(Position(), PlayerSize, Walls[i], 0)
    {
      touching := TouchingWall(Position());
    }

    /** The win check: on a win the key listeners are removed for good. */
    method CheckWin() returns (won: bool)
      modifies this`inputEnabled
      ensures won == WinReached(Position())
      ensures inputEnabled == (old(inputEnabled) && !won)
    {
      won := WinReached(Position());
      if won {
        inputEnabled := false;
      }
    }

    /** One frame: move, check for walls, check for the goal. */
    method Tick() returns (touching: bool, won: bool)
      modifies this`x, this`y, this`inputEnabled
      ensures Position() == MoveTarget(old(Position()), keysPressed)
      ensures old(Valid()) ==> Valid()
      ensures touching == TouchingWall(Position())
      ensures won == WinReached(Position())
      ensures inputEnabled == (old(inputEnabled) && !won)
    {
      MovePlayer();
      touching := CheckCollisions();
      won := CheckWin();
    }

    /** Back to the start with the listeners attached again; held keys are
        left as they were. */
    method ResetGame()
      modifies this`x, this`y, this`inputEnabled
      ensures Valid()
      ensures Position() == Start && inputEnabled
    {
      x, y := Start.x, Start.y;
      inputEnabled := true;
      StartIsClear();
    }

    /** Back to the start; whether input is enabled is left as it was. */
    method EmergencyReset()
      modifies this`x, this`y
      ensures Valid()
      ensures Position() == Start
    {
      x, y := Start.x, Start.y;
      StartIsClear();
    }
  }

  /** A key held when the goal is reached stays held. The player walks
      right from (320, 240), which is not yet a win. The first frame reaches
      (325, 240), wins, and removes the listeners. The key-up that follows
      is not heard, so later frames carry the player on to (360, 240), which
      is no longer within win distance. */
  method WinLeavesHeldKeyActive(g: Game)
    requires g.Position() == Point(320, 240) && g.keysPressed == map["d" := true] && g.inputEnabled
    modifies g
    ensures g.Position() == Point(360, 240) && !WinReached(g.Position())
    ensures g.keysPressed == map["d" := true] && !g.inputEnabled
  {
    HeldKeyDriftsPastGoal();
    assert !WinReached(g.Position());
    var touching, won := g.Tick();
    assert g.Position() == Point(325, 240) && won && !g.inputEnabled;
    g.HandleKeyUp("d");
    var frames := 0;
    while frames < 7
      invariant 0 <= frames <= 7
      invariant g.Position() == Point(325 + 5 * frames, 240)
      invariant g.keysPressed == map["d" := true] && !g.inputEnabled
    {
      assert MoveTarget(g.Position(), g.keysPressed) == Point(330 + 5 * frames, 240);
      touching, won := g.Tick();
      frames := frames + 1;
    }
  }

  /** The start is inside the arena, clear of every wall even with no
      tolerance, and not already a win. */
  lemma StartIsClear()
    ensures InBounds(Start) && !TouchingWall(Start) && !CheckWallCollision(Start)
    ensures !WinReached(Start)
  {
    assert !TouchingWall(Start);
    if CheckWallCollision(Start) {
      AnyOverlapMonotone(Walls, Start, PlayerSize, 0, WallBuffer);
    }
  }

  /** Each displacement is a multiple of the speed between -2 and 2 steps. */
  lemma StepRange(keys: KeyMap)
    ensures StepX(keys) in {-10, -5, 0, 5, 10}
    ensures StepY(keys) in {-10, -5, 0, 5, 10}
  {
  }

  /** Holding the other case of a letter already held changes nothing. */
  lemma CaseVariantsCountOnce(keys: KeyMap)
    requires Held(keys, "w")
    ensures StepY(keys["W" := true]) == StepY(keys)
  {
  }

  /** An arrow key adds to the letter key for the same direction. */
  lemma ArrowAddsToLetter(keys: KeyMap)
    requires Held(keys, "d") && Held(keys, "ArrowRight")
    requires !Held(keys, "a") && !Held(keys, "A") && !Held(keys, "ArrowLeft")
    ensures StepX(keys) == 2 * PlayerSpeed
  {
  }

  /** Opposite keys from the same control set cancel out. */
  lemma OppositeKeysCancel(keys: KeyMap)
    requires Held(keys, "a") && Held(keys, "d")
    requires Held(keys, "ArrowLeft") == Held(keys, "ArrowRight")
    ensures StepX(keys) == 0
  {
  }

  /** Movement never leaves the arena. */
  lemma MoveStaysInBounds(p: Point, keys: KeyMap)
    requires InBounds(p)
    ensures InBounds(MoveTarget(p, keys))
  {
  }

  /** A move is taken whole or not at all: when the clamped candidate hits a
      wall neither coordinate changes, and otherwise both become the
      candidate's; the player never slides along one axis alone. */
  lemma MoveAllOrNothing(p: Point, keys: KeyMap)
    ensures var c, q := Candidate(p, keys), MoveTarget(p, keys);
      && (CheckWallCollision(c) ==> q.x == p.x && q.y == p.y)
      && (!CheckWallCollision(c) ==> q.x == c.x && q.y == c.y)
  {
  }

  /** A player clear of the walls stays clear after a move. */
  lemma MoveKeepsClear(p: Point, keys: KeyMap)
    requires InBounds(p) && !CheckWallCollision(p)
    ensures InBounds(MoveTarget(p, keys)) && !CheckWallCollision(MoveTarget(p, keys))
  {
  }

  /** Where a run of frames leads, one held-key snapshot per frame. */
  function Run(p: Point, frames: seq<KeyMap>): Point
    decreases |frames|
  {
    if frames == [] then p else Run(MoveTarget(p, frames[0]), frames[1..])
  }

  /** However the keys are held, frame after frame, a player that starts
      clear of the walls never ends up outside the arena or in a wall. */
  lemma {:induction false} RunKeepsClear(p: Point, frames: seq<KeyMap>)
    requires InBounds(p) && !CheckWallCollision(p)
    ensures InBounds(Run(p, frames)) && !CheckWallCollision(Run(p, frames))
    decreases |frames|
  {
    if frames != [] {
      MoveKeepsClear(p, frames[0]);
      RunKeepsClear(MoveTarget(p, frames[0]), frames[1..]);
    }
  }

  /** Every position reachable from the start is in the arena and clear of
      the walls. */
  lemma ReachableIsClear(frames: seq<KeyMap>)
    ensures InBounds(Run(Start, frames)) && !CheckWallCollision(Run(Start, frames))
  {
    StartIsClear();
    RunKeepsClear(Start, frames);
  }

  /** With no movement key held, a player inside the arena does not move. */
  lemma IdleMoveIsNoOp(p: Point, keys: KeyMap)
    requires InBounds(p)
    requires forall k :: k in MovementKeys ==> !Held(keys, k)
    ensures MoveTarget(p, keys) == p
  {
  }

  /** The move-rejection test is stricter than the warning test: a position
      rejected for a move is also reported as touching. */
  lemma CollisionImpliesTouching(p: Point)
    requires CheckWallCollision(p)
    ensures TouchingWall(p)
  {
    AnyOverlapMonotone(Walls, p, PlayerSize, 0, WallBuffer);
  }

  /** The converse fails: a player overlapping the first wall by one unit is
      warned about but may stand there. */
  lemma TouchingWithinBuffer()
    ensures TouchingWall(Point(81, 40)) && !CheckWallCollision(Point(81, 40))
  {
    assert Overlaps(Point(81, 40), PlayerSize, Walls[0], 0);
  }

  /** The win test agrees with the Euclidean distance being below the player size. */
  lemma WinByDistance(p: Point, distance: real)
    requires 0.0 <= distance
    requires distance * distance == (Sq(p.x - Goal.x) + Sq(p.y - Goal.y)) as real
    ensures distance < PlayerSize as real <==> WinReached(p)
  {
    DistanceBySquares(p, Goal, PlayerSize, distance);
  }

  /** A win lies inside the player-size box around the goal. */
  lemma WinNearGoal(p: Point)
    requires WinReached(p)
    ensures Goal.x - PlayerSize < p.x < Goal.x + PlayerSize
    ensures Goal.y - PlayerSize < p.y < Goal.y + PlayerSize
  {
  }

  /** A key held at the moment of winning keeps moving the player. Holding
      `d` on the row y = 240, every frame from x = 320 to x = 355 moves the
      player 5 units right. The first of those frames wins, and the last
      carries the player out of the win radius. */
  lemma HeldKeyDriftsPastGoal()
    ensures forall x :: 320 <= x <= 355 ==> MoveTarget(Point(x, 240), map["d" := true]) == Point(x + 5, 240)
    ensures !WinReached(Point(320, 240)) && WinReached(Point(325, 240))
    ensures !WinReached(Point(360, 240))
  {
    var keys := map["d" := true];
    assert StepX(keys) == 5 && StepY(keys) == 0;
  }
}
