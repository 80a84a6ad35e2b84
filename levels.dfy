/** The authored level table: four arenas, each with its walls, two start
    positions, a goal and an arena size. The lemmas here check, by
    evaluating the table, the conditions a level must meet for the player
    to be placed and to move. */
module Levels {
  import opened Geometry
  import Maze

  datatype Size = Size(width: int, height: int)

  datatype Level = Level(walls: seq<Rect>, player1Start: Point, player2Start: Point, goalPos: Point, size: Size)

  /** Level 1: simple maze */
  const Level1 := Level(
    [ Rect(100, 0, 20, 180),
      Rect(200, 120, 20, 180),
      Rect(300, 0, 20, 180),
      Rect(0, 150, 80, 20),
      Rect(150, 250, 150, 20),
      Rect(250, 50, 130, 20) ],
    Point(40, 40), Point(40, 80), Point(360, 260), Size(400, 300))

  /** Level 2: more complex maze */
  const Level2 := Level(
    [ Rect(100, 0, 20, 150),
      Rect(100, 200, 20, 150),
      Rect(200, 50, 20, 200),
      Rect(300, 100, 20, 200),
      Rect(350, 0, 20, 60),
      Rect(0, 100, 60, 20),
      Rect(60, 200, 100, 20),
      Rect(200, 300, 120, 20),
      Rect(300, 50, 150, 20),
      Rect(400, 150, 100, 20) ],
    Point(30, 30), Point(30, 60), Point(450, 350), Size(500, 400))

  /** Level 3: tight corridors */
  const Level3 := Level(
    [ Rect(80, 0, 20, 350),
      Rect(80, 350, 20, 100),
      Rect(160, 50, 20, 400),
      Rect(240, 0, 20, 350),
      Rect(320, 100, 20, 400),
      Rect(400, 0, 20, 350),
      Rect(480, 100, 20, 400),
      Rect(0, 80, 60, 20),
      Rect(0, 160, 140, 20),
      Rect(0, 240, 60, 20),
      Rect(0, 320, 140, 20),
      Rect(0, 400, 60, 20),
      Rect(100, 80, 140, 20),
      Rect(180, 160, 140, 20),
      Rect(260, 240, 140, 20),
      Rect(340, 320, 140, 20),
      Rect(420, 80, 140, 20),
      Rect(180, 400, 280, 20) ],
    Point(30, 30), Point(30, 60), Point(540, 450), Size(600, 500))

  /** Level 4: multiple paths */
  const Level4 := Level(
    [ Rect(100, 0, 20, 500),
      Rect(100, 580, 20, 120),
      Rect(200, 100, 20, 500),
      Rect(300, 0, 20, 500),
      Rect(400, 100, 20, 500),
      Rect(500, 0, 20, 500),
      Rect(600, 100, 20, 500),
      Rect(0, 100, 80, 20),
      Rect(0, 200, 180, 20),
      Rect(0, 300, 80, 20),
      Rect(0, 400, 180, 20),
      Rect(0, 500, 80, 20),
      Rect(0, 600, 180, 20),
      Rect(120, 100, 160, 20),
      Rect(220, 200, 160, 20),
      Rect(320, 300, 160, 20),
      Rect(420, 400, 160, 20),
      Rect(520, 500, 160, 20),
      Rect(120, 580, 560, 20) ],
    Point(30, 30), Point(30, 70), Point(650, 650), Size(700, 700))

  const Levels: seq<Level> := [Level1, Level2, Level3, Level4]

  /** A wall with positive extent lying wholly inside the arena. */
  predicate WallInside(w: Rect, s: Size)
  {
    && w.width > 0 && w.height > 0
    && w.x >= 0 && w.y >= 0
    && w.x + w.width <= s.width && w.y + w.height <= s.height
  }

  /** A spot where a player's hitbox fits inside the arena. */
  predicate SpotInside(p: Point, s: Size)
  {
    0 <= p.x <= s.width - Maze.PlayerSize && 0 <= p.y <= s.height - Maze.PlayerSize
  }

  /** What the game relies on in a level: every wall lies inside the arena
      and touches neither start nor the goal; the two starts are distinct;
      starts and goal fit inside the arena; and neither start is already
      within win range of the goal. */
  predicate WellFormed(l: Level)
  {
    && (forall i :: 0 <= i < |l.walls| ==> WallInside(l.walls[i], l.size) && !TouchesSpot(l, l.walls[i]))
    && l.player1Start != l.player2Start
    && SpotInside(l.player1Start, l.size)
    && SpotInside(l.player2Start, l.size)
    && SpotInside(l.goalPos, l.size)
    && !WithinDistance(l.player1Start, l.goalPos, Maze.PlayerSize)
    && !WithinDistance(l.player2Start, l.goalPos, Maze.PlayerSize)
  }

  /** The wall touches a start or the goal, with no tolerance. */
  predicate TouchesSpot(l: Level, w: Rect)
  {
    || Overlaps(l.player1Start, Maze.PlayerSize, w, 0)
    || Overlaps(l.player2Start, Maze.PlayerSize, w, 0)
    || Overlaps(l.goalPos, Maze.PlayerSize, w, 0)
  }

  /** There are four levels, on arenas of growing size. */
  lemma LevelSizes()
    ensures |Levels| == 4
    ensures Levels[0].size == Size(400, 300) && Levels[1].size == Size(500, 400)
    ensures Levels[2].size == Size(600, 500) && Levels[3].size == Size(700, 700)
  {
  }

  lemma Level1WellFormed()
    ensures WellFormed(Level1)
  {
  }

  lemma Level2WellFormed()
    ensures WellFormed(Level2)
  {
  }

  lemma Level3WellFormed()
    ensures WellFormed(Level3)
  {
  }

  lemma Level4WellFormed()
    ensures WellFormed(Level4)
  {
  }

  /** Every authored level meets the conditions the game relies on. */
  lemma AllLevelsWellFormed()
    ensures forall i :: 0 <= i < |Levels| ==> WellFormed(Levels[i])
  {
    Level1WellFormed();
    Level2WellFormed();
    Level3WellFormed();
    Level4WellFormed();
  }

  /** A start clear of the walls with no tolerance is also clear under the
      1-unit move-rejection tolerance, so a freshly placed player satisfies
      the movement invariant of its level. */
  lemma StartsPassMoveTest(i: int)
    requires 0 <= i < |Levels|
    ensures !AnyOverlap(Levels[i].walls, Levels[i].player1Start, Maze.PlayerSize, Maze.WallBuffer)
    ensures !AnyOverlap(Levels[i].walls, Levels[i].player2Start, Maze.PlayerSize, Maze.WallBuffer)
  {
    AllLevelsWellFormed();
    var l := Levels[i];
    if AnyOverlap(l.walls, l.player1Start, Maze.PlayerSize, Maze.WallBuffer) {
      AnyOverlapMonotone(l.walls, l.player1Start, Maze.PlayerSize, 0, Maze.WallBuffer);
    }
    if AnyOverlap(l.walls, l.player2Start, Maze.PlayerSize, Maze.WallBuffer) {
      AnyOverlapMonotone(l.walls, l.player2Start, Maze.PlayerSize, 0, Maze.WallBuffer);
    }
  }

  /** The first level is the single-player game's arena, walls and start;
      only its goal differs: (360, 260) here, (340, 240) in the game. */
  lemma Level1MatchesGame()
    ensures Levels[0].walls == Maze.Walls
    ensures Levels[0].player1Start == Maze.Start
    ensures Levels[0].size == Size(Maze.Width, Maze.Height)
    ensures Levels[0].goalPos == Point(360, 260) && Maze.Goal == Point(340, 240)
  {
  }
}
