/** The board (maze, power-up timer, the four ghosts) and the player. The
    maze is a fixed-size array updated in place; `Cells` reads it back as a
    value so that its operations can be specified by functions on mazes. */
module Arcade {
  import opened Config
  import opened Directions
  import opened GhostModel
  import opened Ghosts

  /** Tile kinds. The shown Utils.h enum lists only wall, empty and pellet,
      while the board code also uses a power-up tile; it is the fourth kind. */
  datatype Tile = Wall | Empty | Pellet | PowerUp

  /** A maze as a value: GRID_HEIGHT rows of GRID_WIDTH tiles, indexed [y][x]. */
  type Maze = seq<seq<Tile>>

  predicate WellFormed(m: Maze) {
    |m| == GRID_HEIGHT && forall y :: 0 <= y < GRID_HEIGHT ==> |m[y]| == GRID_WIDTH
  }

  /** The board's wall query: every cell off the grid counts as a wall. */
  function WallAt(m: Maze, x: int, y: int): (r: bool)
    ensures !InBounds(x, y) ==> r
    ensures WellFormed(m) && InBounds(x, y) ==> (r <==> m[y][x] == Wall)
  {
    !InBounds(x, y) || (y < |m| && x < |m[y]| && m[y][x] == Wall)
  }

  /** m with the tile at column x, row y replaced by t. */
  function Put(m: Maze, x: int, y: int, t: Tile): (r: Maze)
    requires WellFormed(m) && InBounds(x, y)
    ensures WellFormed(r)
    ensures r[y][x] == t
    ensures forall j, i :: 0 <= j < GRID_HEIGHT && 0 <= i < GRID_WIDTH && (i != x || j != y) ==> r[j][i] == m[j][i]
  {
    m[y := m[y][x := t]]
  }

  lemma MazeExt(a: Maze, b: Maze)
    requires WellFormed(a) && WellFormed(b)
    requires forall y, x :: 0 <= y < GRID_HEIGHT && 0 <= x < GRID_WIDTH ==> a[y][x] == b[y][x]
    ensures a == b
  {
    forall y | 0 <= y < GRID_HEIGHT
      ensures a[y] == b[y]
    {
      assert |a[y]| == |b[y]| == GRID_WIDTH;
    }
  }

  // ---------- Arena ----------

  predicate Border(x: int, y: int) {
    x == 0 || y == 0 || x == GRID_WIDTH - 1 || y == GRID_HEIGHT - 1
  }

  /** The arena BuildArena lays out: walls around the edge, pellets inside. */
  function Arena(): (m: Maze)
    ensures WellFormed(m)
    ensures forall y, x :: 0 <= y < GRID_HEIGHT && 0 <= x < GRID_WIDTH ==>
      m[y][x] == (if Border(x, y) then Wall else Pellet)
  {
    seq(GRID_HEIGHT, y => seq(GRID_WIDTH, x => if Border(x, y) then Wall else Pellet))
  }

  /** In the arena a cell is a wall exactly when it is off the grid or on its edge. */
  lemma ArenaWalls(x: int, y: int)
    ensures WallAt(Arena(), x, y) <==> !InBounds(x, y) || Border(x, y)
    ensures InBounds(x, y) && !Border(x, y) ==> Arena()[y][x] == Pellet
  {
  }

  // ---------- Pellet scan ----------

  /** Where a row-major scan may stand: at column x of row y, or just past the
      last row. */
  predicate ScanPoint(x: int, y: int) {
    0 <= x <= GRID_WIDTH && 0 <= y <= GRID_HEIGHT && (y == GRID_HEIGHT ==> x == 0)
  }

  /** Cell (i, j) comes before column x of row y in row-major order. */
  predicate Passed(i: int, j: int, x: int, y: int) {
    j < y || (j == y && i < x)
  }

  /** The pellet cells a row-major scan has passed on reaching column x of
      row y, in scan order. */
  function PelletsBefore(m: Maze, x: int, y: int): (r: seq<Point>)
    requires WellFormed(m) && ScanPoint(x, y)
    decreases y, x
  {
    if x == 0 then
      if y == 0 then [] else PelletsBefore(m, GRID_WIDTH, y - 1)
    else
      PelletsBefore(m, x - 1, y) + (if m[y][x - 1] == Pellet then [Point(x - 1, y)] else [])
  }

  /** The scan keeps exactly the pellet cells it has passed. */
  lemma {:induction false} PelletsBeforeMembers(m: Maze, x: int, y: int)
    requires WellFormed(m) && ScanPoint(x, y)
    ensures forall p: Point :: p in PelletsBefore(m, x, y) <==>
      InBounds(p.x, p.y) && Passed(p.x, p.y, x, y) && m[p.y][p.x] == Pellet
    decreases y, x
  {
    if x == 0 {
      if y > 0 {
        PelletsBeforeMembers(m, GRID_WIDTH, y - 1);
      }
    } else {
      PelletsBeforeMembers(m, x - 1, y);
    }
  }

  /** The tiles SpawnPowerUp may choose: every pellet on the board, in scan order. */
  function Candidates(m: Maze): seq<Point>
    requires WellFormed(m)
  {
    PelletsBefore(m, 0, GRID_HEIGHT)
  }

  /** The candidates are exactly the pellet tiles. */
  lemma CandidatesArePellets(m: Maze)
    requires WellFormed(m)
    ensures forall p: Point :: p in Candidates(m) <==> InBounds(p.x, p.y) && m[p.y][p.x] == Pellet
  {
    PelletsBeforeMembers(m, 0, GRID_HEIGHT);
  }

  /** Replacing one pellet by something else removes exactly that cell from
      the scan once the scan has passed it. */
  lemma {:induction false} PelletsBeforeTake(m: Maze, cx: int, cy: int, t: Tile, x: int, y: int)
    requires WellFormed(m) && InBounds(cx, cy) && ScanPoint(x, y)
    requires m[cy][cx] == Pellet && t != Pellet
    ensures |PelletsBefore(Put(m, cx, cy, t), x, y)| ==
      |PelletsBefore(m, x, y)| - (if Passed(cx, cy, x, y) then 1 else 0)
    decreases y, x
  {
    var m' := Put(m, cx, cy, t);
    if x == 0 {
      if y > 0 {
        PelletsBeforeTake(m, cx, cy, t, GRID_WIDTH, y - 1);
      }
    } else {
      PelletsBeforeTake(m, cx, cy, t, x - 1, y);
      if x - 1 == cx && y == cy {
        assert m'[y][x - 1] == t;
      } else {
        assert m'[y][x - 1] == m[y][x - 1];
      }
    }
  }

  lemma PelletCountTake(m: Maze, x: int, y: int, t: Tile)
    requires WellFormed(m) && InBounds(x, y) && m[y][x] == Pellet && t != Pellet
    ensures |Candidates(Put(m, x, y, t))| == |Candidates(m)| - 1
  {
    PelletsBeforeTake(m, x, y, t, 0, GRID_HEIGHT);
  }

  // ---------- Power-up placement ----------

  /** The candidate the random index `pick` selects, if there is one. */
  function Chosen(m: Maze, pick: nat): (c: Option<Point>)
    requires WellFormed(m)
    ensures c.None? <==> forall p: Point :: InBounds(p.x, p.y) ==> m[p.y][p.x] != Pellet
    ensures c.Some? ==> InBounds(c.value.x, c.value.y) && m[c.value.y][c.value.x] == Pellet
  {
    var cs := Candidates(m);
    CandidatesArePellets(m);
    if cs == [] then None
    else
      assert cs[pick % |cs|] in cs;
      assert forall p: Point :: InBounds(p.x, p.y) && m[p.y][p.x] == Pellet ==> p in cs;
      Some(cs[pick % |cs|])
  }

  /** SpawnPowerUp as written: the chosen pellet's column is used for both
      indices, so the power-up goes to row x, column x. The row index is in
      range because the grid is no wider than it is tall. */
  function SpawnAsWritten(m: Maze, pick: nat): (r: Maze)
    requires WellFormed(m)
    ensures WellFormed(r)
    ensures Chosen(m, pick).None? ==> r == m
    ensures Chosen(m, pick).Some? ==>
      var x := Chosen(m, pick).value.x;
      r[x][x] == PowerUp
      && forall j, i :: 0 <= j < GRID_HEIGHT && 0 <= i < GRID_WIDTH && (i != x || j != x) ==> r[j][i] == m[j][i]
  {
    match Chosen(m, pick)
    case None => m
    case Some(c) =>
      assert GRID_WIDTH <= GRID_HEIGHT;
      Put(m, c.x, c.x, PowerUp)
  }

  /** Off the diagonal, the pellet chosen as written is not the tile that
      receives the power-up: it stays a pellet. */
  lemma AsWrittenMissesChoice(m: Maze, pick: nat)
    requires WellFormed(m) && Chosen(m, pick).Some?
    requires Chosen(m, pick).value.x != Chosen(m, pick).value.y
    ensures var c := Chosen(m, pick).value;
      SpawnAsWritten(m, pick)[c.y][c.x] == Pellet && SpawnAsWritten(m, pick)[c.x][c.x] == PowerUp
  {
  }

  lemma ModBelow(i: int, n: int)
    requires 0 <= i < n
    ensures i % n == i
  {
  }

  /** Every pellet on the board is selected by some random index. */
  lemma ChosenCanBe(m: Maze, p: Point)
    requires WellFormed(m) && InBounds(p.x, p.y) && m[p.y][p.x] == Pellet
    ensures exists pick: nat :: Chosen(m, pick) == Some(p)
  {
    var cs := Candidates(m);
    CandidatesArePellets(m);
    assert p in cs;
    var i :| 0 <= i < |cs| && cs[i] == p;
    ModBelow(i, |cs|);
    assert Chosen(m, i) == Some(cs[i]);
  }

  /** The arena has pellets, so every pick chooses one. */
  lemma ArenaAlwaysChooses(pick: nat)
    ensures Chosen(Arena(), pick).Some?
  {
    var p := Point(1, 1);
    ArenaWalls(p.x, p.y);
    assert InBounds(p.x, p.y) && Arena()[p.y][p.x] == Pellet;
  }

  /** pick selects the pellet at p, yet the power-up as written lands
      elsewhere (on the diagonal cell of p's column) and p stays a pellet. */
  predicate MisplacedBy(m: Maze, pick: nat, p: Point)
    requires WellFormed(m)
  {
    Chosen(m, pick) == Some(p) && p.x != p.y
    && SpawnAsWritten(m, pick)[p.y][p.x] == Pellet
    && SpawnAsWritten(m, pick)[p.x][p.x] == PowerUp
  }

  /** In a freshly built arena the pellet at column 2, row 1 can be chosen,
      and the power-up then lands on column 2, row 2 instead. */
  lemma ArenaShowsMisplacement()
    ensures exists pick: nat :: MisplacedBy(Arena(), pick, Point(2, 1))
  {
    var m := Arena();
    assert m[1][2] == Pellet;
    ChosenCanBe(m, Point(2, 1));
    var pick: nat :| Chosen(m, pick) == Some(Point(2, 1));
    AsWrittenMissesChoice(m, pick);
    assert MisplacedBy(m, pick, Point(2, 1));
  }

  /** SpawnPowerUp as evidently intended: the chosen pellet itself becomes the
      power-up, so one pellet fewer remains and no wall changes. */
  function SpawnOnPellet(m: Maze, pick: nat): (r: Maze)
    requires WellFormed(m)
    ensures WellFormed(r)
    ensures Chosen(m, pick).None? ==> r == m
    ensures Chosen(m, pick).Some? ==>
      var c := Chosen(m, pick).value;
      m[c.y][c.x] == Pellet && r[c.y][c.x] == PowerUp
      && |Candidates(r)| == |Candidates(m)| - 1
      && forall j, i :: 0 <= j < GRID_HEIGHT && 0 <= i < GRID_WIDTH && (i != c.x || j != c.y) ==> r[j][i] == m[j][i]
    ensures forall x, y :: WallAt(r, x, y) == WallAt(m, x, y)
  {
    match Chosen(m, pick)
    case None => m
    case Some(c) =>
      PelletCountTake(m, c.x, c.y, PowerUp);
      Put(m, c.x, c.y, PowerUp)
  }

  // ---------- Pac-Man at a tile centre ----------

  /** Pac-Man's grid state; the direction and the input buffer are unit steps. */
  datatype PacKin = PacKin(gx: int, gy: int, pos: Point, target: Point, dir: Dir, queued: Dir)

  /** Eating at (gx, gy): a pellet or a power-up there becomes empty; the flag
      says a power-up was eaten. */
  function Eat(m: Maze, gx: int, gy: int): (r: (Maze, bool))
    requires WellFormed(m)
    ensures WellFormed(r.0)
    ensures !InBounds(gx, gy) ==> r == (m, false)
    ensures InBounds(gx, gy) ==>
      (r.1 <==> m[gy][gx] == PowerUp)
      && r.0[gy][gx] == (if m[gy][gx] == Pellet || m[gy][gx] == PowerUp then Empty else m[gy][gx])
    ensures forall j, i :: 0 <= j < GRID_HEIGHT && 0 <= i < GRID_WIDTH && (i != gx || j != gy) ==> r.0[j][i] == m[j][i]
    ensures forall x, y :: WallAt(r.0, x, y) == WallAt(m, x, y)
    ensures InBounds(gx, gy) && m[gy][gx] == Pellet ==> |Candidates(r.0)| == |Candidates(m)| - 1
  {
    if !InBounds(gx, gy) then (m, false)
    else if m[gy][gx] == Pellet then
      PelletCountTake(m, gx, gy, Empty);
      (Put(m, gx, gy, Empty), false)
    else if m[gy][gx] == PowerUp then (Put(m, gx, gy, Empty), true)
    else (m, false)
  }

  /** The direction Pac-Man commits to, given whether the neighbours in the
      buffered and in the current direction are open: the buffered direction
      when its neighbour is open, otherwise the current one unless it runs
      into a wall. */
  function Turn(dir: Dir, queued: Dir, queuedOpen: bool, dirOpen: bool): (d: Dir)
    ensures queued != Zero && queuedOpen ==> d == queued
    ensures d != Zero ==> (d == queued && queuedOpen) || (d == dir && dirOpen)
    ensures (queued == Zero || !queuedOpen) ==> d == (if dirOpen then dir else Zero)
  {
    if queued != Zero && queuedOpen then queued
    else if !dirOpen then Zero
    else dir
  }

  /** The centre of the neighbour in d when it is not a wall of m, else of (gx, gy). */
  function Aim(m: Maze, gx: int, gy: int, d: Dir): (t: Point)
    ensures !WallAt(m, gx + DX(d), gy + DY(d)) ==> t == CenterOf(gx + DX(d), gy + DY(d))
    ensures WallAt(m, gx + DX(d), gy + DY(d)) ==> t == CenterOf(gx, gy)
  {
    if !WallAt(m, gx + DX(d), gy + DY(d)) then CenterOf(gx + DX(d), gy + DY(d)) else CenterOf(gx, gy)
  }

  /** Turning and aiming on maze m from cell (p.gx, p.gy). */
  function TurnAim(p: PacKin, m: Maze): PacKin {
    var d := Turn(p.dir, p.queued,
                  !WallAt(m, p.gx + DX(p.queued), p.gy + DY(p.queued)),
                  !WallAt(m, p.gx + DX(p.dir), p.gy + DY(p.dir)));
    p.(dir := d, target := Aim(m, p.gx, p.gy, d))
  }

  /** The queued direction is taken exactly when its neighbour is open,
      otherwise the current one is kept while open and dropped at a wall; the
      target is the next cell along the chosen direction, or the own cell when
      standing still; nothing else changes. */
  lemma TurnAimChoice(p: PacKin, m: Maze)
    ensures var r := TurnAim(p, m);
      r == p.(dir := r.dir, target := r.target)
      && (p.queued != Zero ==> (r.dir == p.queued <==> !WallAt(m, p.gx + DX(p.queued), p.gy + DY(p.queued))))
      && (p.queued == Zero || WallAt(m, p.gx + DX(p.queued), p.gy + DY(p.queued)) ==>
            r.dir == (if WallAt(m, p.gx + DX(p.dir), p.gy + DY(p.dir)) then Zero else p.dir))
      && (r.dir != Zero ==>
            !WallAt(m, p.gx + DX(r.dir), p.gy + DY(r.dir)) && r.target == CenterOf(p.gx + DX(r.dir), p.gy + DY(r.dir)))
      && (r.dir == Zero ==> r.target == CenterOf(p.gx, p.gy))
  {
  }

  /** Turning and aiming, recognised from its parts. */
  lemma TurnAimIs(p: PacKin, m: Maze, k: PacKin)
    requires k.gx == p.gx && k.gy == p.gy && k.pos == p.pos && k.queued == p.queued
    requires k.dir == Turn(p.dir, p.queued, !WallAt(m, p.gx + DX(p.queued), p.gy + DY(p.queued)),
                           !WallAt(m, p.gx + DX(p.dir), p.gy + DY(p.dir)))
    requires k.target == Aim(m, p.gx, p.gy, k.dir)
    ensures TurnAim(p, m) == k
  {
  }

  /** The tile-centre branch of Pacman::Update: re-derive the cell, eat, turn
      and aim at the next cell. */
  function PacCentre(p: PacKin, m: Maze): (r: (PacKin, Maze, bool))
    requires WellFormed(m)
    ensures WellFormed(r.1)
  {
    var gx := TruncDiv(p.pos.x, TILE_SIZE);
    var gy := TruncDiv(p.pos.y, TILE_SIZE);
    var e := Eat(m, gx, gy);
    (TurnAim(p.(gx := gx, gy := gy), e.0), e.0, e.1)
  }

  /** At a tile centre the cell is re-derived from the position and the tile
      there is eaten; a buffered direction is adopted exactly when its
      neighbour is open, otherwise the current one is kept while open and
      dropped at a wall; the target is the open neighbour's centre, or the
      own centre when stopped. */
  lemma PacCentreTurns(p: PacKin, m: Maze)
    requires WellFormed(m)
    ensures var r := PacCentre(p, m);
      r.0.pos == p.pos && r.0.queued == p.queued
      && r.0.gx == TruncDiv(p.pos.x, TILE_SIZE) && r.0.gy == TruncDiv(p.pos.y, TILE_SIZE)
      && (r.1, r.2) == Eat(m, r.0.gx, r.0.gy)
      && (p.queued != Zero ==>
            (r.0.dir == p.queued <==> !WallAt(m, r.0.gx + DX(p.queued), r.0.gy + DY(p.queued))))
      && (p.queued == Zero || WallAt(m, r.0.gx + DX(p.queued), r.0.gy + DY(p.queued)) ==>
            r.0.dir == (if WallAt(m, r.0.gx + DX(p.dir), r.0.gy + DY(p.dir)) then Zero else p.dir))
      && (r.0.dir != Zero ==>
            !WallAt(m, r.0.gx + DX(r.0.dir), r.0.gy + DY(r.0.dir))
            && r.0.target == CenterOf(r.0.gx + DX(r.0.dir), r.0.gy + DY(r.0.dir)))
      && (r.0.dir == Zero ==> r.0.target == CenterOf(r.0.gx, r.0.gy))
  {
    var gx := TruncDiv(p.pos.x, TILE_SIZE);
    var gy := TruncDiv(p.pos.y, TILE_SIZE);
    TurnAimChoice(p.(gx := gx, gy := gy), Eat(m, gx, gy).0);
  }

  /** The centre branch, recognised from its parts. */
  lemma PacCentreIs(p: PacKin, m: Maze, k: PacKin, m1: Maze, ate: bool)
    requires WellFormed(m)
    requires (m1, ate) == Eat(m, TruncDiv(p.pos.x, TILE_SIZE), TruncDiv(p.pos.y, TILE_SIZE))
    requires k == TurnAim(p.(gx := TruncDiv(p.pos.x, TILE_SIZE), gy := TruncDiv(p.pos.y, TILE_SIZE)), m1)
    ensures PacCentre(p, m) == (k, m1, ate)
  {
  }

  /** Pacman::Update: the centre branch when at the target's centre, then the
      step (`arrived`: the step reaches the target). */
  function PacStep(p: PacKin, m: Maze, arrived: bool): (r: (PacKin, Maze, bool))
    requires WellFormed(m)
    ensures WellFormed(r.1)
    ensures !AtCenter(p.pos, p.target) ==>
      r.1 == m && !r.2 && r.0 == p.(pos := if arrived then p.target else p.pos)
    ensures AtCenter(p.pos, p.target) ==>
      var c := PacCentre(p, m);
      r == (c.0.(pos := if arrived || AtCenter(c.0.pos, c.0.target) then c.0.target else c.0.pos), c.1, c.2)
  {
    var c := if AtCenter(p.pos, p.target) then PacCentre(p, m) else (p, m, false);
    (c.0.(pos := if arrived || AtCenter(c.0.pos, c.0.target) then c.0.target else c.0.pos), c.1, c.2)
  }

  /** Positions and targets stay tile centres across a step. */
  lemma {:induction false} PacStepKeepsCentred(p: PacKin, m: Maze, arrived: bool)
    requires WellFormed(m) && IsCentre(p.pos) && IsCentre(p.target)
    ensures IsCentre(PacStep(p, m, arrived).0.pos) && IsCentre(PacStep(p, m, arrived).0.target)
  {
    if AtCenter(p.pos, p.target) {
      PacCentreTurns(p, m);
      var c := PacCentre(p, m).0;
      CentreIsCentre(c.gx + DX(c.dir), c.gy + DY(c.dir));
      CentreIsCentre(c.gx, c.gy);
    }
  }

  /** Only colours of the ghosts may change between the two states. */
  twostate predicate ColourOnly(gs: seq<Ghost>)
    reads gs
  {
    forall g :: g in gs ==>
      g.Identity() == old(g.Identity()) && g.fsm == old(g.fsm)
      && g.Kinematics() == old(g.Kinematics()).(colour := g.colour)
  }

  /** The four ghosts' Init calls of Game::Init, around the centre cell (cx, cy). */
  method PlaceGhosts(g0: Ghost, g1: Ghost, g2: Ghost, g3: Ghost, cx: int, cy: int)
    requires g0 != g1 && g0 != g2 && g0 != g3 && g1 != g2 && g1 != g3 && g2 != g3
    modifies g0, g1, g2, g3
    ensures g0.Valid() && g0.Val() == InitG(Blinky, cx - 2, cy, Red)
    ensures g1.Valid() && g1.Val() == InitG(Inky, cx, cy, Cyan)
    ensures g2.Valid() && g2.Val() == InitG(Pinky, cx + 2, cy, Magenta)
    ensures g3.Valid() && g3.Val() == InitG(Clyde, cx, cy + 2, Orange)
  {
    g0.Init(Blinky, cx - 2, cy, Red);
    g1.Init(Inky, cx, cy, Cyan);
    g2.Init(Pinky, cx + 2, cy, Magenta);
    g3.Init(Clyde, cx, cy + 2, Orange);
  }

  class Game {
    const maze: array2<Tile>
    const pac: Pacman
    const ghosts: seq<Ghost>
    var powerUpTimer: real
    var powerUpPresent: bool

    /** The maze array has the grid's shape. */
    predicate Shaped() {
      maze.Length0 == GRID_HEIGHT && maze.Length1 == GRID_WIDTH
    }

    /** The maze has the grid's shape; four distinct ghosts; the timer is never
        negative, and no power-up lies on the board while one is running. */
    ghost predicate Valid()
      reads this
    {
      Shaped()
      && |ghosts| == 4 && (forall i, j :: 0 <= i < j < |ghosts| ==> ghosts[i] != ghosts[j])
      && powerUpTimer >= 0.0 && (powerUpPresent ==> powerUpTimer == 0.0)
    }

    /** The maze read back as a value. */
    function Cells(): (m: Maze)
      requires Shaped()
      reads maze
      ensures WellFormed(m)
    {
      seq(GRID_HEIGHT, y requires 0 <= y < GRID_HEIGHT reads maze =>
        seq(GRID_WIDTH, x requires 0 <= x < GRID_WIDTH reads maze => maze[y, x]))
    }

    lemma CellsMatch()
      requires Shaped()
      ensures forall y, x :: 0 <= y < GRID_HEIGHT && 0 <= x < GRID_WIDTH ==> Cells()[y][x] == maze[y, x]
    {
    }

    lemma CellMatch(y: int, x: int)
      requires Shaped() && 0 <= y < GRID_HEIGHT && 0 <= x < GRID_WIDTH
      ensures Cells()[y][x] == maze[y, x]
    {
    }

    /** All ghosts show colour c. */
    ghost predicate Tinted(c: Colour)
      reads this, ghosts
    {
      forall i :: 0 <= i < |ghosts| ==> ghosts[i].colour == c
    }

    /** A new board: the player, four ghosts before Init, a maze of walls. */
    constructor ()
      ensures Valid() && fresh(pac) && fresh(maze)
      ensures forall i :: 0 <= i < |ghosts| ==> fresh(ghosts[i]) && ghosts[i].fsm == null
      ensures Cells() == seq(GRID_HEIGHT, y => seq(GRID_WIDTH, x => Wall))
      ensures powerUpTimer == 0.0 && !powerUpPresent
    {
      pac := new Pacman();
      var g0 := new Ghost();
      var g1 := new Ghost();
      var g2 := new Ghost();
      var g3 := new Ghost();
      ghosts := [g0, g1, g2, g3];
      maze := new Tile[GRID_HEIGHT, GRID_WIDTH]((y, x) => Wall);
      powerUpTimer := 0.0;
      powerUpPresent := false;
      new;
      CellsMatch();
      MazeExt(Cells(), seq(GRID_HEIGHT, y => seq(GRID_WIDTH, x => Wall)));
    }

    function IsWall(x: int, y: int): (r: bool)
      requires Shaped()
      reads maze
      ensures !InBounds(x, y) ==> r
      ensures InBounds(x, y) ==> (r <==> maze[y, x] == Wall)
      ensures r == WallAt(Cells(), x, y)
    {
      if !InBounds(x, y) then true else CellMatch(y, x); maze[y, x] == Wall
    }

    method BuildArena()
      requires Valid()
      modifies maze
      ensures Valid()
      ensures Cells() == Arena()
    {
      for y := 0 to GRID_HEIGHT
        invariant forall j, i :: 0 <= j < y && 0 <= i < GRID_WIDTH ==> maze[j, i] == Arena()[j][i]
      {
        for x := 0 to GRID_WIDTH
          invariant forall j, i :: 0 <= j < y && 0 <= i < GRID_WIDTH ==> maze[j, i] == Arena()[j][i]
          invariant forall i :: 0 <= i < x ==> maze[y, i] == Arena()[y][i]
        {
          var border := x == 0 || y == 0 || x == GRID_WIDTH - 1 || y == GRID_HEIGHT - 1;
          maze[y, x] := if border then Wall else Pellet;
        }
      }
      CellsMatch();
      MazeExt(Cells(), Arena());
    }

    /** The pellet tiles, scanning rows top to bottom and each row left to right. */
    method CollectPellets() returns (candidates: seq<Point>)
      requires Valid()
      ensures candidates == Candidates(Cells())
    {
      ghost var m := Cells();
      CellsMatch();
      candidates := [];
      for y := 0 to GRID_HEIGHT
        invariant candidates == PelletsBefore(m, 0, y)
      {
        for x := 0 to GRID_WIDTH
          invariant candidates == PelletsBefore(m, x, y)
        {
          if maze[y, x] == Pellet {
            candidates := candidates + [Point(x, y)];
          }
        }
      }
    }

    /** Gathers the pellet tiles in scan order and turns the chosen one into
        the power-up, as evidently intended (SpawnPowerUpAsWritten keeps the
        diagonal write of Game.cpp); `pick` stands for the random index. */
    method SpawnPowerUp(pick: nat)
      requires Valid() && powerUpTimer == 0.0
      modifies this, maze
      ensures Valid()
      ensures Cells() == SpawnOnPellet(old(Cells()), pick)
      ensures powerUpPresent == (old(powerUpPresent) || Chosen(old(Cells()), pick).Some?)
      ensures powerUpTimer == old(powerUpTimer)
    {
      ghost var m0 := Cells();
      CellsMatch();
      var candidates := CollectPellets();
      if candidates != [] {
        var choice := candidates[pick % |candidates|];
        assert Chosen(m0, pick) == Some(choice);
        maze[choice.y, choice.x] := PowerUp;
        powerUpPresent := true;
        CellsMatch();
        MazeExt(Cells(), Put(m0, choice.x, choice.y, PowerUp));
      }
    }

    /** SpawnPowerUp as Game.cpp writes it: the chosen pellet's column
        indexes both dimensions of the maze. */
    method SpawnPowerUpAsWritten(pick: nat)
      requires Valid() && powerUpTimer == 0.0
      modifies this, maze
      ensures Valid()
      ensures Cells() == SpawnAsWritten(old(Cells()), pick)
      ensures powerUpPresent == (old(powerUpPresent) || Chosen(old(Cells()), pick).Some?)
      ensures powerUpTimer == old(powerUpTimer)
    {
      ghost var m0 := Cells();
      CellsMatch();
      var candidates := CollectPellets();
      if candidates != [] {
        var choice := candidates[pick % |candidates|];
        assert Chosen(m0, pick) == Some(choice);
        maze[choice.x, choice.x] := PowerUp;
        powerUpPresent := true;
        CellsMatch();
        MazeExt(Cells(), Put(m0, choice.x, choice.x, PowerUp));
      }
    }

    /** Starts a power-up phase: full timer, nothing on the board, every ghost blue. */
    method ActivatePowerUp()
      requires Valid()
      modifies this, ghosts
      ensures Valid()
      ensures powerUpTimer == POWERUP_DURATION && !powerUpPresent
      ensures Tinted(Blue)
      ensures ColourOnly(ghosts)
    {
      powerUpTimer := POWERUP_DURATION;
      powerUpPresent := false;
      for i := 0 to |ghosts|
        invariant powerUpTimer == POWERUP_DURATION && !powerUpPresent
        invariant forall j :: 0 <= j < i ==> ghosts[j].colour == Blue
        invariant ColourOnly(ghosts)
      {
        ghosts[i].colour := Blue;
      }
    }

    /** The power-up branch of Game::Update: a running timer counts down by dt
        and, on reaching zero, is clamped and restores every ghost's own
        colour; with no timer running and nothing on the board, a new
        power-up is placed. */
    method UpdatePowerUp(dt: real, pick: nat)
      requires Valid()
      modifies this, maze, ghosts
      ensures Valid()
      ensures ColourOnly(ghosts)
      ensures old(powerUpTimer) > 0.0 && old(powerUpTimer) - dt > 0.0 ==>
        powerUpTimer == old(powerUpTimer) - dt && unchanged(ghosts) && unchanged(maze)
        && powerUpPresent == old(powerUpPresent)
      ensures old(powerUpTimer) > 0.0 && old(powerUpTimer) - dt <= 0.0 ==>
        powerUpTimer == 0.0 && (forall g :: g in ghosts ==> g.colour == g.baseColour)
        && unchanged(maze) && powerUpPresent == old(powerUpPresent)
      ensures old(powerUpTimer) == 0.0 && !old(powerUpPresent) ==>
        Cells() == SpawnOnPellet(old(Cells()), pick) && unchanged(ghosts)
        && powerUpPresent == Chosen(old(Cells()), pick).Some? && powerUpTimer == 0.0
      ensures old(powerUpTimer) == 0.0 && old(powerUpPresent) ==>
        unchanged(this) && unchanged(maze) && unchanged(ghosts)
    {
      if powerUpTimer > 0.0 {
        powerUpTimer := powerUpTimer - dt;
        if powerUpTimer <= 0.0 {
          powerUpTimer := 0.0;
          for i := 0 to |ghosts|
            invariant powerUpTimer == 0.0 && powerUpPresent == old(powerUpPresent) && unchanged(maze)
            invariant forall j :: 0 <= j < i ==> ghosts[j].colour == ghosts[j].baseColour
            invariant ColourOnly(ghosts)
          {
            ghosts[i].colour := ghosts[i].baseColour;
          }
        }
      } else if !powerUpPresent {
        SpawnPowerUp(pick);
      }
    }

    /** The actors of Game::Init: the player at (9, 23) and the ghosts each
        on its own spawn cell around the middle of the grid. */
    method InitActors()
      requires Valid()
      modifies pac, ghosts
      ensures unchanged(this) && unchanged(maze)
      ensures pac.Kin() == PacKin(9, 23, CenterOf(9, 23), CenterOf(9, 23), Zero, Zero)
      ensures ghosts[0].Valid() && ghosts[0].Val() == InitG(Blinky, 12, 15, Red)
      ensures ghosts[1].Valid() && ghosts[1].Val() == InitG(Inky, 14, 15, Cyan)
      ensures ghosts[2].Valid() && ghosts[2].Val() == InitG(Pinky, 16, 15, Magenta)
      ensures ghosts[3].Valid() && ghosts[3].Val() == InitG(Clyde, 14, 17, Orange)
    {
      pac.Init(13 - 4, 23);
      var cx, cy := GRID_WIDTH / 2, GRID_HEIGHT / 2;
      PlaceGhosts(ghosts[0], ghosts[1], ghosts[2], ghosts[3], cx, cy);
    }

    /** Game::Init: the arena, the player at (9, 23), the four ghosts around
        the middle of the grid, and a first power-up. */
    method Init(pick: nat)
      requires Valid() && powerUpTimer == 0.0
      modifies this, maze, pac, ghosts
      ensures Valid()
      ensures Cells() == SpawnOnPellet(Arena(), pick)
      ensures powerUpPresent && powerUpTimer == 0.0
      ensures pac.Kin() == PacKin(9, 23, CenterOf(9, 23), CenterOf(9, 23), Zero, Zero)
      ensures ghosts[0].Valid() && ghosts[0].Val() == InitG(Blinky, 12, 15, Red)
      ensures ghosts[1].Valid() && ghosts[1].Val() == InitG(Inky, 14, 15, Cyan)
      ensures ghosts[2].Valid() && ghosts[2].Val() == InitG(Pinky, 16, 15, Magenta)
      ensures ghosts[3].Valid() && ghosts[3].Val() == InitG(Clyde, 14, 17, Orange)
    {
      // The power-up is placed before the actors: the two steps touch disjoint
      // state, so the order does not change the result.
      BuildArena();
      ArenaAlwaysChooses(pick);
      SpawnPowerUp(pick);
      InitActors();
    }
  }

  class Pacman {
    var gx: int
    var gy: int
    var pos: Point
    var target: Point
    var dir: Dir
    var queued: Dir
    var speed: real

    function Kin(): PacKin
      reads this
    {
      PacKin(gx, gy, pos, target, dir, queued)
    }

    constructor ()
      ensures Kin() == PacKin(0, 0, Point(0, 0), Point(0, 0), Zero, Zero)
      ensures speed == 90.0
    {
      gx, gy := 0, 0;
      pos, target := Point(0, 0), Point(0, 0);
      dir, queued := Zero, Zero;
      speed := 90.0;
    }

    /** Standing still at the centre of (startGX, startGY), nothing buffered. */
    method Init(startGX: int, startGY: int)
      modifies this
      ensures Kin() == PacKin(startGX, startGY, CenterOf(startGX, startGY), CenterOf(startGX, startGY), Zero, Zero)
      ensures speed == old(speed)
    {
      gx, gy := startGX, startGY;
      pos := CenterOf(gx, gy);
      target := pos;
      dir, queued := Zero, Zero;
    }

    /** Eating under Pac-Man: a pellet or a power-up on an in-bounds cell
        becomes empty, and only a power-up starts the power-up phase. */
    method EatTile(game: Game) returns (ate: bool)
      requires game.Valid()
      modifies game, game.maze, game.ghosts
      ensures game.Valid()
      ensures (game.Cells(), ate) == Eat(old(game.Cells()), gx, gy)
      ensures ate ==> game.powerUpTimer == POWERUP_DURATION && !game.powerUpPresent && game.Tinted(Blue)
      ensures !ate ==> unchanged(game) && unchanged(game.ghosts)
      ensures ColourOnly(game.ghosts)
    {
      ghost var m0 := game.Cells();
      ate := false;
      if InBounds(gx, gy) {
        game.CellMatch(gy, gx);
        if game.maze[gy, gx] == Pellet {
          game.maze[gy, gx] := Empty;
          EatOne(game, m0);
        } else if game.maze[gy, gx] == PowerUp {
          game.maze[gy, gx] := Empty;
          EatOne(game, m0);
          game.ActivatePowerUp();
          ate := true;
        }
      }
    }

    /** After clearing the tile under Pac-Man, the maze is m0 with that tile emptied. */
    lemma EatOne(game: Game, m0: Maze)
      requires game.Valid() && WellFormed(m0) && InBounds(gx, gy)
      requires forall j, i :: 0 <= j < GRID_HEIGHT && 0 <= i < GRID_WIDTH && (i != gx || j != gy) ==>
        game.maze[j, i] == m0[j][i]
      requires game.maze[gy, gx] == Empty
      ensures game.Cells() == Put(m0, gx, gy, Empty)
    {
      game.CellsMatch();
      MazeExt(game.Cells(), Put(m0, gx, gy, Empty));
    }

    /** The direction taken at a tile centre: the buffered one when its
        neighbour is open, else the current one, dropped at a wall. */
    method ChooseTurn(game: Game, ghost m: Maze) returns (d: Dir)
      requires game.Valid() && m == game.Cells()
      ensures d == Turn(dir, queued, !WallAt(m, gx + DX(queued), gy + DY(queued)),
                        !WallAt(m, gx + DX(dir), gy + DY(dir)))
    {
      d := dir;
      var qx, qy := gx + DX(queued), gy + DY(queued);
      if queued != Zero && !game.IsWall(qx, qy) {
        d := queued;
      } else {
        var cx, cy := gx + DX(dir), gy + DY(dir);
        if game.IsWall(cx, cy) {
          d := Zero;
        }
      }
    }

    /** Adopt the buffered direction if its neighbour is open, else stop at a
        wall, then aim at the next cell's centre. */
    method TurnAndAim(game: Game, ghost m: Maze)
      requires game.Valid() && m == game.Cells()
      modifies this
      ensures speed == old(speed)
      ensures Kin() == TurnAim(old(Kin()), m)
    {
      ghost var p0 := Kin();
      var d := ChooseTurn(game, m);
      var t := AimAt(game, m, d);
      TurnAimIs(p0, m, p0.(dir := d, target := t));
      dir, target := d, t;
    }

    /** The next target along d: the neighbour's centre when it is open,
        otherwise the centre of Pac-Man's own cell. */
    method AimAt(game: Game, ghost m: Maze, d: Dir) returns (t: Point)
      requires game.Valid() && m == game.Cells()
      ensures t == Aim(m, gx, gy, d)
    {
      var tx, ty := gx + DX(d), gy + DY(d);
      t := if !game.IsWall(tx, ty) then CenterOf(tx, ty) else CenterOf(gx, gy);
    }

    /** The tile-centre branch of Pacman::Update: re-grid from the position,
        eat, turn and re-target. */
    method AtTileCentre(game: Game) returns (ate: bool)
      requires game.Valid()
      modifies this, game, game.maze, game.ghosts
      ensures game.Valid() && speed == old(speed)
      ensures (Kin(), game.Cells(), ate) == PacCentre(old(Kin()), old(game.Cells()))
      ensures ate ==> game.powerUpTimer == POWERUP_DURATION && !game.powerUpPresent && game.Tinted(Blue)
      ensures !ate ==> unchanged(game) && unchanged(game.ghosts)
      ensures ColourOnly(game.ghosts)
    {
      ghost var p0 := Kin();
      ghost var m0 := game.Cells();
      gx := TruncDiv(pos.x, TILE_SIZE);
      gy := TruncDiv(pos.y, TILE_SIZE);
      assert game.Cells() == m0;
      ate := EatTile(game);
      ghost var m1 := game.Cells();
      TurnAndAim(game, m1);
      PacCentreIs(p0, m0, Kin(), m1, ate);
    }

    /** One frame for the player: at a tile centre, eat (a power-up starts the
        power-up phase), turn and re-target; then step. */
    method Update(game: Game, arrived: bool)
      requires game.Valid()
      modifies this, game, game.maze, game.ghosts
      ensures game.Valid() && speed == old(speed)
      ensures var r := PacStep(old(Kin()), old(game.Cells()), arrived);
        Kin() == r.0 && game.Cells() == r.1
        && (r.2 ==> game.powerUpTimer == POWERUP_DURATION && !game.powerUpPresent && game.Tinted(Blue))
        && (!r.2 ==> unchanged(game) && unchanged(game.ghosts))
      ensures ColourOnly(game.ghosts)
    {
      if AtCenter(pos, target) {
        var ate := AtTileCentre(game);
      }
      if arrived || AtCenter(pos, target) {
        pos := target;
      }
    }
  }
}
