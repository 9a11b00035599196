/** Grid and display configuration, and the tile-centre geometry shared by
    Pac-Man, the ghosts and the board. Positions are integer pixel points:
    the grid logic only ever compares positions that are tile centres. */
module Config {

  const TILE_SIZE: int := 16
  const GRID_WIDTH: int := 28
  const GRID_HEIGHT: int := 31
  const DISPLAY_W: int := GRID_WIDTH * TILE_SIZE
  const DISPLAY_H: int := GRID_HEIGHT * TILE_SIZE
  const DISPLAY_SCALE: int := 2

  // Tuning constants the game refers to but whose definitions are not part
  // of this model; the values below are placeholders, and the only facts about
  // them any proof uses are that POWERUP_DURATION is not negative and that
  // FRIGHTENED_SPEED_MULT and EATEN_SPEED_MULT are positive.
  const BASE_GHOST_SPEED: real := 80.0
  const FRIGHTENED_SPEED_MULT: real := 0.5
  const EATEN_SPEED_MULT: real := 2.0
  const CLYDE_CHASE_SWITCH_DIST: int := 8
  const POWERUP_DURATION: real := 6.0

  datatype Point = Point(x: int, y: int)

  /** Integer division rounding toward zero, as C++ `/` and a float-to-int cast do:
      the quotient times b lies at or below a non-negative a, and at or above a
      negative one, by less than b. */
  function TruncDiv(a: int, b: int): (q: int)
    requires b > 0
    ensures 0 <= a ==> q * b <= a < q * b + b
    ensures a < 0 ==> q * b - b < a <= q * b
  {
    if a >= 0 then a / b else -((-a) / b)
  }

  /** One coordinate of the centre of a tile. */
  function CentreCoord(g: int): int {
    g * TILE_SIZE + TILE_SIZE / 2
  }

  /** Pixel centre of grid cell (gx, gy). */
  function CenterOf(gx: int, gy: int): (c: Point)
    ensures c.x - gx * TILE_SIZE == 8 && c.y - gy * TILE_SIZE == 8
  {
    Point(CentreCoord(gx), CentreCoord(gy))
  }

  /** "Is at the centre": with positions restricted to integer points the
      epsilon comparison of the game becomes equality of points. */
  predicate AtCenter(a: Point, b: Point): (r: bool)
    ensures r <==> a == b
  {
    a.x == b.x && a.y == b.y
  }

  lemma AtCenterReflexiveSymmetric(a: Point, b: Point)
    ensures AtCenter(a, a)
    ensures AtCenter(a, b) <==> AtCenter(b, a)
  {
  }

  /** Re-deriving the grid cell from a centre by truncating division gives the
      cell back exactly when the coordinate is not negative. */
  lemma CentreRoundTrip(g: int)
    ensures TruncDiv(CentreCoord(g), TILE_SIZE) == g <==> g >= 0
  {
    if g >= 0 {
      assert CentreCoord(g) == 16 * g + 8;
      assert (16 * g + 8) / 16 == g;
    } else if g == -1 {
      assert CentreCoord(g) == -8;
    } else {
      assert -CentreCoord(g) == 16 * (-g - 1) + 8;
      assert (16 * (-g - 1) + 8) / 16 == -g - 1;
    }
  }

  lemma CenterOfRoundTrip(gx: int, gy: int)
    requires gx >= 0 && gy >= 0
    ensures TruncDiv(CenterOf(gx, gy).x, TILE_SIZE) == gx
    ensures TruncDiv(CenterOf(gx, gy).y, TILE_SIZE) == gy
  {
    CentreRoundTrip(gx);
    CentreRoundTrip(gy);
  }

  lemma CenterOfInjective(x1: int, y1: int, x2: int, y2: int)
    ensures CenterOf(x1, y1) == CenterOf(x2, y2) <==> x1 == x2 && y1 == y2
  {
  }

  /** The grid cells. */
  predicate InBounds(x: int, y: int) {
    0 <= x < GRID_WIDTH && 0 <= y < GRID_HEIGHT
  }

  /** The display is exactly the grid in pixels: a cell is on the grid
      precisely when its centre lies on screen. */
  lemma CentresOnDisplay(gx: int, gy: int)
    ensures InBounds(gx, gy) <==>
      (0 <= CenterOf(gx, gy).x < DISPLAY_W && 0 <= CenterOf(gx, gy).y < DISPLAY_H)
  {
  }
}
