/** The ghost seen as a value: its state-machine registry, its fixed traits
    and its moving parts, together with pure definitions of everything the
    state hooks, the state machine and the ghost's event API do to them.
    The classes in module Ghosts are proved to change their fields exactly
    as these functions say; the properties of the game rules are proved here. */
module GhostModel {
  import opened Config
  import opened Directions

  datatype Option<T> = None | Some(value: T)

  datatype GhostState = Idle | Scatter | Chase | Frightened | Eaten
  datatype GhostType = Blinky | Inky | Pinky | Clyde
  datatype GlobalMode = ScatterMode | ChaseMode
  datatype Colour = Red | Cyan | Magenta | Orange | Blue | White

  const AllStates: set<GhostState> := {Idle, Scatter, Chase, Frightened, Eaten}

  /** The read-only board queries a ghost state may make. Pac-Man's pixel
      position (used only for the collision test) is not part of it. */
  datatype BoardView = BoardView(
    isWall: (int, int) -> bool,
    scatterTarget: GhostType -> Point,
    pacDir: Dir,
    ghostGrid: GhostType -> Point,
    mode: GlobalMode)

  /** What a ghost is given at Init and keeps. */
  datatype Traits = Traits(kind: GhostType, spawnGX: int, spawnGY: int, baseSpeed: real, baseColour: Colour)

  /** What the state hooks and the movement code change. */
  datatype Kin = Kin(gx: int, gy: int, pos: Point, target: Point, dir: Dir, speed: real, colour: Colour)

  /** The state machine: the registered ids (each bound to the concrete state
      of that id), the current id, and whether the current-state pointer is set. */
  datatype Fsm = Fsm(registered: set<GhostState>, cur: GhostState, active: bool)

  /** A ghost: its machine (absent before Init), traits and moving parts. */
  datatype GhostVal = GhostVal(fsm: Option<Fsm>, t: Traits, k: Kin)

  /** The current-state pointer, when set, is the state registered under the current id. */
  predicate FsmValid(m: Fsm) {
    m.active ==> m.cur in m.registered
  }

  function StateName(s: GhostState): (r: string)
    ensures r != "None" && r != "Unknown"
  {
    match s
    case Idle => "Idle"
    case Scatter => "Scatter"
    case Chase => "Chase"
    case Frightened => "Frightened"
    case Eaten => "Eaten"
  }

  lemma StateNamesDistinct(a: GhostState, b: GhostState)
    ensures StateName(a) == StateName(b) <==> a == b
  {
  }

  // ---------- State hooks ----------

  /** OnEnter of the concrete state s: Idle stops the ghost on its own tile
      centre, Scatter and Chase restore its own look and speed, Frightened turns
      it blue, scales its speed by FRIGHTENED_SPEED_MULT and turns it round,
      Eaten turns it white and scales its speed by EATEN_SPEED_MULT. No state
      moves the ghost or its grid cell. */
  function EnterEffect(s: GhostState, t: Traits, k: Kin): (r: Kin)
    ensures r.pos == k.pos && r.gx == k.gx && r.gy == k.gy
    ensures s == Idle ==>
      r.dir == Zero && r.target == CenterOf(k.gx, k.gy) && r.speed == 0.0 && r.colour == k.colour
    ensures s == Scatter || s == Chase ==>
      r.colour == t.baseColour && r.speed == t.baseSpeed && r.dir == k.dir && r.target == k.target
    ensures s == Frightened ==>
      r.colour == Blue && r.speed == t.baseSpeed * FRIGHTENED_SPEED_MULT
      && r.dir == OppositeDir(k.dir) && r.target == k.target
    ensures s == Eaten ==>
      r.colour == White && r.speed == t.baseSpeed * EATEN_SPEED_MULT && r.dir == k.dir && r.target == k.target
    ensures s != Idle && t.baseSpeed > 0.0 ==> r.speed > 0.0
  {
    match s
    case Idle => k.(dir := Zero, target := CenterOf(k.gx, k.gy), speed := 0.0)
    case Scatter => k.(colour := t.baseColour, speed := t.baseSpeed)
    case Chase => k.(colour := t.baseColour, speed := t.baseSpeed)
    case Frightened => k.(colour := Blue, speed := t.baseSpeed * FRIGHTENED_SPEED_MULT, dir := OppositeDir(k.dir))
    case Eaten => k.(colour := White, speed := t.baseSpeed * EATEN_SPEED_MULT)
  }

  /** OnExit of the concrete state s: leaving Idle or Frightened restores the
      base speed, leaving Frightened also the base colour; only speed and
      colour ever change, and the other states leave the ghost as it is. */
  function ExitEffect(s: GhostState, t: Traits, k: Kin): (r: Kin)
    ensures r == k.(speed := r.speed, colour := r.colour)
    ensures s == Idle || s == Frightened ==> r.speed == t.baseSpeed
    ensures s == Frightened ==> r.colour == t.baseColour
    ensures s == Idle ==> r.colour == k.colour
    ensures s != Idle && s != Frightened ==> r == k
  {
    match s
    case Idle => k.(speed := t.baseSpeed)
    case Frightened => k.(colour := t.baseColour, speed := t.baseSpeed)
    case _ => k
  }

  /** Entering then leaving Frightened restores the base look and speed and
      leaves the ghost heading back the way it came; leaving Idle or
      Frightened always restores the base speed. */
  lemma FrightenedEnterExit(t: Traits, k: Kin)
    ensures var k1 := ExitEffect(Frightened, t, EnterEffect(Frightened, t, k));
      k1.colour == t.baseColour && k1.speed == t.baseSpeed && k1.dir == OppositeDir(k.dir)
      && k1.pos == k.pos && k1.target == k.target && k1.gx == k.gx && k1.gy == k.gy
    ensures OppositeDir(OppositeDir(k.dir)) == k.dir
    ensures ExitEffect(Idle, t, k).speed == t.baseSpeed
  {
    match k.dir
    case Up =>
    case Right =>
    case Down =>
    case Left =>
    case Zero =>
  }

  // ---------- State machine ----------

  /** SetState runs hooks unless a state is active and the request is
      Eaten -> Frightened or names the current state. */
  predicate Fires(m: Fsm, s: GhostState) {
    !m.active || (s != m.cur && !(m.cur == Eaten && s == Frightened))
  }

  /** GhostStateMachine::SetState on the machine and the owner's moving parts. */
  function FsmSetState(m: Fsm, t: Traits, k: Kin, s: GhostState): (r: (Fsm, Kin))
    ensures r.0.registered == m.registered
    ensures FsmValid(m) ==> FsmValid(r.0)
    ensures m.active && m.cur == Eaten && s == Frightened ==> r == (m, k)
    ensures m.active && m.cur == s ==> r == (m, k)
    ensures Fires(m, s) ==> r.0.cur == s && (r.0.active <==> s in m.registered)
    ensures Fires(m, s) && m.active && s in m.registered ==>
      r.1 == EnterEffect(s, t, ExitEffect(m.cur, t, k))
    ensures Fires(m, s) && !m.active && s in m.registered ==> r.1 == EnterEffect(s, t, k)
    ensures Fires(m, s) && s !in m.registered ==>
      !r.0.active && r.1 == (if m.active then ExitEffect(m.cur, t, k) else k)
  {
    if !Fires(m, s) then (m, k)
    else
      var k1 := if m.active then ExitEffect(m.cur, t, k) else k;
      var m1 := m.(cur := s, active := s in m.registered);
      var k2 := if m1.active then EnterEffect(s, t, k1) else k1;
      (m1, k2)
  }

  /** The machine every ghost has after Init: all five states registered and one active. */
  predicate Ready(g: GhostVal) {
    g.fsm.Some? && g.fsm.value.registered == AllStates && g.fsm.value.active
  }

  /** Ghost::GetState: the machine's current id, Idle when there is no machine. */
  function GetStateG(g: GhostVal): (r: GhostState)
    ensures g.fsm.None? ==> r == Idle
    ensures g.fsm.Some? ==> r == g.fsm.value.cur
  {
    if g.fsm.Some? then g.fsm.value.cur else Idle
  }

  /** Ghost::SetState: delegates to the machine when there is one. */
  function SetStateG(g: GhostVal, s: GhostState): (r: GhostVal)
    ensures r.t == g.t && r.fsm.Some? == g.fsm.Some?
    ensures g.fsm.None? ==> r == g
    ensures Ready(g) ==> Ready(r)
    ensures Ready(g) && GetStateG(g) == Eaten && s == Frightened ==> r == g
    ensures Ready(g) && GetStateG(g) == s ==> r == g
    ensures g.fsm.Some? && !(GetStateG(g) == Eaten && s == Frightened && g.fsm.value.active) ==>
      GetStateG(r) == s
  {
    match g.fsm
    case None => g
    case Some(m) =>
      var (m1, k1) := FsmSetState(m, g.t, g.k, s);
      g.(fsm := Some(m1), k := k1)
  }

  // ---------- Event API ----------

  function EnterFrightenedG(g: GhostVal): (r: GhostVal)
    ensures GetStateG(g) == Eaten ==> r == g
    ensures g.fsm.Some? && GetStateG(g) != Eaten ==> GetStateG(r) == Frightened
    ensures Ready(g) ==> Ready(r)
  {
    if GetStateG(g) == Eaten then g else SetStateG(g, Frightened)
  }

  function ModeState(mode: GlobalMode): GhostState {
    if mode == ScatterMode then Scatter else Chase
  }

  function ExitFrightenedG(g: GhostVal, board: Option<BoardView>): (r: GhostVal)
    ensures GetStateG(g) != Frightened ==> r == g
    ensures g.fsm.Some? && GetStateG(g) == Frightened ==>
      GetStateG(r) == (if board.Some? && board.value.mode == ScatterMode then Scatter else Chase)
    ensures Ready(g) ==> Ready(r)
  {
    if GetStateG(g) != Frightened then g
    else SetStateG(g, if board.Some? && board.value.mode == ScatterMode then Scatter else Chase)
  }

  function SetEatenG(g: GhostVal): (r: GhostVal)
    ensures g.fsm.Some? ==> GetStateG(r) == Eaten
    ensures Ready(g) ==> Ready(r)
  {
    SetStateG(g, Eaten)
  }

  function OnGlobalModeChangeG(g: GhostVal, newMode: GlobalMode): (r: GhostVal)
    ensures GetStateG(g) in {Eaten, Frightened, Idle} ==> r == g
    ensures g.fsm.Some? && GetStateG(g) in {Scatter, Chase} ==> GetStateG(r) == ModeState(newMode)
    ensures Ready(g) ==> Ready(r)
  {
    var s := GetStateG(g);
    if s == Eaten || s == Frightened || s == Idle then g
    else SetStateG(g, ModeState(newMode))
  }

  /** Ghost::ResetToSpawn: the fields go back to spawn defaults first, then
      the machine is asked for Idle, which runs the old state's OnExit and
      Idle's OnEnter unless Idle is already the active state. */
  function ResetToSpawnG(g: GhostVal): (r: GhostVal)
    requires g.fsm.Some?
    ensures GetStateG(r) == Idle && r.t == g.t
    ensures r.k.gx == g.t.spawnGX && r.k.gy == g.t.spawnGY
    ensures r.k.pos == r.k.target == CenterOf(g.t.spawnGX, g.t.spawnGY)
    ensures r.k.dir == Zero && r.k.colour == g.t.baseColour
    ensures r.k.speed ==
      (if Fires(g.fsm.value, Idle) && Idle in g.fsm.value.registered then 0.0 else g.t.baseSpeed)
    ensures Ready(g) ==> Ready(r)
  {
    var c := CenterOf(g.t.spawnGX, g.t.spawnGY);
    var k := g.k.(gx := g.t.spawnGX, gy := g.t.spawnGY, pos := c, target := c, dir := Zero,
                  colour := g.t.baseColour, speed := g.t.baseSpeed);
    SetStateG(g.(k := k), Idle)
  }

  /** Ghost::Init with InitStateMachine: a fresh machine (current id Idle, no
      pointer) with all five states registered, then SetState(Idle). */
  function InitG(kind: GhostType, startGX: int, startGY: int, col: Colour): (r: GhostVal)
    ensures Ready(r) && GetStateG(r) == Idle
    ensures r.t == Traits(kind, startGX, startGY, BASE_GHOST_SPEED, col)
    ensures r.k.gx == startGX && r.k.gy == startGY
    ensures r.k.pos == r.k.target == CenterOf(startGX, startGY)
    ensures r.k.dir == Zero && r.k.colour == col
    ensures r.k.speed == 0.0
  {
    var c := CenterOf(startGX, startGY);
    var t := Traits(kind, startGX, startGY, BASE_GHOST_SPEED, col);
    var k := Kin(startGX, startGY, c, c, Zero, BASE_GHOST_SPEED, col);
    SetStateG(GhostVal(Some(Fsm(AllStates, Idle, false)), t, k), Idle)
  }

  /** InitG, recognised from the traits and fields set before the machine is built. */
  lemma InitGIs(kind: GhostType, startGX: int, startGY: int, col: Colour, t: Traits, k: Kin)
    requires t == Traits(kind, startGX, startGY, BASE_GHOST_SPEED, col)
    requires k == Kin(startGX, startGY, CenterOf(startGX, startGY), CenterOf(startGX, startGY), Zero, BASE_GHOST_SPEED, col)
    ensures InitG(kind, startGX, startGY, col) == SetStateG(GhostVal(Some(Fsm(AllStates, Idle, false)), t, k), Idle)
  {
  }

  /** ResetToSpawnG, recognised from the fields reset before the machine is asked for Idle. */
  lemma ResetToSpawnGIs(g: GhostVal, g1: GhostVal)
    requires g.fsm.Some? && g1.fsm == g.fsm && g1.t == g.t
    requires g1.k == g.k.(gx := g.t.spawnGX, gy := g.t.spawnGY, pos := CenterOf(g.t.spawnGX, g.t.spawnGY),
                          target := CenterOf(g.t.spawnGX, g.t.spawnGY), dir := Zero,
                          colour := g.t.baseColour, speed := g.t.baseSpeed)
    ensures ResetToSpawnG(g) == SetStateG(g1, Idle)
  {
  }

  // ---------- Targeting and steering ----------

  /** The centre of the neighbour in d when it is open, else of the current cell. */
  function NextTarget(isWall: (int, int) -> bool, gx: int, gy: int, d: Dir): (p: Point)
    ensures Open(isWall, gx, gy, d) ==> p == CenterOf(gx + DX(d), gy + DY(d))
    ensures !Open(isWall, gx, gy, d) ==> p == CenterOf(gx, gy)
  {
    if !isWall(gx + DX(d), gy + DY(d)) then CenterOf(gx + DX(d), gy + DY(d)) else CenterOf(gx, gy)
  }

  /** The decision Scatter, Chase and Eaten make at a tile centre: the best
      legal direction towards (tx, ty), and the next cell's centre as target. */
  function Steer(k: Kin, b: BoardView, tx: int, ty: int): (r: Kin)
    ensures r == k.(dir := r.dir, target := r.target)
    ensures r.dir == Zero <==> forall d :: d != Zero ==> !Open(b.isWall, k.gx, k.gy, d)
    ensures r.dir == Zero ==> r.target == CenterOf(k.gx, k.gy)
    ensures r.dir != Zero ==>
      IsBest(k.gx, k.gy, tx, ty, LegalDirs(b.isWall, k.gx, k.gy, k.dir), r.dir)
      && Open(b.isWall, k.gx, k.gy, r.dir)
      && r.target == CenterOf(k.gx + DX(r.dir), k.gy + DY(r.dir))
    ensures (exists d :: d != Zero && Open(b.isWall, k.gx, k.gy, d) && d != OppositeDir(k.dir)) ==>
      r.dir != OppositeDir(k.dir)
  {
    var legal := LegalDirs(b.isWall, k.gx, k.gy, k.dir);
    LegalDirsOpen(b.isWall, k.gx, k.gy, k.dir);
    LegalDirsEmpty(b.isWall, k.gx, k.gy, k.dir);
    LegalDirsNoReversal(b.isWall, k.gx, k.gy, k.dir);
    var d := BestDir(k.gx, k.gy, tx, ty, legal);
    assert d != Zero ==> d in legal;
    k.(dir := d, target := NextTarget(b.isWall, k.gx, k.gy, d))
  }

  /** The per-species chase target. */
  function ChaseTarget(kind: GhostType, gx: int, gy: int, b: BoardView, pacGX: int, pacGY: int): (p: Point)
    ensures kind == Blinky ==> p == Point(pacGX, pacGY)
    ensures kind == Pinky ==>
      p.x - pacGX == 4 * DX(b.pacDir) && p.y - pacGY == 4 * DY(b.pacDir)
      && DistI(p.x, p.y, pacGX, pacGY) == (if b.pacDir == Zero then 0 else 4)
    ensures kind == Inky ==>
      p.x + b.ghostGrid(Blinky).x == 2 * (pacGX + 2 * DX(b.pacDir))
      && p.y + b.ghostGrid(Blinky).y == 2 * (pacGY + 2 * DY(b.pacDir))
    ensures kind == Clyde ==>
      (DistI(gx, gy, pacGX, pacGY) > CLYDE_CHASE_SWITCH_DIST ==> p == Point(pacGX, pacGY))
      && (DistI(gx, gy, pacGX, pacGY) <= CLYDE_CHASE_SWITCH_DIST ==> p == b.scatterTarget(Clyde))
  {
    match kind
    case Blinky => Point(pacGX, pacGY)
    case Pinky => Point(pacGX + DX(b.pacDir) * 4, pacGY + DY(b.pacDir) * 4)
    case Inky =>
      var aheadX := pacGX + DX(b.pacDir) * 2;
      var aheadY := pacGY + DY(b.pacDir) * 2;
      var blinky := b.ghostGrid(Blinky);
      Point(aheadX * 2 - blinky.x, aheadY * 2 - blinky.y)
    case Clyde =>
      if DistI(gx, gy, pacGX, pacGY) > CLYDE_CHASE_SWITCH_DIST then Point(pacGX, pacGY)
      else b.scatterTarget(Clyde)
  }

  /** The target tile of a goal-seeking state at a tile centre. */
  function GoalOf(s: GhostState, g: GhostVal, b: BoardView, pacGX: int, pacGY: int): Point {
    match s
    case Chase => ChaseTarget(g.t.kind, g.k.gx, g.k.gy, b, pacGX, pacGY)
    case Eaten => Point(g.t.spawnGX, g.t.spawnGY)
    case _ => b.scatterTarget(g.t.kind)
  }

  /** OnUpdate of the concrete state s; `pick` plays the frightened walk's
      random generator. */
  function OnUpdateG(s: GhostState, g: GhostVal, board: Option<BoardView>, pacGX: int, pacGY: int, pick: nat): (r: GhostVal)
    ensures r.t == g.t
    ensures s == Idle || board.None? || !AtCenter(g.k.pos, g.k.target) ==> r == g
    ensures s in {Scatter, Chase} && board.Some? && AtCenter(g.k.pos, g.k.target) ==>
      r == g.(k := Steer(g.k, board.value, GoalOf(s, g, board.value, pacGX, pacGY).x,
                                          GoalOf(s, g, board.value, pacGX, pacGY).y))
    ensures s == Frightened && board.Some? && AtCenter(g.k.pos, g.k.target) ==>
      var legal := LegalDirs(board.value.isWall, g.k.gx, g.k.gy, g.k.dir);
      r.fsm == g.fsm
      && (legal == [] ==> r == g)
      && (legal != [] ==> r.k.dir in legal && Open(board.value.isWall, g.k.gx, g.k.gy, r.k.dir)
                          && r.k == g.k.(dir := r.k.dir, target := CenterOf(g.k.gx + DX(r.k.dir), g.k.gy + DY(r.k.dir))))
    ensures (s == Eaten && board.Some? && AtCenter(g.k.pos, g.k.target) && g.fsm.Some? && g.fsm.value.cur == Eaten
             && TruncDiv(g.k.pos.x, TILE_SIZE) == g.t.spawnGX && TruncDiv(g.k.pos.y, TILE_SIZE) == g.t.spawnGY)
      ==> GetStateG(r) == Scatter
    ensures s == Eaten && board.Some? && AtCenter(g.k.pos, g.k.target) ==>
      var g1 := g.(k := Steer(g.k, board.value, g.t.spawnGX, g.t.spawnGY));
      r == (if TruncDiv(g.k.pos.x, TILE_SIZE) == g.t.spawnGX && TruncDiv(g.k.pos.y, TILE_SIZE) == g.t.spawnGY
            then SetStateG(g1, Scatter) else g1)
    ensures Ready(g) ==> Ready(r)
  {
    if s == Idle || board.None? || !AtCenter(g.k.pos, g.k.target) then g
    else
      var b := board.value;
      var k := g.k;
      match s
      case Frightened =>
        var legal := LegalDirs(b.isWall, k.gx, k.gy, k.dir);
        LegalDirsOpen(b.isWall, k.gx, k.gy, k.dir);
        if legal == [] then g
        else
          var d := legal[pick % |legal|];
          g.(k := k.(dir := d, target := NextTarget(b.isWall, k.gx, k.gy, d)))
      case Eaten =>
        var g1 := g.(k := Steer(k, b, g.t.spawnGX, g.t.spawnGY));
        if TruncDiv(k.pos.x, TILE_SIZE) == g.t.spawnGX && TruncDiv(k.pos.y, TILE_SIZE) == g.t.spawnGY
        then SetStateG(g1, Scatter)
        else g1
      case _ =>
        var goal := GoalOf(s, g, b, pacGX, pacGY);
        g.(k := Steer(k, b, goal.x, goal.y))
  }

  /** GhostStateMachine::Update: the active state's OnUpdate, or nothing. */
  function TickG(g: GhostVal, board: Option<BoardView>, pacGX: int, pacGY: int, pick: nat): (r: GhostVal)
    ensures r.t == g.t
    ensures g.fsm.None? || !g.fsm.value.active ==> r == g
    ensures Ready(g) ==> Ready(r)
  {
    if g.fsm.Some? && g.fsm.value.active then OnUpdateG(g.fsm.value.cur, g, board, pacGX, pacGY, pick) else g
  }

  /** The grid part of Ghost::Update at a tile centre: re-derive the cell from
      the position and re-target along the committed direction, dropping the
      direction when it leads into a wall. */
  function Regrid(k: Kin, board: Option<BoardView>): (r: Kin)
    ensures !AtCenter(k.pos, k.target) ==> r == k
    ensures r.pos == k.pos && r.speed == k.speed && r.colour == k.colour
    ensures AtCenter(k.pos, k.target) ==>
      r.gx == TruncDiv(k.pos.x, TILE_SIZE) && r.gy == TruncDiv(k.pos.y, TILE_SIZE)
    ensures AtCenter(k.pos, k.target) && board.Some? ==>
      (r.dir == Zero || r.dir == k.dir)
      && (r.dir != Zero ==> Open(board.value.isWall, r.gx, r.gy, r.dir)
                            && r.target == CenterOf(r.gx + DX(r.dir), r.gy + DY(r.dir)))
      && (r.dir == Zero ==> r.target == CenterOf(r.gx, r.gy))
    ensures AtCenter(k.pos, k.target) && board.Some? && k.dir != Zero
            && Open(board.value.isWall, r.gx, r.gy, k.dir) ==>
      r.dir == k.dir && r.target == CenterOf(r.gx + DX(k.dir), r.gy + DY(k.dir))
    ensures AtCenter(k.pos, k.target) && board.None? ==>
      r.dir == k.dir && r.target == CenterOf(r.gx, r.gy)
  {
    if !AtCenter(k.pos, k.target) then k
    else
      var gx := TruncDiv(k.pos.x, TILE_SIZE);
      var gy := TruncDiv(k.pos.y, TILE_SIZE);
      var tx := gx + DX(k.dir);
      var ty := gy + DY(k.dir);
      var blocked := board.Some? && board.value.isWall(tx, ty);
      var open := board.Some? && !board.value.isWall(tx, ty);
      k.(gx := gx, gy := gy, dir := if blocked then Zero else k.dir,
         target := if open then CenterOf(tx, ty) else CenterOf(gx, gy))
  }

  /** The step towards the target, abstracted: `arrived` says whether the
      step reaches the target; a ghost already there stays there. */
  function Move(k: Kin, arrived: bool): Kin {
    k.(pos := if arrived || AtCenter(k.pos, k.target) then k.target else k.pos)
  }

  /** Ghost::Update: the machine ticks first, then the grid re-derivation,
      then the step; `touching` stands for the radius test against Pac-Man. */
  function UpdateG(g: GhostVal, board: Option<BoardView>, pacGX: int, pacGY: int, pick: nat,
                   arrived: bool, touching: bool): (r: (GhostVal, bool))
    ensures r.1 <==> GetStateG(r.0) != Eaten && board.Some? && touching
    ensures r.0.t == g.t && r.0.fsm == TickG(g, board, pacGX, pacGY, pick).fsm
    ensures r.0.k == Move(Regrid(TickG(g, board, pacGX, pacGY, pick).k, board), arrived)
    ensures !AtCenter(g.k.pos, g.k.target) ==>
      r.0.k.dir == g.k.dir && r.0.k.target == g.k.target && r.0.k.gx == g.k.gx && r.0.k.gy == g.k.gy
    ensures Ready(g) ==> Ready(r.0)
  {
    var g1 := TickG(g, board, pacGX, pacGY, pick);
    var g2 := g1.(k := Move(Regrid(g1.k, board), arrived));
    (g2, GetStateG(g2) != Eaten && board.Some? && touching)
  }

  /** Ghost::Update, recognised from its three stages. */
  lemma UpdateGIs(g: GhostVal, board: Option<BoardView>, pacGX: int, pacGY: int, pick: nat,
                  arrived: bool, touching: bool, g1: GhostVal, k: Kin, collided: bool)
    requires g1 == TickG(g, board, pacGX, pacGY, pick)
    requires k == Move(Regrid(g1.k, board), arrived)
    requires collided == (GetStateG(g1) != Eaten && board.Some? && touching)
    ensures UpdateG(g, board, pacGX, pacGY, pick, arrived, touching) == (g1.(k := k), collided)
  {
  }

  // ---------- Invariants over whole operations ----------

  /** Pixel point that is the centre of some grid cell. */
  predicate IsCentre(p: Point) {
    p.x % TILE_SIZE == TILE_SIZE / 2 && p.y % TILE_SIZE == TILE_SIZE / 2
  }

  lemma CentreIsCentre(gx: int, gy: int)
    ensures IsCentre(CenterOf(gx, gy))
  {
    assert CenterOf(gx, gy).x == 16 * gx + 8;
    assert CenterOf(gx, gy).y == 16 * gy + 8;
  }

  /** Position and target are tile centres. */
  predicate Centred(k: Kin) {
    IsCentre(k.pos) && IsCentre(k.target)
  }

  lemma {:induction false} SetStateKeepsCentred(g: GhostVal, s: GhostState)
    requires Centred(g.k)
    ensures Centred(SetStateG(g, s).k)
  {
    CentreIsCentre(g.k.gx, g.k.gy);
  }

  lemma {:induction false} SteerKeepsCentred(k: Kin, b: BoardView, tx: int, ty: int)
    requires Centred(k)
    ensures Centred(Steer(k, b, tx, ty))
  {
    var r := Steer(k, b, tx, ty);
    CentreIsCentre(k.gx, k.gy);
    CentreIsCentre(k.gx + DX(r.dir), k.gy + DY(r.dir));
  }

  lemma {:induction false} OnUpdateKeepsCentred(s: GhostState, g: GhostVal, board: Option<BoardView>,
                                              pacGX: int, pacGY: int, pick: nat)
    requires Centred(g.k)
    ensures Centred(OnUpdateG(s, g, board, pacGX, pacGY, pick).k)
  {
    if s != Idle && board.Some? && AtCenter(g.k.pos, g.k.target) {
      var b := board.value;
      match s
      case Frightened =>
        var r := OnUpdateG(s, g, board, pacGX, pacGY, pick);
        CentreIsCentre(g.k.gx + DX(r.k.dir), g.k.gy + DY(r.k.dir));
      case Eaten =>
        SteerKeepsCentred(g.k, b, g.t.spawnGX, g.t.spawnGY);
        SetStateKeepsCentred(g.(k := Steer(g.k, b, g.t.spawnGX, g.t.spawnGY)), Scatter);
      case _ =>
        var goal := GoalOf(s, g, b, pacGX, pacGY);
        SteerKeepsCentred(g.k, b, goal.x, goal.y);
    }
  }

  lemma {:induction false} RegridKeepsCentred(k: Kin, board: Option<BoardView>)
    requires Centred(k)
    ensures Centred(Regrid(k, board))
  {
    var r := Regrid(k, board);
    CentreIsCentre(r.gx, r.gy);
    CentreIsCentre(r.gx + DX(r.dir), r.gy + DY(r.dir));
  }

  /** A ghost's position and target stay tile centres through every update. */
  lemma {:induction false} UpdateKeepsCentred(g: GhostVal, board: Option<BoardView>, pacGX: int, pacGY: int,
                                            pick: nat, arrived: bool, touching: bool)
    requires Centred(g.k)
    ensures Centred(UpdateG(g, board, pacGX, pacGY, pick, arrived, touching).0.k)
  {
    if g.fsm.Some? && g.fsm.value.active {
      OnUpdateKeepsCentred(g.fsm.value.cur, g, board, pacGX, pacGY, pick);
    }
    RegridKeepsCentred(TickG(g, board, pacGX, pacGY, pick).k, board);
  }

  /** Once the position is the centre of a cell with non-negative
      coordinates, re-deriving the grid cell from it recovers that cell. */
  lemma RegridFindsCell(k: Kin, board: Option<BoardView>, gx: int, gy: int)
    requires gx >= 0 && gy >= 0
    requires AtCenter(k.pos, k.target) && k.pos == CenterOf(gx, gy)
    ensures Regrid(k, board).gx == gx && Regrid(k, board).gy == gy
  {
    CenterOfRoundTrip(gx, gy);
  }
}
