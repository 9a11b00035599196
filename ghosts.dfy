/** The ghost agent and its state machine as objects updated in place. The
    state objects of the game are represented by their ids: the machine
    dispatches each lifecycle hook to the Ghost method for the current id,
    and every method is proved to change the fields exactly as the matching
    function of module GhostModel says. */
module Ghosts {
  import opened Config
  import opened Directions
  import opened GhostModel

  class GhostStateMachine {
    const owner: Ghost
    var registered: set<GhostState>
    var cur: GhostState
    var active: bool

    function Val(): Fsm
      reads this
    {
      Fsm(registered, cur, active)
    }

    /** Starts in Idle with no current-state pointer and nothing registered. */
    constructor (owner: Ghost)
      ensures this.owner == owner
      ensures Val() == Fsm({}, Idle, false)
    {
      this.owner := owner;
      registered := {};
      cur := Idle;
      active := false;
    }

    /** Registers the concrete state of `id`; registering an id twice is a
        programming error of the caller. */
    method AddState(id: GhostState)
      requires id !in registered
      modifies this
      ensures Val() == old(Val()).(registered := old(registered) + {id})
    {
      registered := registered + {id};
    }

    /** Guarded transition: blocked Eaten -> Frightened, skipped when
        redundant, otherwise the old state's OnExit, the switch, and the new
        state's OnEnter. */
    method SetState(newState: GhostState)
      modifies this, owner
      ensures (Val(), owner.Kinematics()) ==
        FsmSetState(old(Val()), owner.Identity(), old(owner.Kinematics()), newState)
      ensures owner.Identity() == old(owner.Identity()) && owner.fsm == old(owner.fsm)
    {
      if active && cur == Eaten && newState == Frightened {
        return;
      }
      if active && newState == cur {
        return;
      }
      if active {
        owner.OnExit(cur);
      }
      cur := newState;
      active := newState in registered;
      if active {
        owner.OnEnter(newState);
      }
    }

    /** Runs the current state's OnUpdate; nothing when no state is active. */
    method Update(board: Option<BoardView>, pacGX: int, pacGY: int, pick: nat)
      requires owner.fsm == this
      modifies this, owner
      ensures owner.fsm == this
      ensures owner.Val() == TickG(old(owner.Val()), board, pacGX, pacGY, pick)
    {
      if active {
        owner.OnUpdate(cur, board, pacGX, pacGY, pick);
      }
    }

    method GetCurrentState() returns (s: GhostState)
      ensures s == cur
    {
      s := cur;
    }

    /** The active state's name, or "None" when no state is active. */
    method GetCurrentStateName() returns (name: string)
      ensures active ==> name == StateName(cur)
      ensures name == "None" <==> !active
    {
      name := if active then StateName(cur) else "None";
    }
  }

  class Ghost {
    var kind: GhostType
    var gx: int
    var gy: int
    var spawnGX: int
    var spawnGY: int
    var pos: Point
    var target: Point
    var dir: Dir
    var speed: real
    var baseSpeed: real
    var colour: Colour
    var baseColour: Colour
    var fsm: GhostStateMachine?

    function Identity(): Traits
      reads this
    {
      Traits(kind, spawnGX, spawnGY, baseSpeed, baseColour)
    }

    function Kinematics(): Kin
      reads this
    {
      Kin(gx, gy, pos, target, dir, speed, colour)
    }

    function Val(): GhostVal
      reads this, fsm
    {
      GhostVal(if fsm == null then None else Some(fsm.Val()), Identity(), Kinematics())
    }

    /** The machine, when there is one, belongs to this ghost. */
    ghost predicate Valid()
      reads this, fsm
    {
      fsm != null ==> fsm.owner == this
    }

    /** A ghost before Init: field defaults and no state machine. */
    constructor ()
      ensures Valid() && fsm == null
      ensures Identity() == Traits(Blinky, 0, 0, BASE_GHOST_SPEED, Red)
      ensures Kinematics() == Kin(0, 0, Point(0, 0), Point(0, 0), Zero, BASE_GHOST_SPEED, Red)
    {
      kind := Blinky;
      gx, gy, spawnGX, spawnGY := 0, 0, 0, 0;
      pos, target, dir := Point(0, 0), Point(0, 0), Zero;
      speed, baseSpeed := BASE_GHOST_SPEED, BASE_GHOST_SPEED;
      colour, baseColour := Red, Red;
      fsm := null;
    }

    // ----- State hooks (the concrete states' OnEnter / OnExit / OnUpdate) -----

    method OnEnter(s: GhostState)
      modifies this
      ensures Kinematics() == EnterEffect(s, Identity(), old(Kinematics()))
      ensures Identity() == old(Identity()) && fsm == old(fsm)
    {
      match s
      case Idle =>
        dir := Zero;
        target := CenterOf(gx, gy);
        speed := 0.0;
      case Scatter =>
        colour := baseColour;
        speed := baseSpeed;
      case Chase =>
        colour := baseColour;
        speed := baseSpeed;
      case Frightened =>
        colour := Blue;
        speed := baseSpeed * FRIGHTENED_SPEED_MULT;
        dir := OppositeDir(dir);
      case Eaten =>
        colour := White;
        speed := baseSpeed * EATEN_SPEED_MULT;
    }

    method OnExit(s: GhostState)
      modifies this
      ensures Kinematics() == ExitEffect(s, Identity(), old(Kinematics()))
      ensures Identity() == old(Identity()) && fsm == old(fsm)
    {
      match s
      case Idle =>
        speed := baseSpeed;
      case Frightened =>
        colour := baseColour;
        speed := baseSpeed;
      case _ =>
    }

    /** The shared tail of Scatter, Chase and Eaten: choose among the legal
        moves and aim at the next cell. */
    method SteerTowards(board: BoardView, tx: int, ty: int)
      modifies this
      ensures Kinematics() == Steer(old(Kinematics()), board, tx, ty)
      ensures Identity() == old(Identity()) && fsm == old(fsm)
    {
      var k0 := Kinematics();
      var legal := GetLegalDirs(board.isWall, gx, gy, dir);
      var d := ChooseBestDir(gx, gy, tx, ty, legal, 0);
      var t := NextTarget(board.isWall, gx, gy, d);
      dir, target := d, t;
      assert Kinematics() == k0.(dir := d, target := t);
    }

    /** ScatterState::OnUpdate: head for this ghost's corner. */
    method ScatterUpdate(board: Option<BoardView>, pacGX: int, pacGY: int, pick: nat)
      modifies this
      ensures Identity() == old(Identity()) && fsm == old(fsm)
      ensures Val() == OnUpdateG(Scatter, old(Val()), board, pacGX, pacGY, pick)
    {
      if board.None? || !AtCenter(pos, target) {
        return;
      }
      var corner := board.value.scatterTarget(kind);
      SteerTowards(board.value, corner.x, corner.y);
    }

    /** ChaseState::OnUpdate: head for the species' chase target. */
    method ChaseUpdate(board: Option<BoardView>, pacGX: int, pacGY: int, pick: nat)
      modifies this
      ensures Identity() == old(Identity()) && fsm == old(fsm)
      ensures Val() == OnUpdateG(Chase, old(Val()), board, pacGX, pacGY, pick)
    {
      if board.None? || !AtCenter(pos, target) {
        return;
      }
      var goal := ChaseTarget(kind, gx, gy, board.value, pacGX, pacGY);
      SteerTowards(board.value, goal.x, goal.y);
    }

    /** FrightenedState::OnUpdate: a random legal move (`pick` plays the generator). */
    method FrightenedUpdate(board: Option<BoardView>, pacGX: int, pacGY: int, pick: nat)
      modifies this
      ensures Identity() == old(Identity()) && fsm == old(fsm)
      ensures Val() == OnUpdateG(Frightened, old(Val()), board, pacGX, pacGY, pick)
    {
      if board.None? || !AtCenter(pos, target) {
        return;
      }
      var b := board.value;
      var legal := GetLegalDirs(b.isWall, gx, gy, dir);
      if legal == [] {
        return;
      }
      dir := legal[pick % |legal|];
      target := NextTarget(b.isWall, gx, gy, dir);
    }

    /** EatenState::OnUpdate: head for the spawn cell and, once there, scatter. */
    method EatenUpdate(board: Option<BoardView>, pacGX: int, pacGY: int, pick: nat)
      requires Valid()
      modifies this, fsm
      ensures Valid() && fsm == old(fsm)
      ensures Val() == OnUpdateG(Eaten, old(Val()), board, pacGX, pacGY, pick)
    {
      if board.None? || !AtCenter(pos, target) {
        return;
      }
      SteerTowards(board.value, spawnGX, spawnGY);
      var curGX := TruncDiv(pos.x, TILE_SIZE);
      var curGY := TruncDiv(pos.y, TILE_SIZE);
      if curGX == spawnGX && curGY == spawnGY {
        SetState(Scatter);
      }
    }

    /** The current state's OnUpdate; Idle has no automatic transition. */
    method OnUpdate(s: GhostState, board: Option<BoardView>, pacGX: int, pacGY: int, pick: nat)
      requires Valid()
      modifies this, fsm
      ensures Valid() && fsm == old(fsm)
      ensures Val() == OnUpdateG(s, old(Val()), board, pacGX, pacGY, pick)
    {
      match s
      case Idle =>
      case Scatter => ScatterUpdate(board, pacGX, pacGY, pick);
      case Chase => ChaseUpdate(board, pacGX, pacGY, pick);
      case Frightened => FrightenedUpdate(board, pacGX, pacGY, pick);
      case Eaten => EatenUpdate(board, pacGX, pacGY, pick);
    }

    // ----- State machine plumbing -----

    method InitStateMachine()
      modifies this
      ensures fresh(fsm) && Valid()
      ensures Identity() == old(Identity())
      ensures Val() == SetStateG(GhostVal(Some(Fsm(AllStates, Idle, false)), old(Identity()), old(Kinematics())), Idle)
    {
      var m := new GhostStateMachine(this);
      m.AddState(Idle);
      m.AddState(Scatter);
      m.AddState(Chase);
      m.AddState(Frightened);
      m.AddState(Eaten);
      assert m.Val() == Fsm(AllStates, Idle, false);
      fsm := m;
      m.SetState(Idle);
    }

    method SetState(newState: GhostState)
      requires Valid()
      modifies this, fsm
      ensures Valid() && fsm == old(fsm)
      ensures Val() == SetStateG(old(Val()), newState)
    {
      if fsm != null {
        fsm.SetState(newState);
      }
    }

    function GetState(): (s: GhostState)
      reads this, fsm
      ensures s == GetStateG(Val())
    {
      if fsm != null then fsm.cur else Idle
    }

    // ----- Lifecycle and event API -----

    method Init(t: GhostType, startGX: int, startGY: int, col: Colour)
      modifies this
      ensures fresh(fsm) && Valid()
      ensures Val() == InitG(t, startGX, startGY, col)
    {
      kind := t;
      gx, spawnGX := startGX, startGX;
      gy, spawnGY := startGY, startGY;
      pos := CenterOf(gx, gy);
      target := pos;
      dir := Zero;
      colour := col;
      baseColour := col;
      baseSpeed := BASE_GHOST_SPEED;
      speed := baseSpeed;
      InitGIs(t, startGX, startGY, col, Identity(), Kinematics());
      InitStateMachine();
    }

    method EnterFrightened()
      requires Valid()
      modifies this, fsm
      ensures Valid() && fsm == old(fsm)
      ensures Val() == EnterFrightenedG(old(Val()))
    {
      if GetState() == Eaten {
        return;
      }
      SetState(Frightened);
    }

    method ExitFrightened(board: Option<BoardView>)
      requires Valid()
      modifies this, fsm
      ensures Valid() && fsm == old(fsm)
      ensures Val() == ExitFrightenedG(old(Val()), board)
    {
      if GetState() != Frightened {
        return;
      }
      SetState(if board.Some? && board.value.mode == ScatterMode then Scatter else Chase);
    }

    method SetEaten()
      requires Valid()
      modifies this, fsm
      ensures Valid() && fsm == old(fsm)
      ensures Val() == SetEatenG(old(Val()))
    {
      SetState(Eaten);
    }

    method OnGlobalModeChange(newMode: GlobalMode)
      requires Valid()
      modifies this, fsm
      ensures Valid() && fsm == old(fsm)
      ensures Val() == OnGlobalModeChangeG(old(Val()), newMode)
    {
      if GetState() == Eaten || GetState() == Frightened || GetState() == Idle {
        return;
      }
      if newMode == ScatterMode {
        SetState(Scatter);
      } else {
        SetState(Chase);
      }
    }

    /** Dereferences the machine unconditionally, so it needs one. */
    method ResetToSpawn()
      requires Valid() && fsm != null
      modifies this, fsm
      ensures Valid() && fsm == old(fsm)
      ensures Val() == ResetToSpawnG(old(Val()))
    {
      gx, gy := spawnGX, spawnGY;
      pos := CenterOf(gx, gy);
      target := pos;
      dir := Zero;
      colour := baseColour;
      speed := baseSpeed;
      ResetToSpawnGIs(old(Val()), Val());
      SetState(Idle);
    }

    /** At a tile centre: re-derive the cell from the position and aim along
        the committed direction, dropping it when it leads into a wall. */
    method RegridAtCentre(board: Option<BoardView>)
      modifies this
      ensures Kinematics() == Regrid(old(Kinematics()), board)
      ensures Identity() == old(Identity()) && fsm == old(fsm)
    {
      if AtCenter(pos, target) {
        gx := TruncDiv(pos.x, TILE_SIZE);
        gy := TruncDiv(pos.y, TILE_SIZE);
        var tx, ty := gx + DX(dir), gy + DY(dir);
        if board.Some? && board.value.isWall(tx, ty) {
          dir := Zero;
        }
        target := if board.Some? && !board.value.isWall(tx, ty) then CenterOf(tx, ty) else CenterOf(gx, gy);
      }
    }

    /** One frame: tick the machine, then the grid re-derivation at a tile
        centre, then the step (`arrived`: the step reaches the target), then
        the collision test (`touching`: within the collision radius of Pac-Man). */
    method Update(board: Option<BoardView>, pacGX: int, pacGY: int, pick: nat, arrived: bool, touching: bool)
      returns (collided: bool)
      requires Valid()
      modifies this, fsm
      ensures Valid() && fsm == old(fsm)
      ensures (Val(), collided) == UpdateG(old(Val()), board, pacGX, pacGY, pick, arrived, touching)
    {
      ghost var g0 := Val();
      if fsm != null {
        fsm.Update(board, pacGX, pacGY, pick);
      }
      ghost var g1 := Val();
      RegridAtCentre(board);
      if arrived || AtCenter(pos, target) {
        pos := target;
      }
      collided := GetState() != Eaten && board.Some? && touching;
      UpdateGIs(g0, board, pacGX, pacGY, pick, arrived, touching, g1, Kinematics(), collided);
    }
  }
}
