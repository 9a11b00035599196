# Ghost AI of a grid Pac-Man clone, in Dafny

This project models the ghost AI of a small Pac-Man game and the grid logic
that AI relies on. The game runs on a 28 × 31 tile grid.

- **Ghost states.** Each of the four ghosts (Blinky, Inky, Pinky, Clyde) is
  driven by a state machine with five states: Idle, Scatter, Chase, Frightened
  and Eaten. Each state has enter, exit and update hooks.
- **Ghost moves.** At every tile centre a ghost commits to a move. It picks the
  legal direction whose next cell is closest, by Manhattan distance, to a
  target tile that depends on its state and species. A reversal is allowed only
  at a dead end.
- **Board.** The board holds the maze, the power-up timer and the four ghosts.
- **Player.** Pac-Man eats pellets and power-ups at tile centres. He adopts
  the buffered direction when its neighbour is open, and stops at walls.

The project has five modules, one per part of the program:

- `Config` (`utils.dfy`): the grid and display constants, tile-centre
  geometry (`CenterOf`, `AtCenter`), `InBounds`, and C++ truncating division.
- `Directions` (`directions.dfy`):
  - the four moves and their scan order;
  - `OppositeDir`, the Manhattan distance and the tie-break priority;
  - the legal-direction scan (`GetLegalDirs`) and the best-direction choice
    (`ChooseBestDir`), both as loops proved against the functions
    `LegalDirs` and `BestDir`.
- `GhostModel` (`ghost_model.dfy`): a ghost as a value: state machine,
  traits and moving parts. It holds pure definitions of:
  - every state hook;
  - the guarded transition;
  - the event API;
  - spawning;
  - the per-frame update.

  The game-rule properties are proved here.
- `Ghosts` (`ghosts.dfy`): the classes `GhostStateMachine` and `Ghost`. They
  hold the same fields as the game's objects, which their methods update in
  place. Each method is proved to leave exactly the state the matching
  `GhostModel` function computes. The concrete state objects are represented
  by their ids. The machine dispatches each hook to the `Ghost` method for the
  current id.
- `Arcade` (`game.dfy`):
  - the `Game` class, whose maze is a two-dimensional array written in place;
  - the `Pacman` class;
  - the value-level functions that specify them (mazes as sequences of rows,
    the pellet scan, power-up placement, eating, turning).

Three things the program takes from outside become parameters:

- **`pick: nat`** stands for a random draw. It selects the item at index
  `pick % n`. This covers `std::rand` in power-up placement, and the
  `mt19937` draws in the frightened walk and in the random tie-break.
- **`arrived: bool`** says whether this frame's floating-point step reaches
  the target.
- **`touching: bool`** says whether a ghost lies within collision range of
  Pac-Man.

The board a ghost sees (`IGameBoard`) is a `BoardView`. It holds:

- a total wall query;
- the scatter corners;
- Pac-Man's direction;
- the ghosts' cells;
- the global mode.

A null board is `None`. Positions are integer pixel points, and the grid
logic only ever compares tile centres.

## Model

| member | source | states |
|---|---|---|
| Config.TruncDiv | HelloWorld/Ghost.cpp:105-106 | rounds toward zero as C++ `int / int` does: q·b lies at or below a non-negative a by less than b, and at or above a negative a by less than b |
| Config.CenterOf | HelloWorld/Utils.h:21-25 | the centre of cell (gx, gy) lies half a tile (8 pixels) right of and below the cell's top-left pixel |
| Config.AtCenter | HelloWorld/Utils.h:27-31 | on integer points, "within 0.01 on both axes" holds exactly when the two points are equal |
| Config.AtCenterReflexiveSymmetric | HelloWorld/Utils.h:27-31 | "at centre" is reflexive and symmetric |
| Config.CentreRoundTrip | HelloWorld/Utils.h:21-25 | truncating division of a centre coordinate by TILE_SIZE gives the cell coordinate back exactly when that coordinate is non-negative |
| Config.CenterOfRoundTrip | HelloWorld/Utils.h:21-25 | for gx, gy ≥ 0, re-deriving the cell from CenterOf(gx, gy) recovers (gx, gy), which makes the re-gridding at tile centres exact |
| Config.CenterOfInjective | HelloWorld/Utils.h:21-25 | two cells have the same centre only if they are the same cell |
| Config.CentresOnDisplay | HelloWorld/Game.cpp:19-22 | `InBounds` holds for a cell exactly when its centre lies on the DISPLAY_W × DISPLAY_H display of `Utils.h` |
| Directions.OppositeDir | HelloWorld/FSM/GhostStates.cpp:29-30 | the result is the step vector negated; it is the zero step only for the zero step |
| Directions.DistI | HelloWorld/FSM/GhostStates.cpp:32-33 | the Manhattan distance is non-negative, zero exactly for equal cells, and at least each coordinate difference |
| Directions.Priority | HelloWorld/FSM/GhostStates.cpp:60-65 | ranks lie in 0..3; rank 3 is shared by exactly right and the zero step |
| Directions.DirIndex | HelloWorld/FSM/GhostStates.cpp:21-27 | the position of a move in the scan order up, right, down, left; the zero step comes after all four |
| Directions.KeepFirstSpec | HelloWorld/FSM/GhostStates.cpp:40-45 | after n steps of the first scan, the list holds exactly the open moves among the first n, other than the reverse, each once |
| Directions.LegalDirsOpen | HelloWorld/FSM/GhostStates.cpp:40-50 | every legal move is a unit step into a non-wall neighbour, and no move is listed twice |
| Directions.LegalDirsNoReversal | HelloWorld/FSM/GhostStates.cpp:38-45 | if some open neighbour is not the reverse of the current direction, the legal moves are exactly the open non-reversing ones |
| Directions.LegalDirsDeadEnd | HelloWorld/FSM/GhostStates.cpp:46-51 | if the reverse is the only open move (or nothing is open), the legal moves are exactly the open ones, the reverse included |
| Directions.LegalDirsEmpty | HelloWorld/FSM/GhostStates.cpp:35-53 | there is no legal move exactly when all four neighbours are walls |
| Directions.GetLegalDirs | HelloWorld/FSM/GhostStates.cpp:36-53 | the two scans (the second only when the first kept nothing) produce the legal-direction list |
| Directions.SameRankSameDir | HelloWorld/FSM/GhostStates.cpp:60-65 | two moves with the same distance score and the same priority are the same move |
| Directions.BestUnique | HelloWorld/FSM/GhostStates.cpp:71-96 | any two best candidates are equal, so ties never reach the random branch with two different moves |
| Directions.BestDir | HelloWorld/FSM/GhostStates.cpp:56-97 | no candidates give the zero step; otherwise the result is a candidate that no other candidate beats on distance, nor on priority at equal distance |
| Directions.ChooseBestDir | HelloWorld/FSM/GhostStates.cpp:56-97 | the zero step for no candidates, otherwise the best candidate, whatever the random draw |
| GhostModel.StateName | HelloWorld/Ghost.cpp:8-18 | every state's name differs from "None" and "Unknown" |
| GhostModel.StateNamesDistinct | HelloWorld/Ghost.cpp:8-18 | two states share a name only if they are the same state |
| GhostModel.EnterEffect | HelloWorld/FSM/GhostStates.cpp:108-227 | no enter hook moves the ghost or its cell. Idle stops it on its own centre with speed 0. Scatter and Chase restore base colour and speed. Frightened turns it blue, scales its speed by FRIGHTENED_SPEED_MULT and reverses it. Eaten turns it white and scales its speed by EATEN_SPEED_MULT. With the positive multipliers of this model, every state but Idle leaves a positive base speed positive |
| GhostModel.ExitEffect | HelloWorld/FSM/GhostStates.cpp:113-203 | only speed and colour can change. Leaving Idle or Frightened restores base speed, leaving Frightened also base colour, and leaving any other state changes nothing |
| GhostModel.FrightenedEnterExit | HelloWorld/FSM/GhostStates.cpp:195-203 | entering then leaving Frightened restores base colour and speed and reverses the direction; it leaves position, target and cell alone; leaving Idle restores base speed |
| GhostModel.FsmSetState | HelloWorld/FSM/GhostStateMachine.cpp:19-39 | with an active state, Eaten → Frightened and a request for the current state change nothing. Otherwise: the current id becomes the request; the pointer is set iff the id is registered; the old state's exit runs before the new state's enter. An unregistered request runs only the old state's exit and leaves the pointer unset. The registry never changes and the pointer invariant is kept |
| GhostModel.GetStateG | HelloWorld/Ghost.cpp:56-60 | the machine's current id, and Idle when the ghost has no machine |
| GhostModel.SetStateG | HelloWorld/Ghost.cpp:51-54 | without a machine nothing changes; otherwise the state becomes the request unless the transition is blocked; traits never change |
| GhostModel.EnterFrightenedG | HelloWorld/Ghost.cpp:63-67 | an Eaten ghost is unchanged; any other ghost with a machine ends Frightened |
| GhostModel.ExitFrightenedG | HelloWorld/Ghost.cpp:69-73 | no change unless Frightened; then Scatter when a board is given in Scatter mode, Chase otherwise (a null board included) |
| GhostModel.SetEatenG | HelloWorld/Ghost.cpp:75-78 | a ghost with a machine is Eaten afterwards |
| GhostModel.OnGlobalModeChangeG | HelloWorld/Ghost.cpp:80-85 | Eaten, Frightened and Idle ghosts are unchanged; a Scatter or Chase ghost takes the state of the new mode |
| GhostModel.ResetToSpawnG | HelloWorld/Ghost.cpp:87-95 | the ghost is back on its spawn cell: position and target at the spawn centre, no direction, base colour, Idle. Its speed is 0, unless Idle was already the active state, in which case it keeps base speed |
| GhostModel.InitG | HelloWorld/Ghost.cpp:22-49 | after Init the traits are the given ones; the ghost stands still on its start cell at the centre with its colour; all five states are registered and Idle is active; speed is 0, because Idle's enter runs last |
| GhostModel.NextTarget | HelloWorld/FSM/GhostStates.cpp:135-136 | the centre of the neighbour along the move when it is open, otherwise the current cell's centre |
| GhostModel.Steer | HelloWorld/FSM/GhostStates.cpp:130-136 | only direction and target change. The direction is the zero step iff every neighbour is a wall; otherwise it is a best legal move, open, and not a reversal when another way is open. The target is the next cell's centre, or the current centre when stopped |
| GhostModel.ChaseTarget | HelloWorld/FSM/GhostStates.cpp:156-180 | Blinky aims at Pac-Man's cell; Pinky 4 cells ahead of him; Inky at the reflection of Blinky's cell through the cell 2 ahead; Clyde at Pac-Man when farther than the switch distance, else at his corner |
| GhostModel.OnUpdateG | HelloWorld/FSM/GhostStates.cpp:114-243 | Idle, a null board and an off-centre ghost change nothing. Scatter and Chase steer to their goals. Frightened takes a legal move and aims at its open neighbour. Eaten steers towards its spawn cell, then turns to Scatter exactly when its position, truncated to a cell, is the spawn cell. Traits never change |
| GhostModel.TickG | HelloWorld/FSM/GhostStateMachine.cpp:41-44 | a ghost without an active state is unchanged; traits are kept and a ready machine stays ready |
| GhostModel.Regrid | HelloWorld/Ghost.cpp:103-111 | off-centre nothing changes. At a centre the cell is re-derived from the position. The direction is kept or dropped, dropped only at a wall. An open committed direction is always kept. A kept direction is open and the target is its neighbour's centre; otherwise the target is the current centre |
| GhostModel.UpdateG | HelloWorld/Ghost.cpp:97-138 | the machine ticks before the re-gridding and the step; off-centre, the grid fields are unchanged; a collision is reported exactly when the ghost is not Eaten after the tick, a board is present and it touches Pac-Man (`touching`) |
| GhostModel.CentreIsCentre | HelloWorld/Utils.h:21-25 | CenterOf always yields a tile-centre point |
| GhostModel.SetStateKeepsCentred | HelloWorld/FSM/GhostStates.cpp:108-112 | state changes keep position and target on tile centres |
| GhostModel.SteerKeepsCentred | HelloWorld/FSM/GhostStates.cpp:133-136 | steering keeps position and target on tile centres |
| GhostModel.OnUpdateKeepsCentred | HelloWorld/FSM/GhostStates.cpp:127-243 | every state's update keeps position and target on tile centres |
| GhostModel.RegridKeepsCentred | HelloWorld/Ghost.cpp:103-111 | re-gridding keeps position and target on tile centres |
| GhostModel.UpdateKeepsCentred | HelloWorld/Ghost.cpp:97-122 | a whole ghost frame keeps position and target on tile centres |
| GhostModel.RegridFindsCell | HelloWorld/Ghost.cpp:103-106 | at the centre of a non-negative cell, the re-derived cell is that cell |
| Ghosts.GhostStateMachine.constructor | HelloWorld/FSM/GhostStateMachine.cpp:6-10 | a new machine belongs to its owner, has current id Idle, no pointer and nothing registered |
| Ghosts.GhostStateMachine.AddState | HelloWorld/FSM/GhostStateMachine.cpp:12-17 | registers one id that was not yet registered; nothing else changes |
| Ghosts.GhostStateMachine.SetState | HelloWorld/FSM/GhostStateMachine.cpp:19-39 | machine and owner end as FsmSetState says; the owner's traits and machine link are untouched |
| Ghosts.GhostStateMachine.Update | HelloWorld/FSM/GhostStateMachine.cpp:41-44 | the owner ends as TickG says |
| Ghosts.GhostStateMachine.GetCurrentState | HelloWorld/FSM/GhostStateMachine.cpp:46 | returns the current id |
| Ghosts.GhostStateMachine.GetCurrentStateName | HelloWorld/FSM/GhostStateMachine.cpp:48-51 | the active state's name, and "None" exactly when no state is active |
| Ghosts.Ghost.constructor | HelloWorld/Ghost.h:53-67 | field defaults: Blinky at (0, 0), base speed, red, no direction, no machine |
| Ghosts.Ghost.OnEnter | HelloWorld/FSM/GhostStates.cpp:108-227 | the moving parts change as the entered state's enter hook says; traits and machine link are kept |
| Ghosts.Ghost.OnExit | HelloWorld/FSM/GhostStates.cpp:113-203 | the moving parts change as the left state's exit hook says; traits and machine link are kept |
| Ghosts.Ghost.SteerTowards | HelloWorld/FSM/GhostStates.cpp:133-136 | legal moves, best choice and next target: the moving parts end as Steer says |
| Ghosts.Ghost.ScatterUpdate | HelloWorld/FSM/GhostStates.cpp:127-137 | the ghost ends as OnUpdateG(Scatter) says |
| Ghosts.Ghost.ChaseUpdate | HelloWorld/FSM/GhostStates.cpp:150-186 | the ghost ends as OnUpdateG(Chase) says |
| Ghosts.Ghost.FrightenedUpdate | HelloWorld/FSM/GhostStates.cpp:204-215 | the ghost ends as OnUpdateG(Frightened) says |
| Ghosts.Ghost.EatenUpdate | HelloWorld/FSM/GhostStates.cpp:228-243 | the ghost ends as OnUpdateG(Eaten) says, including the switch to Scatter through its own machine |
| Ghosts.Ghost.OnUpdate | HelloWorld/FSM/GhostStates.cpp:114-243 | dispatch to the current state's update: the ghost ends as OnUpdateG says |
| Ghosts.Ghost.InitStateMachine | HelloWorld/Ghost.cpp:37-49 | a fresh machine owned by the ghost, all five states registered, then SetState(Idle) |
| Ghosts.Ghost.SetState | HelloWorld/Ghost.cpp:51-54 | the ghost ends as SetStateG says |
| Ghosts.Ghost.GetState | HelloWorld/Ghost.cpp:56-60 | the machine's current id, or Idle without a machine |
| Ghosts.Ghost.Init | HelloWorld/Ghost.cpp:22-35 | the ghost ends as InitG says, with a fresh machine it owns |
| Ghosts.Ghost.EnterFrightened | HelloWorld/Ghost.cpp:63-67 | the ghost ends as EnterFrightenedG says |
| Ghosts.Ghost.ExitFrightened | HelloWorld/Ghost.cpp:69-73 | the ghost ends as ExitFrightenedG says |
| Ghosts.Ghost.SetEaten | HelloWorld/Ghost.cpp:75-78 | the ghost ends as SetEatenG says |
| Ghosts.Ghost.OnGlobalModeChange | HelloWorld/Ghost.cpp:80-85 | the ghost ends as OnGlobalModeChangeG says |
| Ghosts.Ghost.ResetToSpawn | HelloWorld/Ghost.cpp:87-95 | needs a machine (it is dereferenced unconditionally); the ghost ends as ResetToSpawnG says |
| Ghosts.Ghost.RegridAtCentre | HelloWorld/Ghost.cpp:103-111 | the moving parts end as Regrid says |
| Ghosts.Ghost.Update | HelloWorld/Ghost.cpp:97-138 | the ghost and the collision flag end as UpdateG says |
| Arcade.WallAt | HelloWorld/Game.cpp:24-32 | every off-grid cell is a wall; on the grid, a cell is a wall iff its tile is a wall |
| Arcade.Arena | HelloWorld/Game.cpp:34-44 | border cells are walls and interior cells are pellets |
| Arcade.ArenaWalls | HelloWorld/Game.cpp:24-44 | in the built arena, the wall query holds exactly off the grid and on its border |
| Arcade.PelletsBeforeMembers | HelloWorld/Game.cpp:50-59 | part-way through the row-major scan, the list holds exactly the pellet cells already passed |
| Arcade.CandidatesArePellets | HelloWorld/Game.cpp:48-59 | the candidate list holds exactly the pellet tiles of the board |
| Arcade.PelletsBeforeTake | HelloWorld/Game.cpp:50-59 | replacing a pellet by another tile shortens the partial scan by one once the scan has passed that cell |
| Arcade.PelletCountTake | HelloWorld/Game.cpp:48-59 | replacing one pellet leaves exactly one candidate fewer |
| Arcade.Chosen | HelloWorld/Game.cpp:61-64 | no choice exactly when the board has no pellet; otherwise the choice is an in-bounds pellet |
| Arcade.ChosenCanBe | HelloWorld/Game.cpp:63-64 | every pellet on the board is chosen by some random draw |
| Arcade.SpawnAsWritten | HelloWorld/Game.cpp:61-67 | with no pellet nothing changes; otherwise only cell (x, x) of the chosen pellet's column x changes, to a power-up |
| Arcade.AsWrittenMissesChoice | HelloWorld/Game.cpp:64-65 | off the diagonal, the chosen pellet stays a pellet and another cell gets the power-up |
| Arcade.ArenaAlwaysChooses | HelloWorld/Game.cpp:34-44 | the built arena holds pellets, so every random draw chooses one |
| Arcade.ArenaShowsMisplacement | HelloWorld/Game.cpp:65 | in the built arena, some draw chooses the pellet at column 2, row 1, and the power-up lands at column 2, row 2 |
| Arcade.SpawnOnPellet | HelloWorld/Game.cpp:46-68 | with no pellet the maze is unchanged. Otherwise exactly the chosen pellet becomes the power-up: one candidate fewer remains, every other cell is unchanged, and no wall changes |
| Arcade.Eat | HelloWorld/Pacman.cpp:52-62 | off the grid nothing happens. On it, a pellet or power-up becomes empty, other tiles stay, and only a power-up raises the flag. Eating a pellet removes one candidate; no other cell and no wall changes |
| Arcade.Turn | HelloWorld/Pacman.cpp:66-78 | a non-zero buffered direction with an open neighbour is adopted; otherwise the current direction is kept if its neighbour is open, else the player stops |
| Arcade.Aim | HelloWorld/Pacman.cpp:80-82 | the centre of the neighbour along d when it is not a wall, otherwise the current cell's centre |
| Arcade.TurnAimChoice | HelloWorld/Pacman.cpp:65-82 | turning then aiming changes only direction and target. A buffered direction is adopted iff its neighbour is open; otherwise the current direction is kept while open and dropped at a wall. The target is the open neighbour's centre, or the current centre when stopped |
| Arcade.PacCentreTurns | HelloWorld/Pacman.cpp:46-83 | the cell is re-derived from the position, the tile there is eaten, then turning. A buffered direction is adopted iff its neighbour on the new board is open; otherwise the current direction runs into a wall or is kept. The target is the open neighbour's centre, or the current centre when stopped |
| Arcade.PacStep | HelloWorld/Pacman.cpp:44-86 | off-centre only the position may move and the maze is unchanged; at a centre the tile-centre branch runs before the step |
| Arcade.PacStepKeepsCentred | HelloWorld/Pacman.cpp:44-86 | Pac-Man's position and target stay tile centres across a frame |
| Arcade.Game.constructor | HelloWorld/Game.cpp:8-17 | a new board has its player, four distinct fresh ghosts without machines, an all-wall maze, no timer and no power-up |
| Arcade.Game.IsWall | HelloWorld/Game.cpp:24-32 | true off the grid, otherwise iff the maze cell is a wall; equal to the wall query on the maze read as a value |
| Arcade.Game.BuildArena | HelloWorld/Game.cpp:34-44 | the maze becomes the arena |
| Arcade.Game.CollectPellets | HelloWorld/Game.cpp:48-59 | the nested loops collect the candidate list |
| Arcade.Game.SpawnPowerUp | HelloWorld/Game.cpp:46-68 | the maze ends as SpawnOnPellet says; a power-up is present iff one was or a pellet was chosen; the timer is unchanged |
| Arcade.Game.SpawnPowerUpAsWritten | HelloWorld/Game.cpp:46-68 | the maze ends as SpawnAsWritten says; a power-up is present iff one was or a pellet was chosen; the timer is unchanged |
| Arcade.Game.ActivatePowerUp | HelloWorld/Game.cpp:70-78 | the timer is full, no power-up is on the board, every ghost is blue, and nothing but ghost colours changes in the ghosts |
| Arcade.Game.UpdatePowerUp | HelloWorld/Game.cpp:127-143 | a running timer counts down. On reaching zero it is clamped to exactly 0 and every ghost gets its base colour back. With no timer and nothing on the board, a power-up is placed. With a power-up already on the board nothing changes |
| Arcade.PlaceGhosts | HelloWorld/Game.cpp:89-93 | around the centre cell (cx, cy), Blinky, Inky, Pinky and Clyde end as InitG says, on (cx − 2, cy), (cx, cy), (cx + 2, cy) and (cx, cy + 2) in red, cyan, magenta and orange |
| Arcade.Game.InitActors | HelloWorld/Game.cpp:85-93 | the player stands at (9, 23). Blinky, Inky, Pinky and Clyde are initialised on (12, 15), (14, 15), (16, 15) and (14, 17) in red, cyan, magenta and orange; the maze is untouched |
| Arcade.Game.Init | HelloWorld/Game.cpp:80-96 | the maze is the arena with a first power-up placed; a power-up is present and the timer is 0; the player and ghosts are at their starting cells as InitActors says |
| Arcade.Pacman.constructor | HelloWorld/Pacman.h:21-26 | field defaults: cell (0, 0), no direction, nothing buffered, speed 90 |
| Arcade.Pacman.Init | HelloWorld/Pacman.cpp:7-12 | standing still at the centre of the start cell, nothing buffered |
| Arcade.Pacman.EatTile | HelloWorld/Pacman.cpp:52-62 | the maze and the flag end as Eat says; only a power-up starts the power-up phase; otherwise the timer, the power-up flag and the ghosts are untouched |
| Arcade.Pacman.ChooseTurn | HelloWorld/Pacman.cpp:65-78 | the direction taken is the one Turn gives for the current maze |
| Arcade.Pacman.AimAt | HelloWorld/Pacman.cpp:80-82 | the target is the one Aim gives for the current maze |
| Arcade.Pacman.TurnAndAim | HelloWorld/Pacman.cpp:65-82 | direction and target end as Turn and the next-cell aim on the current maze say |
| Arcade.Pacman.AtTileCentre | HelloWorld/Pacman.cpp:46-83 | player, maze and flag end as PacCentre says (see PacCentreTurns), with the power-up effects when one was eaten |
| Arcade.Pacman.Update | HelloWorld/Pacman.cpp:44-86 | player and maze end as PacStep says; the timer, the power-up flag and the ghosts change only when a power-up was eaten |

## Left out

- Floating-point movement is left out. This covers:
  - the step towards the target in `Ghost::Update` (HelloWorld/Ghost.cpp:113-122);
  - `Pacman::StepTowards`;
  - the 0.01 tolerance of `AtCenter`.

  Positions are integer points, "at centre" is equality, and the step becomes
  the `arrived` parameter. Positions that are not tile centres are therefore
  only represented by "not yet at the target".
- The collision radius test (`WithinRadius`, `ActorRadius`, `COLLISION_PAD`)
  is left out. Their definitions are not part of this model. It becomes the
  `touching` parameter, and only the conditions under which a collision may be
  reported are modelled.
- Random number generation is left out: `std::srand(12345)`, `std::rand`, and
  `mt19937` with `random_device`. Each draw is an arbitrary `pick`. Contracts
  state what holds for every draw, not the distribution.
- `Game::Update` as a whole is left out: keyboard input, then Pac-Man, then the
  power-up branch, then the ghost loop with `dt`. Its three modelled pieces are
  `Pacman.Update`, `Game.UpdatePowerUp` and `Ghost.Update`. The frame loop that
  composes them, `HandleInput` (key polling) and all `Draw` methods are I/O.
- The speed values are left out. `BASE_GHOST_SPEED`, `FRIGHTENED_SPEED_MULT`,
  `EATEN_SPEED_MULT`, `CLYDE_CHASE_SWITCH_DIST` and `POWERUP_DURATION` are
  referenced by the game but not defined in `Utils.h`. They are named constants
  with placeholder values. The only facts about them any proof uses are that
  `POWERUP_DURATION` is not negative, which keeps `Game.Valid`'s non-negative
  timer after `Game.ActivatePowerUp`, and that `FRIGHTENED_SPEED_MULT` and
  `EATEN_SPEED_MULT` are positive, which `GhostModel.EnterEffect` needs for a
  positive base speed to stay positive outside Idle. Speeds and the
  timer are real numbers, and float rounding is not modelled.
- `Game.UpdatePowerUp`: the countdown `powerUpTimer -= dt` is exact real
  subtraction, not single-precision float arithmetic.
- 32-bit `int` overflow is not modelled. Grid and target arithmetic uses
  unbounded integers. The `INT_MAX` start value of the best-score search in
  `ChooseBestDir` becomes "nothing kept yet", which agrees with the game's code
  while distances fit in an `int`.
- The `IGameBoard*` argument of `SetState` and of the enter and exit hooks is
  left out. No hook reads it, so those methods take no board.
- The concrete board implementation of `IGameBoard` is not part of this model.
  A ghost sees any `BoardView` whatsoever.
- `std::unique_ptr` ownership is left out. The state objects are represented by
  their ids, and registration is a set of ids. The source asserts that an added
  state is non-null and not yet registered; `AddState` requires the second, and
  the first cannot fail for an id.
- `Ghost.ResetToSpawn` requires a machine, because the source dereferences it
  without a check.
- Colours are compared only for equality. They are an enumeration of the six
  colours used.
- `Game.Init` requires the power-up timer to be 0. The game calls `Init` once,
  on a freshly constructed board, where the timer is 0. The requirement keeps
  the board invariant that a power-up lies on the board only while no
  power-up phase is running.
- `Game.Init` places the first power-up before the player and the ghosts,
  whereas `Game.cpp` does it after them. The two steps write disjoint state
  (the maze and the power-up flag; the actors), so the final state is the
  same in either order.
- `Game.SpawnPowerUp`, as called by `Game.Init` and `Game.UpdatePowerUp`, is the
  corrected placement (see Findings). The write as the source has it is kept
  in `Game.SpawnPowerUpAsWritten` and `SpawnAsWritten`.

Behaviour taken from the code where a plain reading of the design suggests
otherwise:

- After `Ghost::Init` the speed is 0, not the base speed. The final
  `SetState(Idle)` runs Idle's enter hook, which zeroes the speed.
- `Ghost::ResetToSpawn` goes through `SetState(Idle)`, so the old state's exit
  hook runs. The ghost ends with speed 0, unless Idle was already active. In
  that case the request is redundant and the base speed set just before
  stays.
- After `AddState` and before the first `SetState`, a registered current id
  has no pointer. The invariant kept is only "a set pointer belongs to the
  current, registered id".
- The frightened walk uses the reversal-suppressing legal-direction scan.
- `Ghost::Update` ticks the state machine before re-deriving the cell.
- `TileType` in `Utils.h` lists no power-up tile, although the board code uses
  one. The model's `Tile` has it as a fourth kind.

## Findings

| source | as written | input that shows it | evidently intended | confidence | as-written member | corrected member |
|---|---|---|---|---|---|---|
| HelloWorld/Game.cpp:65 | the power-up write indexes the maze with the chosen pellet's column for both the row and the column | a freshly built arena and a draw that chooses the pellet at column 2, row 1: the power-up lands at column 2, row 2 and the chosen tile stays a pellet | the chosen pellet itself becomes the power-up (row y, column x), so one pellet fewer remains | high; not executed | Arcade.SpawnAsWritten, Arcade.ArenaShowsMisplacement, Arcade.Game.SpawnPowerUpAsWritten | Arcade.SpawnOnPellet, Arcade.Game.SpawnPowerUp |
