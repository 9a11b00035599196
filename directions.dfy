/** Grid directions and the two movement heuristics every goal-seeking ghost
    state uses: the legal moves out of a cell, and the best of them towards a
    target tile. A board is seen only through its wall query, which any
    caller may supply (the game's own query treats every cell off the grid
    as a wall). */
module Directions {

  /** A unit step on the grid, or the zero step (no movement). `Up` is (0, -1): rows grow downwards. */
  datatype Dir = Up | Right | Down | Left | Zero

  function DX(d: Dir): int {
    match d
    case Right => 1
    case Left => -1
    case _ => 0
  }

  function DY(d: Dir): int {
    match d
    case Down => 1
    case Up => -1
    case _ => 0
  }

  /** The four moves, in the order the heuristics scan them. */
  const DIRS: seq<Dir> := [Up, Right, Down, Left]

  /** The reverse move: the step vector negated. */
  function OppositeDir(d: Dir): (r: Dir)
    ensures DX(r) == -DX(d) && DY(r) == -DY(d)
    ensures (r == Zero) == (d == Zero)
  {
    match d
    case Up => Down
    case Down => Up
    case Left => Right
    case Right => Left
    case Zero => Zero
  }

  function Abs(n: int): int {
    if n < 0 then -n else n
  }

  /** Manhattan distance between two cells. */
  function DistI(ax: int, ay: int, bx: int, by_: int): (r: int)
    ensures r >= 0
    ensures r == 0 <==> ax == bx && ay == by_
    ensures r >= Abs(ax - bx) && r >= Abs(ay - by_)
  {
    Abs(ax - bx) + Abs(ay - by_)
  }

  /** Tie-break rank: up before left before down before right. A zero step
      falls into the last rank together with right. */
  function Priority(d: Dir): (r: int)
    ensures 0 <= r <= 3
    ensures r == 3 <==> d == Right || d == Zero
  {
    match d
    case Up => 0
    case Left => 1
    case Down => 2
    case _ => 3
  }

  /** The neighbour of (gx, gy) in direction d is not a wall. */
  predicate Open(isWall: (int, int) -> bool, gx: int, gy: int, d: Dir) {
    !isWall(gx + DX(d), gy + DY(d))
  }

  predicate Distinct(s: seq<Dir>) {
    forall i, j :: 0 <= i < j < |s| ==> s[i] != s[j]
  }

  /** The position of d in DIRS; the zero step comes after all four. */
  function DirIndex(d: Dir): (i: nat)
    ensures i < |DIRS| ==> DIRS[i] == d
    ensures i <= |DIRS| && (i == |DIRS| <==> d == Zero)
  {
    match d
    case Up => 0
    case Right => 1
    case Down => 2
    case Left => 3
    case Zero => 4
  }

  /** The first n directions of DIRS, in order, whose neighbour is open and
      which are not `rev`. */
  function KeepFirst(isWall: (int, int) -> bool, gx: int, gy: int, rev: Dir, n: nat): seq<Dir>
    requires n <= |DIRS|
  {
    if n == 0 then []
    else
      var d := DIRS[n - 1];
      KeepFirst(isWall, gx, gy, rev, n - 1) + (if Open(isWall, gx, gy, d) && d != rev then [d] else [])
  }

  /** KeepFirst keeps exactly the open directions among the first n other
      than `rev`, each once. */
  lemma {:induction false} KeepFirstSpec(isWall: (int, int) -> bool, gx: int, gy: int, rev: Dir, n: nat)
    requires n <= |DIRS|
    ensures forall d :: d in KeepFirst(isWall, gx, gy, rev, n) <==>
      DirIndex(d) < n && Open(isWall, gx, gy, d) && d != rev
    ensures Distinct(KeepFirst(isWall, gx, gy, rev, n))
  {
    if n > 0 {
      KeepFirstSpec(isWall, gx, gy, rev, n - 1);
      assert DirIndex(DIRS[n - 1]) == n - 1;
    }
  }

  /** The legal moves out of (gx, gy) for a ghost that last moved in currDir:
      the open neighbours other than the reverse of currDir, or, when that
      leaves nothing, every open neighbour. */
  function LegalDirs(isWall: (int, int) -> bool, gx: int, gy: int, currDir: Dir): seq<Dir> {
    var first := KeepFirst(isWall, gx, gy, OppositeDir(currDir), |DIRS|);
    if first != [] then first else KeepFirst(isWall, gx, gy, Zero, |DIRS|)
  }

  /** Membership in KeepFirst over all four directions. */
  lemma KeepAll(isWall: (int, int) -> bool, gx: int, gy: int, rev: Dir)
    ensures forall d :: d in KeepFirst(isWall, gx, gy, rev, |DIRS|) <==>
      d != Zero && Open(isWall, gx, gy, d) && d != rev
    ensures Distinct(KeepFirst(isWall, gx, gy, rev, |DIRS|))
  {
    KeepFirstSpec(isWall, gx, gy, rev, |DIRS|);
  }

  /** A legal move is a unit step that never leads into a wall, and no
      direction is listed twice. */
  lemma LegalDirsOpen(isWall: (int, int) -> bool, gx: int, gy: int, currDir: Dir)
    ensures forall d :: d in LegalDirs(isWall, gx, gy, currDir) ==> d != Zero && Open(isWall, gx, gy, d)
    ensures Distinct(LegalDirs(isWall, gx, gy, currDir))
  {
    KeepAll(isWall, gx, gy, OppositeDir(currDir));
    KeepAll(isWall, gx, gy, Zero);
  }

  /** While some non-reversing way is open, the legal moves are exactly the
      open non-reversing ones. */
  lemma LegalDirsNoReversal(isWall: (int, int) -> bool, gx: int, gy: int, currDir: Dir)
    ensures (exists d :: d != Zero && Open(isWall, gx, gy, d) && d != OppositeDir(currDir)) ==>
      forall d :: d in LegalDirs(isWall, gx, gy, currDir) <==>
        d != Zero && Open(isWall, gx, gy, d) && d != OppositeDir(currDir)
  {
    var rev := OppositeDir(currDir);
    KeepAll(isWall, gx, gy, rev);
    if e :| e != Zero && Open(isWall, gx, gy, e) && e != rev {
      assert e in KeepFirst(isWall, gx, gy, rev, |DIRS|);
    }
  }

  /** In a dead end the legal moves are every open direction, the reversal included. */
  lemma LegalDirsDeadEnd(isWall: (int, int) -> bool, gx: int, gy: int, currDir: Dir)
    ensures (forall d :: d != Zero && Open(isWall, gx, gy, d) ==> d == OppositeDir(currDir)) ==>
      forall d :: d in LegalDirs(isWall, gx, gy, currDir) <==> d != Zero && Open(isWall, gx, gy, d)
  {
    var rev := OppositeDir(currDir);
    KeepAll(isWall, gx, gy, rev);
    KeepAll(isWall, gx, gy, Zero);
    var first := KeepFirst(isWall, gx, gy, rev, |DIRS|);
    if first != [] {
      assert first[0] in first;
    }
  }

  /** There is no legal move exactly when every neighbour is a wall. */
  lemma LegalDirsEmpty(isWall: (int, int) -> bool, gx: int, gy: int, currDir: Dir)
    ensures LegalDirs(isWall, gx, gy, currDir) == [] <==> forall d :: d != Zero ==> !Open(isWall, gx, gy, d)
  {
    var r := LegalDirs(isWall, gx, gy, currDir);
    KeepAll(isWall, gx, gy, OppositeDir(currDir));
    KeepAll(isWall, gx, gy, Zero);
    if r != [] {
      assert r[0] in r;
    }
  }

  /** GetLegalDirs: two scans of the four directions, the second only when
      the first found no non-reversing move. */
  method GetLegalDirs(isWall: (int, int) -> bool, gx: int, gy: int, currDir: Dir) returns (legal: seq<Dir>)
    ensures legal == LegalDirs(isWall, gx, gy, currDir)
  {
    legal := [];
    var rev := OppositeDir(currDir);
    var haveNonReverse := false;
    for i := 0 to |DIRS|
      invariant legal == KeepFirst(isWall, gx, gy, rev, i)
      invariant haveNonReverse == (legal != [])
    {
      var d := DIRS[i];
      if !isWall(gx + DX(d), gy + DY(d)) {
        if d != rev {
          legal := legal + [d];
          haveNonReverse := true;
        }
      }
    }
    if !haveNonReverse {
      for i := 0 to |DIRS|
        invariant legal == KeepFirst(isWall, gx, gy, Zero, i)
      {
        var d := DIRS[i];
        if !isWall(gx + DX(d), gy + DY(d)) {
          legal := legal + [d];
        }
      }
    }
  }

  /** Manhattan distance to (tx, ty) from the cell reached by moving d. */
  function Score(gx: int, gy: int, tx: int, ty: int, d: Dir): int {
    DistI(gx + DX(d), gy + DY(d), tx, ty)
  }

  /** a ranks strictly before b: closer to the target, or as close and of lower priority. */
  predicate Better(gx: int, gy: int, tx: int, ty: int, a: Dir, b: Dir) {
    Score(gx, gy, tx, ty, a) < Score(gx, gy, tx, ty, b)
    || (Score(gx, gy, tx, ty, a) == Score(gx, gy, tx, ty, b) && Priority(a) < Priority(b))
  }

  /** d is a candidate and no candidate ranks strictly before it. */
  predicate IsBest(gx: int, gy: int, tx: int, ty: int, cands: seq<Dir>, d: Dir) {
    d in cands && forall c :: c in cands ==> !Better(gx, gy, tx, ty, c, d)
  }

  /** Score and priority together determine the direction: the only two
      directions sharing a priority (right and the zero step) reach cells whose
      distances to any target differ by exactly one. */
  lemma SameRankSameDir(gx: int, gy: int, tx: int, ty: int, a: Dir, b: Dir)
    requires Score(gx, gy, tx, ty, a) == Score(gx, gy, tx, ty, b)
    requires Priority(a) == Priority(b)
    ensures a == b
  {
  }

  /** Any two best candidates are the same direction. */
  lemma BestUnique(gx: int, gy: int, tx: int, ty: int, cands: seq<Dir>, a: Dir, b: Dir)
    requires IsBest(gx, gy, tx, ty, cands, a) && IsBest(gx, gy, tx, ty, cands, b)
    ensures a == b
  {
    assert !Better(gx, gy, tx, ty, a, b) && !Better(gx, gy, tx, ty, b, a);
    SameRankSameDir(gx, gy, tx, ty, a, b);
  }

  /** The best candidate towards (tx, ty), scanning in order; no move when there is no candidate. */
  function BestDir(gx: int, gy: int, tx: int, ty: int, cands: seq<Dir>): (r: Dir)
    ensures cands == [] ==> r == Zero
    ensures cands != [] ==> IsBest(gx, gy, tx, ty, cands, r)
  {
    if cands == [] then Zero
    else if |cands| == 1 then cands[0]
    else
      var b := BestDir(gx, gy, tx, ty, cands[..|cands| - 1]);
      var c := cands[|cands| - 1];
      assert forall e :: e in cands ==> e in cands[..|cands| - 1] || e == c;
      if Better(gx, gy, tx, ty, c, b) then c else b
  }

  /** ChooseBestDir: keeps the best score, the best priority among that score,
      and every candidate sharing both; when more than one is kept, the
      oracle `pick` plays the random generator. All kept candidates are the
      same direction, so the choice never matters. */
  method ChooseBestDir(gx: int, gy: int, tx: int, ty: int, candidates: seq<Dir>, pick: nat) returns (r: Dir)
    ensures candidates == [] ==> r == Zero
    ensures candidates != [] ==> IsBest(gx, gy, tx, ty, candidates, r)
    ensures r == BestDir(gx, gy, tx, ty, candidates)
  {
    if candidates == [] {
      return Zero;
    }
    var bestScore := 0;
    var bestPriority := 0;
    var bests: seq<Dir> := [];
    for i := 0 to |candidates|
      invariant i == 0 ==> bests == []
      invariant i > 0 ==> bests != []
      invariant i > 0 ==> forall k :: 0 <= k < |bests| ==> bests[k] == BestDir(gx, gy, tx, ty, candidates[..i])
      invariant i > 0 ==> bestScore == Score(gx, gy, tx, ty, BestDir(gx, gy, tx, ty, candidates[..i]))
      invariant i > 0 ==> bestPriority == Priority(BestDir(gx, gy, tx, ty, candidates[..i]))
    {
      var d := candidates[i];
      var score := DistI(gx + DX(d), gy + DY(d), tx, ty);
      var pr := Priority(d);
      assert candidates[..i + 1][..i] == candidates[..i];
      if bests == [] || score < bestScore {
        bestScore := score;
        bestPriority := pr;
        bests := [d];
      } else if score == bestScore {
        if pr < bestPriority {
          bestPriority := pr;
          bests := [d];
        } else if pr == bestPriority {
          SameRankSameDir(gx, gy, tx, ty, d, BestDir(gx, gy, tx, ty, candidates[..i]));
          bests := bests + [d];
        }
      }
    }
    assert candidates[..|candidates|] == candidates;
    if |bests| == 1 {
      r := bests[0];
    } else {
      r := bests[pick % |bests|];
    }
  }
}
