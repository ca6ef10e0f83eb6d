/** Properties of the grid world that relate its operations to each other. */
module GridLemmas {
  import opened Grid

  /** Each `X_wall` test is the exact negation of the matching `X_free` test. */
  lemma {:induction false} WallIsNotFree(w: World, d: Direction)
    requires Valid(w)
    ensures CheckCondition(w, WallId(d)) == !CheckCondition(w, FreeId(d))
  {
  }

  /** `X_free` holds exactly when a move in direction X would succeed. */
  lemma {:induction false} FreeIffMoveSucceeds(w: World, d: Direction)
    requires Valid(w)
    ensures CheckCondition(w, FreeId(d)) == Move(w, d).ok
  {
  }

  /** A neighbour off the grid counts as a wall. */
  lemma {:induction false} EdgeCountsAsWall(w: World, d: Direction)
    requires Valid(w)
    requires !InBounds(w, w.x + DeltaX(d), w.y + DeltaY(d))
    ensures CheckCondition(w, WallId(d))
    ensures !CheckCondition(w, FreeId(d))
  {
  }

  /** A wall next to the robot is reported by the wall test. */
  lemma {:induction false} WallCellCountsAsWall(w: World, d: Direction)
    requires Valid(w)
    requires InBounds(w, w.x + DeltaX(d), w.y + DeltaY(d))
    requires CellAt(w, w.x + DeltaX(d), w.y + DeltaY(d)) == Wall
    ensures CheckCondition(w, WallId(d))
  {
  }

  /** A successful move never lands on a wall; a failed one keeps the
      position but still turns the robot. */
  lemma {:induction false} MoveAvoidsWalls(w: World, d: Direction)
    requires Valid(w)
    ensures Move(w, d).ok ==> CellAt(Move(w, d).world, Move(w, d).world.x, Move(w, d).world.y) != Wall
    ensures !Move(w, d).ok ==> Move(w, d).world == w.(facing := d)
  {
  }

  /** Marking twice is the same as marking once. */
  lemma {:induction false} MarkIdempotent(w: World)
    requires Valid(w)
    ensures Mark(Mark(w)) == Mark(w)
  {
  }

  /** Marking never creates, removes or alters a wall, and only ever turns an
      empty cell into a marked one. */
  lemma {:induction false} MarkOnlyPaintsEmpty(w: World, cx: int, cy: int)
    requires Valid(w) && InBounds(w, cx, cy)
    ensures CellAt(Mark(w), cx, cy) == Wall <==> CellAt(w, cx, cy) == Wall
    ensures CellAt(Mark(w), cx, cy) != CellAt(w, cx, cy) ==>
              CellAt(w, cx, cy) == Empty && CellAt(Mark(w), cx, cy) == Marked
  {
  }

  /** Toggling a wall twice restores the world. */
  lemma {:induction false} ToggleTwice(w: World, cx: int, cy: int)
    requires Valid(w) && InBounds(w, cx, cy)
    requires CellAt(w, cx, cy) == Empty || CellAt(w, cx, cy) == Wall
    ensures Click(Click(w, cx, cy, true), cx, cy, true) == w
  {
    var w1 := Click(w, cx, cy, true);
    var w2 := Click(w1, cx, cy, true);
    assert w2.grid[cy] == w.grid[cy];
    assert w2.grid == w.grid;
  }

  /** The wall toggle does not look at the robot: a wall can be put under it. */
  lemma {:induction false} ToggleCanWallTheRobot()
    ensures var w := Click(InitialWorld(), 0, 0, true);
            CellAt(w, w.x, w.y) == Wall
  {
  }

  /** Re-placing the robot by a click never puts it on a wall. */
  lemma {:induction false} PlaceAvoidsWalls(w: World, cx: int, cy: int)
    requires Valid(w) && CellAt(w, w.x, w.y) != Wall
    ensures var w' := Click(w, cx, cy, false); CellAt(w', w'.x, w'.y) != Wall
  {
  }
}
