/** The robot's world: a square grid of cells indexed `grid[y][x]`, the
    robot's position and the direction it last tried to move in. Models the
    grid half of `RobotExecutor` (robot_executor.py). */
module Grid {

  /** `Direction` enum of the source, in its declared order. */
  datatype Direction = Up | Right | Down | Left

  /** `CellType` enum of the source. No operation ever stores `Robot` in the
      grid; it is kept only because the enum declares it. */
  datatype Cell = Empty | Wall | Marked | Robot

  /** Limits of the size spin box. */
  const MinSize: int := 5
  const MaxSize: int := 30
  /** Side length of a freshly created executor. */
  const InitialSize: int := 15

  datatype World = World(size: int, grid: seq<seq<Cell>>, x: int, y: int, facing: Direction)

  /** The grid is `size` rows of `size` cells and the robot stands on one of them. */
  predicate Valid(w: World) {
    && MinSize <= w.size <= MaxSize
    && |w.grid| == w.size
    && (forall row | 0 <= row < |w.grid| :: |w.grid[row]| == w.size)
    && 0 <= w.x < w.size
    && 0 <= w.y < w.size
  }

  predicate InBounds(w: World, cx: int, cy: int) {
    0 <= cx < w.size && 0 <= cy < w.size
  }

  function CellAt(w: World, cx: int, cy: int): Cell
    requires Valid(w) && InBounds(w, cx, cy)
  {
    w.grid[cy][cx]
  }

  /** An `n` by `n` grid of empty cells. */
  function EmptyGrid(n: nat): (g: seq<seq<Cell>>)
    ensures |g| == n
    ensures forall row | 0 <= row < n :: |g[row]| == n
    ensures forall row, col | 0 <= row < n && 0 <= col < n :: g[row][col] == Empty
  {
    seq(n, _ => seq(n, _ => Empty))
  }

  /** The state a new executor starts in: 15 by 15, empty, robot at the
      top-left corner facing right. */
  function InitialWorld(): (w: World)
    ensures Valid(w)
    ensures w.size == 15 && w.x == 0 && w.y == 0 && w.facing == Right
    ensures forall row, col | 0 <= row < w.size && 0 <= col < w.size :: w.grid[row][col] == Empty
  {
    World(InitialSize, EmptyGrid(InitialSize), 0, 0, Right)
  }

  /** Horizontal and vertical offset of one step in direction `d`
      (y grows downwards). */
  function DeltaX(d: Direction): int {
    match d
    case Right => 1
    case Left => -1
    case _ => 0
  }

  function DeltaY(d: Direction): int {
    match d
    case Down => 1
    case Up => -1
    case _ => 0
  }

  /** The identifiers the condition phrases resolve to. */
  const RightFree: string := "right_free"
  const RightWall: string := "right_wall"
  const LeftFree: string := "left_free"
  const LeftWall: string := "left_wall"
  const TopFree: string := "top_free"
  const TopWall: string := "top_wall"
  const BottomFree: string := "bottom_free"
  const BottomWall: string := "bottom_wall"

  function FreeId(d: Direction): string {
    match d
    case Right => RightFree
    case Left => LeftFree
    case Up => TopFree
    case Down => BottomFree
  }

  function WallId(d: Direction): string {
    match d
    case Right => RightWall
    case Left => LeftWall
    case Up => TopWall
    case Down => BottomWall
  }

  const ConditionIds: set<string> :=
    {RightFree, RightWall, LeftFree, LeftWall, TopFree, TopWall, BottomFree, BottomWall}

  /** `check_condition`: the eight adjacency tests, each written as the source
      writes it; any other identifier is false. */
  function CheckCondition(w: World, id: string): (r: bool)
    requires Valid(w)
    ensures id !in ConditionIds ==> !r
  {
    var x, y := w.x, w.y;
    if id == RightFree then x + 1 < w.size && w.grid[y][x + 1] != Wall
    else if id == RightWall then x + 1 >= w.size || w.grid[y][x + 1] == Wall
    else if id == LeftFree then x - 1 >= 0 && w.grid[y][x - 1] != Wall
    else if id == LeftWall then x - 1 < 0 || w.grid[y][x - 1] == Wall
    else if id == TopFree then y - 1 >= 0 && w.grid[y - 1][x] != Wall
    else if id == TopWall then y - 1 < 0 || w.grid[y - 1][x] == Wall
    else if id == BottomFree then y + 1 < w.size && w.grid[y + 1][x] != Wall
    else if id == BottomWall then y + 1 >= w.size || w.grid[y + 1][x] == Wall
    else false
  }

  /** What a primitive action did to the world, and whether it succeeded. */
  datatype Effect = Effect(world: World, ok: bool)

  /** `move_robot`: the facing is set to `d` first; the robot then steps onto
      the neighbouring cell when it lies on the grid and is not a wall, and
      the move fails otherwise with the position left as it was. */
  function Move(w: World, d: Direction): (e: Effect)
    requires Valid(w)
    ensures Valid(e.world)
    ensures e.world.facing == d
    ensures e.world.size == w.size && e.world.grid == w.grid
    ensures e.ok <==> InBounds(w, w.x + DeltaX(d), w.y + DeltaY(d))
                      && CellAt(w, w.x + DeltaX(d), w.y + DeltaY(d)) != Wall
    ensures e.ok ==> e.world.x == w.x + DeltaX(d) && e.world.y == w.y + DeltaY(d)
    ensures !e.ok ==> e.world.x == w.x && e.world.y == w.y
  {
    var nx, ny := w.x + DeltaX(d), w.y + DeltaY(d);
    var turned := w.(facing := d);
    if 0 <= nx < w.size && 0 <= ny < w.size && w.grid[ny][nx] != Wall then
      Effect(turned.(x := nx, y := ny), true)
    else
      Effect(turned, false)
  }

  /** The grid with cell (cx, cy) replaced by `c`. */
  function SetCell(g: seq<seq<Cell>>, cx: int, cy: int, c: Cell): seq<seq<Cell>>
    requires 0 <= cy < |g| && 0 <= cx < |g[cy]|
  {
    g[cy := g[cy][cx := c]]
  }

  /** `mark_cell`: paints the robot's cell when it is empty. */
  function Mark(w: World): (w': World)
    requires Valid(w)
    ensures Valid(w')
    ensures w'.size == w.size && w'.x == w.x && w'.y == w.y && w'.facing == w.facing
    ensures CellAt(w', w.x, w.y) == if CellAt(w, w.x, w.y) == Empty then Marked else CellAt(w, w.x, w.y)
    ensures forall cx, cy | InBounds(w, cx, cy) && (cx != w.x || cy != w.y) ::
              CellAt(w', cx, cy) == CellAt(w, cx, cy)
  {
    if w.grid[w.y][w.x] == Empty then w.(grid := SetCell(w.grid, w.x, w.y, Marked)) else w
  }

  /** `clear_grid`: every cell emptied, robot back at the corner facing right. */
  function Clear(w: World): (w': World)
    requires Valid(w)
    ensures Valid(w')
    ensures w'.size == w.size
    ensures forall cx, cy | InBounds(w', cx, cy) :: CellAt(w', cx, cy) == Empty
    ensures w'.x == 0 && w'.y == 0 && w'.facing == Right
  {
    World(w.size, EmptyGrid(w.size), 0, 0, Right)
  }

  /** `resize_grid`: a fresh empty grid of the new side; the robot keeps its
      place and facing unless the place fell off the grid, in which case it
      returns to the corner. The spin box only offers sides 5 to 30. */
  function Resize(w: World, n: int): (w': World)
    requires Valid(w)
    requires MinSize <= n <= MaxSize
    ensures Valid(w')
    ensures w'.size == n && w'.facing == w.facing
    ensures forall cx, cy | InBounds(w', cx, cy) :: CellAt(w', cx, cy) == Empty
    ensures InBounds(w', w.x, w.y) ==> w'.x == w.x && w'.y == w.y
    ensures !InBounds(w', w.x, w.y) ==> w'.x == 0 && w'.y == 0
  {
    var g := EmptyGrid(n);
    if w.x >= n || w.y >= n then World(n, g, 0, 0, w.facing) else World(n, g, w.x, w.y, w.facing)
  }

  /** A left click on cell (cx, cy) of the grid widget (the conversion from
      pixels to cells is not modelled). In wall mode an empty cell becomes a
      wall and a wall becomes empty; otherwise the robot is placed there
      unless the cell is a wall. Clicks off the grid do nothing. */
  function Click(w: World, cx: int, cy: int, wallMode: bool): (w': World)
    requires Valid(w)
    ensures Valid(w')
    ensures w'.size == w.size && w'.facing == w.facing
    ensures !InBounds(w, cx, cy) ==> w' == w
    ensures wallMode && InBounds(w, cx, cy) ==>
              && w'.x == w.x && w'.y == w.y
              && CellAt(w', cx, cy) == (match CellAt(w, cx, cy)
                                        case Empty => Wall
                                        case Wall => Empty
                                        case other => other)
              && forall ox, oy | InBounds(w, ox, oy) && (ox != cx || oy != cy) ::
                   CellAt(w', ox, oy) == CellAt(w, ox, oy)
    ensures !wallMode ==> w'.grid == w.grid
    ensures !wallMode && InBounds(w, cx, cy) ==>
              if CellAt(w, cx, cy) == Wall then w' == w else w'.x == cx && w'.y == cy
  {
    if 0 <= cx < w.size && 0 <= cy < w.size then
      if wallMode then
        if w.grid[cy][cx] == Empty then w.(grid := SetCell(w.grid, cx, cy, Wall))
        else if w.grid[cy][cx] == Wall then w.(grid := SetCell(w.grid, cx, cy, Empty))
        else w
      else if w.grid[cy][cx] != Wall then w.(x := cx, y := cy)
      else w
    else w
  }
}
