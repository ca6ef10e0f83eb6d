/** What the driver of `RobotExecutor` adds up to over whole runs: a program
    of primitive commands behaves like doing its primitives in order, a
    compound command is stepped exactly as its stepper prescribes, and
    complete programs run as the source's users would expect. */
module EngineLemmas {
  import opened Results
  import opened Grid
  import opened Commands
  import Stepper
  import opened Render
  import opened Engine

  // ------------------------------------------------ straight-line programs

  /** The outcome of doing primitives one after another: the final world,
      how many succeeded, and whether all did. */
  datatype Performed = Performed(world: World, done: nat, ok: bool)

  /** Reference semantics of a list of primitives: each runs on the world
      the previous one left, and the first failure ends the run. */
  function Perform(w: World, ps: seq<Prim>): (r: Performed)
    requires Valid(w)
    ensures Valid(r.world) && r.world.size == w.size
    ensures r.done <= |ps|
    ensures r.ok <==> r.done == |ps|
    decreases |ps|
  {
    if |ps| == 0 then Performed(w, 0, true)
    else
      var e := Exec(w, ps[0]);
      if !e.ok then Performed(e.world, 0, false)
      else
        var r := Perform(e.world, ps[1..]);
        Performed(r.world, r.done + 1, r.ok)
  }

  /** The program of one command per primitive. */
  function Simples(ps: seq<Prim>): (cs: seq<Cmd>)
    ensures |cs| == |ps|
    ensures forall i | 0 <= i < |ps| :: cs[i] == Simple(ps[i])
  {
    if |ps| == 0 then [] else [Simple(ps[0])] + Simples(ps[1..])
  }

  /** From command `i` on, the driver does the remaining primitives in order
      and stops at the first failure, on the command that failed, or after
      the last command. */
  lemma {:induction false} StraightLineFrom(w: World, ps: seq<Prim>, i: nat)
    requires Valid(w) && i <= |ps|
    ensures var e := Run(Engine(w, Simples(ps), i, true), |ps| - i + 1);
            var r := Perform(w, ps[i..]);
            e.world == r.world && e.pc == i + r.done && !e.running && e.cmds == Simples(ps)
    decreases |ps| - i
  {
    var cmds := Simples(ps);
    var e0 := Engine(w, cmds, i, true);
    if i == |ps| {
      assert ps[i..] == [];
      assert Step(e0).engine == Engine(w, cmds, i, false);
    } else {
      var x := Exec(w, ps[i]);
      assert ps[i..][0] == ps[i];
      assert ps[i..][1..] == ps[i + 1..];
      if x.ok {
        assert Step(e0).engine == Engine(x.world, cmds, i + 1, true);
        StraightLineFrom(x.world, ps, i + 1);
      } else {
        assert Step(e0).engine == Engine(x.world, cmds, i, false);
      }
    }
  }

  /** A program of primitive commands, run with one step of fuel per command
      and one to notice the end, ends where doing its primitives in order
      ends; it reaches the end exactly when every primitive succeeded. */
  lemma {:induction false} StraightLineRun(w: World, ps: seq<Prim>)
    requires Valid(w)
    ensures var e := Run(Engine(w, Simples(ps), 0, true), |ps| + 1);
            && e.world == Perform(w, ps).world
            && !e.running
            && e.pc == Perform(w, ps).done
            && (e.pc == |ps| <==> Perform(w, ps).ok)
  {
    StraightLineFrom(w, ps, 0);
    assert ps[0..] == ps;
  }

  // ------------------------------------------------------ compound steps

  /** On a compound command the driver takes exactly one step of the node's
      stepper: the node becomes what `Drive` makes of it, the primitive the
      stepper asks for is the only change to the world, the run moves on
      only when the node completes, and it faults exactly when that
      primitive fails. */
  lemma {:induction false} StepDrivesNode(e: Engine)
    requires Sound(e) && e.pc < |e.cmds| && e.cmds[e.pc].IsCompound()
    ensures var c := e.cmds[e.pc];
            var d := Stepper.Drive(c, [Holds(e.world, c)]);
            var t := Step(e);
            && |d.performed| <= 1
            && (t.outcome == Fault <==> |d.performed| == 1 && !Exec(e.world, d.performed[0]).ok)
            && (t.outcome != Fault ==>
                  && t.outcome == Continue
                  && t.engine.cmds == e.cmds[e.pc := d.node]
                  && t.engine.pc == (if d.completed then e.pc + 1 else e.pc)
                  && t.engine.running == e.running
                  && t.engine.world == (if |d.performed| == 1 then Exec(e.world, d.performed[0]).world else e.world))
  {
    var c := e.cmds[e.pc];
    var p := Stepper.PlanStep(c, Holds(e.world, c));
    var d := Stepper.Drive(c, [Holds(e.world, c)]);
    assert [Holds(e.world, c)][1..] == [];
    match p.action
    case Run(prim) =>
      assert Stepper.Drive(Stepper.Advance(p.node), []) == Stepper.Trace(Stepper.Advance(p.node), [], false);
      assert [prim] + [] == [prim];
      assert d == Stepper.Trace(Stepper.Advance(p.node), [prim], false);
    case Idle =>
      assert Stepper.Drive(p.node, []) == Stepper.Trace(p.node, [], false);
      assert d == Stepper.Trace(p.node, [], false);
    case Complete =>
      assert d == Stepper.Trace(p.node, [], true);
  }

  /** When the first body command of a fresh `do_while` fails, the run
      stops on the loop with `first` already cleared: the source clears the
      flag before running the command that raises. */
  lemma {:induction false} DoWhileFaultKeepsBookkeeping(e: Engine)
    requires Sound(e) && e.pc < |e.cmds|
    requires e.cmds[e.pc].DoWhile? && e.cmds[e.pc].Fresh() && |e.cmds[e.pc].body| > 0
    requires !Exec(e.world, e.cmds[e.pc].body[0]).ok
    ensures var c := e.cmds[e.pc];
            Step(e) == Transition(Engine(Exec(e.world, c.body[0]).world,
                                         e.cmds[e.pc := DoWhile(c.cond, c.body, 0, false)], e.pc, false),
                                  Fault)
  {
  }

  // ------------------------------------------------------- a whole program

  /** The program `нц пока справа свободно / вправо / кц`, as parsed, with its
      loop cursor at `k`, at the start of a live run in world `w`. */
  function Walker(w: World, k: nat): Engine {
    Engine(w, [While(RightFree, [Go(Right)], k)], 0, true)
  }

  /** No wall between the robot and the right edge of its row. */
  predicate ClearToTheRight(w: World)
    requires Valid(w)
  {
    forall cx | w.x < cx < w.size :: w.grid[w.y][cx] != Wall
  }

  lemma {:induction false} WalkMoves(w: World)
    requires Valid(w) && ClearToTheRight(w) && w.x < w.size - 1
    ensures Valid(w.(x := w.x + 1, facing := Right))
    ensures ClearToTheRight(w.(x := w.x + 1, facing := Right))
    ensures Step(Walker(w, 0)) == Transition(Walker(w.(x := w.x + 1, facing := Right), 1), Continue)
  {
  }

  lemma {:induction false} WalkRewinds(w: World)
    requires Valid(w) && ClearToTheRight(w) && w.x < w.size - 1
    ensures Step(Walker(w, 1)) == Transition(Walker(w, 0), Continue)
  {
  }

  /** Away from the edge, one pass of the loop moves the robot one cell to
      the right and rewinds the loop. */
  lemma {:induction false} WalkPass(w: World, fuel: nat)
    requires Valid(w) && ClearToTheRight(w) && w.x < w.size - 2 && fuel >= 2
    ensures Valid(w.(x := w.x + 1, facing := Right))
    ensures ClearToTheRight(w.(x := w.x + 1, facing := Right))
    ensures Run(Walker(w, 0), fuel) == Run(Walker(w.(x := w.x + 1, facing := Right), 0), fuel - 2)
    ensures WalkEnd(w.(x := w.x + 1, facing := Right)) == WalkEnd(w)
  {
    var w1 := w.(x := w.x + 1, facing := Right);
    WalkMoves(w);
    WalkRewinds(w1);
  }

  /** At the right edge the loop completes, and the next step ends the run. */
  lemma {:induction false} WalkEnds(w: World, k: nat, fuel: nat)
    requires Valid(w) && w.x == w.size - 1 && k <= 1 && fuel >= 2
    ensures Run(Walker(w, k), fuel) == Engine(w, [While(RightFree, [Go(Right)], 0)], 1, false)
  {
    var done := Engine(w, [While(RightFree, [Go(Right)], 0)], 1, true);
    assert Step(Walker(w, k)) == Transition(done, Continue);
    assert Step(done).engine == Engine(w, [While(RightFree, [Go(Right)], 0)], 1, false);
  }

  /** Where the walk ends: at the right edge of the robot's row, facing
      right unless it was there already. */
  function WalkEnd(w: World): (r: World)
    requires Valid(w)
    ensures r.grid == w.grid && r.x == w.size - 1 && r.y == w.y
  {
    w.(x := w.size - 1, facing := if w.x == w.size - 1 then w.facing else Right)
  }

  /** The final engine of the walk. */
  function Walked(w: World): Engine
    requires Valid(w)
  {
    Engine(WalkEnd(w), [While(RightFree, [Go(Right)], 0)], 1, false)
  }

  /** With no wall to its right, the robot of this program walks to the
      right edge of its row and the run ends there, after two steps per cell
      walked and one to notice the end; the grid is untouched. */
  lemma {:induction false} WalkRightToWall(w: World, fuel: nat)
    requires Valid(w) && ClearToTheRight(w)
    requires fuel >= 2 * (w.size - 1 - w.x) + 2
    ensures Run(Walker(w, 0), fuel) == Walked(w)
    decreases w.size - w.x
  {
    if w.x == w.size - 1 {
      WalkEnds(w, 0, fuel);
      assert WalkEnd(w) == w;
    } else if w.x == w.size - 2 {
      WalkLastCell(w, fuel);
    } else {
      WalkPass(w, fuel);
      WalkRightToWall(w.(x := w.x + 1, facing := Right), fuel - 2);
    }
  }

  /** One cell from the edge: one move, then the loop completes and the run ends. */
  lemma {:induction false} WalkLastCell(w: World, fuel: nat)
    requires Valid(w) && ClearToTheRight(w) && w.x == w.size - 2 && fuel >= 3
    ensures Run(Walker(w, 0), fuel) == Walked(w)
  {
    var w1 := w.(x := w.x + 1, facing := Right);
    WalkMoves(w);
    WalkEnds(w1, 1, fuel - 1);
    assert WalkEnd(w) == w1;
  }

  // ------------------------------------------------------------- starting

  /** The text of any renderable program starts a run of exactly that
      program, at its first command, in the current world. */
  lemma {:induction false} StartRendered(cmds: seq<Cmd>, w: World)
    requires |cmds| > 0
    requires forall i | 0 <= i < |cmds| :: Renderable(cmds[i])
    ensures StartExecution(ProgramText(cmds), w) == Ok(Engine(w, cmds, 0, true))
  {
    ProgramTextTrimmed(cmds);
    ParseProgramText(cmds);
  }
}
