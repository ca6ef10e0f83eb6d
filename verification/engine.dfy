/** The interpreter driver of `RobotExecutor` (robot_executor.py): starting
    a run, the step that the timer and the step button trigger, and the
    dispatch from a command to its stepper and to the grid primitives. */
module Engine {
  import opened Results
  import opened Text
  import opened Grid
  import opened Commands
  import opened Stepper
  import opened Parser

  /** The interpreter state: the world, the parsed commands with their
      progress fields, the index of the current command and whether the run
      is live (the timer is active). */
  datatype Engine = Engine(world: World, cmds: seq<Cmd>, pc: nat, running: bool)

  predicate Sound(e: Engine) {
    Valid(e.world) && e.pc <= |e.cmds|
  }

  /** `execute_simple_command`: a move, or painting (which cannot fail). */
  function Exec(w: World, p: Prim): (r: Effect)
    requires Valid(w)
    ensures Valid(r.world) && r.world.size == w.size
    ensures p.Paint? ==> r.ok && r.world == Mark(w)
    ensures p.Go? ==> r == Move(w, p.dir)
  {
    match p
    case Go(d) => Move(w, d)
    case Paint => Effect(Mark(w), true)
  }

  /** The value of a compound node's condition in the current world; the
      counted loop has none. */
  function Holds(w: World, c: Cmd): bool
    requires Valid(w) && c.IsCompound()
  {
    if c.For? then false else CheckCondition(w, c.cond)
  }

  /** What a step did: the run goes on, there was nothing left to run, or a
      primitive raised (which stops the run). */
  datatype Outcome = Continue | Completed | Fault

  datatype Transition = Transition(engine: Engine, outcome: Outcome)

  /** `execute_step` / `execute_next_command` with `execute_command`: past the
      last command the run stops; a primitive command runs and moves on; a
      compound command takes one step of its stepper and moves on only when
      it completes. A primitive that raises stops the run with the current
      command unchanged, except for the bookkeeping its stepper did first. */
  function Step(e: Engine): (t: Transition)
    requires Sound(e)
    ensures Sound(t.engine)
    ensures |t.engine.cmds| == |e.cmds|
    ensures forall i | 0 <= i < |e.cmds| :: SameShape(t.engine.cmds[i], e.cmds[i])
    ensures forall i | 0 <= i < |e.cmds| && i != e.pc :: t.engine.cmds[i] == e.cmds[i]
    ensures t.outcome == Completed <==> e.pc == |e.cmds|
    ensures t.outcome == Completed ==>
              t.engine == Engine(e.world, e.cmds, e.pc, false)
    ensures t.outcome == Fault ==>
              && !t.engine.running && t.engine.pc == e.pc
              && t.engine.world.grid == e.world.grid
              && t.engine.world.x == e.world.x && t.engine.world.y == e.world.y
    ensures t.outcome == Continue ==> t.engine.running == e.running
    ensures t.engine.pc == e.pc || (t.engine.pc == e.pc + 1 && t.outcome == Continue)
    ensures t.engine.world.size == e.world.size
    ensures e.pc < |e.cmds| && e.cmds[e.pc].Simple? ==>
              var r := Exec(e.world, e.cmds[e.pc].prim);
              && (t.outcome == Fault <==> !r.ok)
              && (r.ok ==> t.engine == Engine(r.world, e.cmds, e.pc + 1, e.running))
              && (!r.ok ==> t.engine == Engine(r.world, e.cmds, e.pc, false))
  {
    if e.pc == |e.cmds| then Transition(Engine(e.world, e.cmds, e.pc, false), Completed)
    else
      var c := e.cmds[e.pc];
      match c
      case Simple(p) =>
        var r := Exec(e.world, p);
        if r.ok then Transition(Engine(r.world, e.cmds, e.pc + 1, e.running), Continue)
        else Transition(Engine(r.world, e.cmds, e.pc, false), Fault)
      case _ =>
        var plan := PlanStep(c, Holds(e.world, c));
        match plan.action
        case Run(p) =>
          var r := Exec(e.world, p);
          if r.ok then Transition(Engine(r.world, e.cmds[e.pc := Advance(plan.node)], e.pc, e.running), Continue)
          else Transition(Engine(r.world, e.cmds[e.pc := plan.node], e.pc, false), Fault)
        case Idle => Transition(Engine(e.world, e.cmds[e.pc := plan.node], e.pc, e.running), Continue)
        case Complete => Transition(Engine(e.world, e.cmds[e.pc := plan.node], e.pc + 1, e.running), Continue)
  }

  /** The timer: steps while the run is live, at most `fuel` times. */
  function Run(e: Engine, fuel: nat): (e': Engine)
    requires Sound(e)
    ensures Sound(e')
    ensures |e'.cmds| == |e.cmds| && e'.pc >= e.pc
    ensures e'.world.size == e.world.size
    ensures forall i | 0 <= i < |e.cmds| :: SameShape(e'.cmds[i], e.cmds[i])
    ensures e'.running ==> e.running
    ensures !e.running ==> e' == e
    ensures fuel > 0 && e.pc == |e.cmds| ==> !e'.running && e'.world == e.world && e'.cmds == e.cmds
    decreases fuel
  {
    if fuel == 0 || !e.running then e else Run(Step(e).engine, fuel - 1)
  }

  /** Why a run does not start. */
  datatype StartError = EmptyProgram | NoCommands | BadProgram(error: ParseError)

  /** `start_execution`: the editor text is stripped as a whole, then parsed;
      an empty text, a parse error and a program with no commands are
      refused; otherwise the run starts at the first command in the current
      world (the grid and the robot are not reset). */
  function StartExecution(code: string, w: World): (r: Result<Engine, StartError>)
    ensures r.Err? && r.error == EmptyProgram <==> |Strip(code)| == 0
    ensures r.Ok? ==> && r.value.world == w && r.value.pc == 0 && r.value.running
                      && |r.value.cmds| > 0
                      && (forall i | 0 <= i < |r.value.cmds| :: r.value.cmds[i].Fresh())
    ensures r.Ok? <==> |Strip(code)| > 0 && ParseProgram(Strip(code)).Ok? && |ParseProgram(Strip(code)).value| > 0
    ensures r.Ok? ==> r.value.cmds == ParseProgram(Strip(code)).value
    ensures r == Err(NoCommands) <==> |Strip(code)| > 0 && ParseProgram(Strip(code)) == Ok([])
    ensures r.Err? && r.error.BadProgram? <==> |Strip(code)| > 0 && ParseProgram(Strip(code)).Err?
    ensures r.Err? && r.error.BadProgram? ==> r.error.error == ParseProgram(Strip(code)).error
  {
    var text := Strip(code);
    if |text| == 0 then Err(EmptyProgram)
    else
      match ParseProgram(text)
      case Err(pe) => Err(BadProgram(pe))
      case Ok(cmds) => if |cmds| == 0 then Err(NoCommands) else Ok(Engine(w, cmds, 0, true))
  }
}
