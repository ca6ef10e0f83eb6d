/** The four resumable steppers `execute_while_loop`, `execute_do_while_loop`,
    `execute_for_loop` and `execute_if_statement` (robot_executor.py).

    Each source stepper does its bookkeeping, then possibly runs one body
    primitive, then bumps a cursor. The primitive can raise, and then the
    bookkeeping done before it stays while the cursor bump is skipped. So a
    step is split in two: `Plan` does the bookkeeping and says which action
    to take, and `Advance` is the cursor bump applied only when the primitive
    succeeded. */
module Stepper {
  import opened Commands

  /** What a step of a compound node asks of the driver: run one body
      primitive, do nothing visible, or finish the node. */
  datatype Action = Run(prim: Prim) | Idle | Complete

  datatype Plan = Plan(node: Cmd, action: Action)

  /** The body the node is currently driving. */
  function ActiveBody(c: Cmd): seq<Prim>
    requires c.IsCompound()
  {
    match c
    case If(_, tb, eb, _, _, _, br) => if br == ElseBranch then eb else if br == ThenBranch then tb else []
    case While(_, b, _) => b
    case DoWhile(_, b, _, _) => b
    case For(_, _, _, _, _, b, _) => b
  }

  /** The cursor into `ActiveBody`. */
  function ActiveCursor(c: Cmd): nat
    requires c.IsCompound()
  {
    match c
    case If(_, _, _, tc, ec, _, br) => if br == ElseBranch then ec else tc
    case While(_, _, k) => k
    case DoWhile(_, _, k, _) => k
    case For(_, _, _, _, _, _, k) => k
  }

  /** `execute_while_loop`: the condition is tested on every step, before
      every body command. */
  function WhilePlan(c: Cmd, holds: bool): (p: Plan)
    requires c.While?
    ensures p.node.While? && SameShape(p.node, c)
  {
    if holds then
      if c.cursor < |c.body| then Plan(c, Run(c.body[c.cursor]))
      else Plan(While(c.cond, c.body, 0), Idle)
    else Plan(While(c.cond, c.body, 0), Complete)
  }

  /** `execute_do_while_loop`: like `WhilePlan`, except that the condition
      is not consulted while `first` is set, and leaving re-arms `first`. */
  function DoWhilePlan(c: Cmd, holds: bool): (p: Plan)
    requires c.DoWhile?
    ensures p.node.DoWhile? && SameShape(p.node, c)
  {
    if c.first || holds then
      if c.cursor < |c.body| then Plan(DoWhile(c.cond, c.body, c.cursor, false), Run(c.body[c.cursor]))
      else Plan(DoWhile(c.cond, c.body, 0, false), Idle)
    else Plan(DoWhile(c.cond, c.body, 0, true), Complete)
  }

  /** `execute_for_loop`: runs the body while `current <= end`, adding
      `step` after each full pass; `current` is left as it is on exit. */
  function ForPlan(c: Cmd): (p: Plan)
    requires c.For?
    ensures p.node.For? && SameShape(p.node, c)
  {
    if c.current <= c.end then
      if c.cursor < |c.body| then Plan(c, Run(c.body[c.cursor]))
      else Plan(For(c.counter, c.start, c.end, c.step, c.current + c.step, c.body, 0), Idle)
    else Plan(c, Complete)
  }

  /** `execute_if_statement`: the first step picks the branch (the else
      branch only when there is one), then the branch is driven like a loop
      body; running off its end, or having no branch, completes the node. */
  function IfPlan(c: Cmd, holds: bool): (p: Plan)
    requires c.If?
    ensures p.node.If? && SameShape(p.node, c)
    ensures p.node.executed || p.action == Complete
  {
    var d :=
      if c.executed then c
      else
        var br := if holds then ThenBranch else if |c.elseBody| > 0 then ElseBranch else Neither;
        If(c.cond, c.thenBody, c.elseBody, c.thenCursor, c.elseCursor, true, br);
    match d.branch
    case ThenBranch =>
      if d.thenCursor < |d.thenBody| then Plan(d, Run(d.thenBody[d.thenCursor]))
      else Plan(If(d.cond, d.thenBody, d.elseBody, 0, d.elseCursor, false, d.branch), Complete)
    case ElseBranch =>
      if d.elseCursor < |d.elseBody| then Plan(d, Run(d.elseBody[d.elseCursor]))
      else Plan(If(d.cond, d.thenBody, d.elseBody, d.thenCursor, 0, false, d.branch), Complete)
    case Neither =>
      Plan(If(d.cond, d.thenBody, d.elseBody, d.thenCursor, d.elseCursor, false, d.branch), Complete)
  }

  /** One step of any compound node; `holds` is the value of its condition
      in the current world (the `for` loop has none and ignores it). */
  function PlanStep(c: Cmd, holds: bool): (p: Plan)
    requires c.IsCompound()
    ensures p.node.IsCompound() && SameShape(p.node, c)
    ensures p.action.Run? ==>
              ActiveCursor(p.node) < |ActiveBody(p.node)|
              && p.action.prim == ActiveBody(p.node)[ActiveCursor(p.node)]
  {
    match c
    case While(_, _, _) => WhilePlan(c, holds)
    case DoWhile(_, _, _, _) => DoWhilePlan(c, holds)
    case For(_, _, _, _, _, _, _) => ForPlan(c)
    case If(_, _, _, _, _, _, _) => IfPlan(c, holds)
  }

  /** The cursor bump that follows a body primitive that did not fail. */
  function Advance(c: Cmd): (c': Cmd)
    requires c.IsCompound()
    ensures c'.IsCompound() && SameShape(c', c)
    ensures ActiveBody(c') == ActiveBody(c) && ActiveCursor(c') == ActiveCursor(c) + 1
  {
    match c
    case While(cd, b, k) => While(cd, b, k + 1)
    case DoWhile(cd, b, k, f) => DoWhile(cd, b, k + 1, f)
    case For(v, a, z, s, cur, b, k) => For(v, a, z, s, cur, b, k + 1)
    case If(cd, tb, eb, tc, ec, ex, br) =>
      if br == ElseBranch then If(cd, tb, eb, tc, ec + 1, ex, br)
      else If(cd, tb, eb, tc + 1, ec, ex, br)
  }

  /** A run of a node as outcomes of its steps: the node after the run, the
      primitives it performed, and whether it completed. */
  datatype Trace = Trace(node: Cmd, performed: seq<Prim>, completed: bool)

  /** Drives a node for as many steps as `conds` has entries (the condition's
      value at each step), assuming every primitive succeeds, and stops early
      when the node completes. */
  function Drive(c: Cmd, conds: seq<bool>): (t: Trace)
    requires c.IsCompound()
    ensures t.node.IsCompound() && SameShape(t.node, c)
    ensures |t.performed| <= |conds|
    decreases |conds|
  {
    if |conds| == 0 then Trace(c, [], false)
    else
      var p := PlanStep(c, conds[0]);
      match p.action
      case Run(prim) =>
        var t := Drive(Advance(p.node), conds[1..]);
        Trace(t.node, [prim] + t.performed, t.completed)
      case Idle => Drive(p.node, conds[1..])
      case Complete => Trace(p.node, [], true)
  }
}
