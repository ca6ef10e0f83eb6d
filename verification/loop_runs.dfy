/** What the steppers do over many steps: how many body commands each loop
    performs, in which order, and when it completes. These are the
    properties the one-step functions of `Stepper` add up to. */
module LoopRuns {
  import opened Commands
  import opened Stepper

  /** `n` full passes over `body`. */
  function Repeat(body: seq<Prim>, n: nat): (r: seq<Prim>)
    ensures |r| == n * |body|
  {
    if n == 0 then [] else body + Repeat(body, n - 1)
  }

  function Prepend(ps: seq<Prim>, t: Trace): Trace {
    Trace(t.node, ps + t.performed, t.completed)
  }

  /** One step of `Drive`, spelled out. */
  lemma {:induction false} DriveStep(c: Cmd, conds: seq<bool>)
    requires c.IsCompound() && |conds| > 0
    ensures var p := PlanStep(c, conds[0]);
            Drive(c, conds) == match p.action
                               case Run(prim) => Prepend([prim], Drive(Advance(p.node), conds[1..]))
                               case Idle => Drive(p.node, conds[1..])
                               case Complete => Trace(p.node, [], true)
  {
  }

  /** A step whose stepper asks for a primitive performs it and goes on
      with the cursor bumped. */
  lemma {:induction false} RunStep(c: Cmd, conds: seq<bool>, prim: Prim, next: Cmd)
    requires c.IsCompound() && |conds| > 0 && PlanStep(c, conds[0]).action == Run(prim)
    requires Advance(PlanStep(c, conds[0]).node) == next
    ensures Drive(c, conds) == Prepend([prim], Drive(next, conds[1..]))
  {
  }

  /** A step that does nothing visible goes on from the planned node. */
  lemma {:induction false} IdleStep(c: Cmd, conds: seq<bool>, next: Cmd)
    requires c.IsCompound() && |conds| > 0
    requires PlanStep(c, conds[0]) == Plan(next, Idle)
    ensures Drive(c, conds) == Drive(next, conds[1..])
  {
  }

  lemma {:induction false} PrependPrepend(a: seq<Prim>, b: seq<Prim>, t: Trace)
    ensures Prepend(a, Prepend(b, t)) == Prepend(a + b, t)
  {
    assert a + (b + t.performed) == (a + b) + t.performed;
  }

  /** Performing `s[i]` and then `s[i+1..]` is performing `s[i..]`. */
  lemma {:induction false} PrependCons(s: seq<Prim>, i: nat, t: Trace)
    requires i < |s|
    ensures Prepend([s[i]], Prepend(s[i + 1..], t)) == Prepend(s[i..], t)
  {
    PrependPrepend([s[i]], s[i + 1..], t);
    assert [s[i]] + s[i + 1..] == s[i..];
  }

  lemma {:induction false} ConsSlice(s: seq<Prim>, i: nat, j: nat)
    requires i < j <= |s|
    ensures [s[i]] + s[i + 1..j] == s[i..j]
  {
  }

  // ---------------------------------------------------------------- while

  /** A `while` node tested true with its cursor inside the body performs
      the command under the cursor and moves the cursor on. */
  lemma {:induction false} WhileRunStep(cond: string, body: seq<Prim>, k: nat, conds: seq<bool>)
    requires k < |body| && |conds| > 0 && conds[0]
    ensures Drive(While(cond, body, k), conds)
            == Prepend([body[k]], Drive(While(cond, body, k + 1), conds[1..]))
  {
    var c := While(cond, body, k);
    assert PlanStep(c, conds[0]) == Plan(c, Run(body[k]));
    RunStep(c, conds, body[k], While(cond, body, k + 1));
  }

  /** Tested true at the end of its body, it spends the step rewinding. */
  lemma {:induction false} WhileRewindStep(cond: string, body: seq<Prim>, conds: seq<bool>)
    requires |conds| > 0 && conds[0]
    ensures Drive(While(cond, body, |body|), conds) == Drive(While(cond, body, 0), conds[1..])
  {
    IdleStep(While(cond, body, |body|), conds, While(cond, body, 0));
  }

  /** With the condition true throughout, a `while` node finishes the pass it
      is in: it performs the rest of the body, spends one more step
      rewinding its cursor, and is then at the start of the next pass. */
  lemma {:induction false} WhileFinishesPass(cond: string, body: seq<Prim>, k: nat, conds: seq<bool>)
    requires k <= |body| && |conds| > |body| - k
    requires forall i | 0 <= i <= |body| - k :: conds[i]
    ensures Drive(While(cond, body, k), conds)
            == Prepend(body[k..], Drive(While(cond, body, 0), conds[|body| - k + 1..]))
    decreases |body| - k
  {
    var m := |body| - k;
    if k < |body| {
      WhileRunStep(cond, body, k, conds);
      WhileFinishesPass(cond, body, k + 1, conds[1..]);
      assert conds[1..][m..] == conds[m + 1..];
      PrependCons(body, k, Drive(While(cond, body, 0), conds[m + 1..]));
    } else {
      WhileRewindStep(cond, body, conds);
      assert body[k..] == [];
      assert conds[1..] == conds[m + 1..];
    }
  }

  /** A false condition ends a `while` node at once, wherever its cursor is,
      so after `k` true tests and a false one it has performed the next `k`
      body commands only: the body can run zero times or stop mid-pass. */
  lemma {:induction false} WhileStopsAtFalse(cond: string, body: seq<Prim>, j: nat, k: nat, conds: seq<bool>)
    requires j + k <= |body|
    requires |conds| > k && !conds[k]
    requires forall i | 0 <= i < k :: conds[i]
    ensures Drive(While(cond, body, j), conds) == Trace(While(cond, body, 0), body[j..j + k], true)
    decreases k
  {
    if k > 0 {
      TestsAfterOne(conds, k);
      WhileStopsAtFalse(cond, body, j + 1, k - 1, conds[1..]);
      WhileTrueStep(cond, body, j, k, conds);
    } else {
      WhileFalseStep(cond, body, j, conds);
      assert body[j..j] == [];
    }
  }

  /** Tested false, a `while` node completes with its cursor rewound. */
  lemma {:induction false} WhileFalseStep(cond: string, body: seq<Prim>, j: nat, conds: seq<bool>)
    requires |conds| > 0 && !conds[0]
    ensures Drive(While(cond, body, j), conds) == Trace(While(cond, body, 0), [], true)
  {
    assert PlanStep(While(cond, body, j), conds[0]) == Plan(While(cond, body, 0), Complete);
  }

  /** One true test in front of a run that performs `body[j + 1..j + k]`
      performs `body[j]` first. */
  lemma {:induction false} WhileTrueStep(cond: string, body: seq<Prim>, j: nat, k: nat, conds: seq<bool>)
    requires 0 < k && j + k <= |body| && |conds| > 0 && conds[0]
    requires Drive(While(cond, body, j + 1), conds[1..]) == Trace(While(cond, body, 0), body[j + 1..j + k], true)
    ensures Drive(While(cond, body, j), conds) == Trace(While(cond, body, 0), body[j..j + k], true)
  {
    WhileRunStep(cond, body, j, conds);
    ConsSlice(body, j, j + k);
    PrependTrace([body[j]], body[j + 1..j + k], While(cond, body, 0));
  }

  /** Dropping the first of `k` true tests leaves `k - 1` of them. */
  lemma {:induction false} TestsAfterOne(conds: seq<bool>, k: nat)
    requires 0 < k < |conds| && !conds[k]
    requires forall i | 0 <= i < k :: conds[i]
    ensures |conds[1..]| > k - 1 && !conds[1..][k - 1]
    ensures forall i | 0 <= i < k - 1 :: conds[1..][i]
  {
  }

  lemma {:induction false} PrependTrace(a: seq<Prim>, b: seq<Prim>, node: Cmd)
    ensures Prepend(a, Trace(node, b, true)) == Trace(node, a + b, true)
  {
  }

  /** A `while` node tested true `n * (|body| + 1) + k` times and then false
      performs `n` whole passes and the first `k` commands of one more. */
  lemma {:induction false} WhileRuns(c: Cmd, n: nat, k: nat, conds: seq<bool>)
    requires c.While? && c.cursor == 0 && k <= |c.body|
    requires |conds| > n * (|c.body| + 1) + k
    requires forall i | 0 <= i < n * (|c.body| + 1) + k :: conds[i]
    requires !conds[n * (|c.body| + 1) + k]
    ensures Drive(c, conds) == Trace(c, Repeat(c.body, n) + c.body[..k], true)
  {
    WhilePasses(c.cond, c.body, n, k, conds);
  }

  lemma {:induction false} WhilePasses(cond: string, body: seq<Prim>, n: nat, k: nat, conds: seq<bool>)
    requires k <= |body|
    requires |conds| > n * (|body| + 1) + k
    requires forall i | 0 <= i < n * (|body| + 1) + k :: conds[i]
    requires !conds[n * (|body| + 1) + k]
    ensures Drive(While(cond, body, 0), conds) == Trace(While(cond, body, 0), Repeat(body, n) + body[..k], true)
    decreases n
  {
    var len := |body| + 1;
    if n == 0 {
      WhileStopsAtFalse(cond, body, 0, k, conds);
      assert body[0..k] == body[..k];
    } else {
      TestsAfterPass(conds, n, len, k);
      WhileWholePass(cond, body, conds);
      WhilePasses(cond, body, n - 1, k, conds[len..]);
      RepeatThenPart(body, n, body[..k]);
      PrependTrace(body, Repeat(body, n - 1) + body[..k], While(cond, body, 0));
    }
  }

  /** With `|body| + 1` true tests a `while` node at the start of a pass
      performs its body and is back at the start. */
  lemma {:induction false} WhileWholePass(cond: string, body: seq<Prim>, conds: seq<bool>)
    requires |conds| > |body| + 1
    requires forall i | 0 <= i <= |body| :: conds[i]
    ensures Drive(While(cond, body, 0), conds)
            == Prepend(body, Drive(While(cond, body, 0), conds[|body| + 1..]))
  {
    WhileFinishesPass(cond, body, 0, conds);
    assert body[0..] == body;
  }

  /** Dropping one pass's tests leaves one pass fewer of true tests. */
  lemma {:induction false} TestsAfterPass(conds: seq<bool>, n: nat, len: nat, k: nat)
    requires n > 0 && |conds| > n * len + k
    requires forall i | 0 <= i < n * len + k :: conds[i]
    requires !conds[n * len + k]
    ensures len <= |conds|
    ensures |conds[len..]| > (n - 1) * len + k && !conds[len..][(n - 1) * len + k]
    ensures forall i | 0 <= i < (n - 1) * len + k :: conds[len..][i]
  {
    MulPred(n, len);
  }

  lemma {:induction false} RepeatThenPart(body: seq<Prim>, n: nat, part: seq<Prim>)
    requires n > 0
    ensures body + (Repeat(body, n - 1) + part) == Repeat(body, n) + part
  {
  }

  lemma {:induction false} MulPred(n: int, m: int)
    ensures n * m == (n - 1) * m + m
  {
  }

  // ------------------------------------------------------------- do-while

  /** The `while` node a started `do_while` node behaves like. */
  function AsWhile(c: Cmd): (w: Cmd)
    requires c.DoWhile?
  {
    While(c.cond, c.body, c.cursor)
  }

  /** The first step of a `do_while` node ignores the condition. */
  lemma {:induction false} DoWhileIgnoresFirstTest(c: Cmd, holds: bool)
    requires c.DoWhile? && c.first
    ensures PlanStep(c, holds) == PlanStep(c, true)
    ensures !PlanStep(c, holds).node.first
    ensures PlanStep(c, holds).action != Complete
  {
  }

  /** Once started, a `do_while` node steps exactly like a `while` node over
      the same body and cursor, and leaving it re-arms `first`. */
  lemma {:induction false} DoWhileStepsLikeWhile(c: Cmd, holds: bool)
    requires c.DoWhile? && !c.first
    ensures PlanStep(c, holds).action == PlanStep(AsWhile(c), holds).action
    ensures PlanStep(c, holds).action == Complete ==> PlanStep(c, holds).node == c.Reset()
    ensures PlanStep(c, holds).action != Complete ==>
              var n := PlanStep(c, holds).node;
              !n.first && AsWhile(n) == PlanStep(AsWhile(c), holds).node
  {
  }

  /** Over any number of steps a started `do_while` node performs what the
      corresponding `while` node performs, and completes exactly when it does. */
  lemma {:induction false} DoWhileDrivesLikeWhile(c: Cmd, conds: seq<bool>)
    requires c.DoWhile? && !c.first
    ensures Drive(c, conds).performed == Drive(AsWhile(c), conds).performed
    ensures Drive(c, conds).completed == Drive(AsWhile(c), conds).completed
    ensures Drive(c, conds).completed ==> Drive(c, conds).node == c.Reset()
    ensures !Drive(c, conds).completed ==>
              !Drive(c, conds).node.first && AsWhile(Drive(c, conds).node) == Drive(AsWhile(c), conds).node
    decreases |conds|
  {
    if |conds| > 0 {
      DoWhileStepsLikeWhile(c, conds[0]);
      var p := PlanStep(c, conds[0]);
      match p.action
      case Run(_) =>
        assert AsWhile(Advance(p.node)) == Advance(PlanStep(AsWhile(c), conds[0]).node);
        DoWhileDrivesLikeWhile(Advance(p.node), conds[1..]);
      case Idle =>
        DoWhileDrivesLikeWhile(p.node, conds[1..]);
      case Complete =>
    }
  }

  /** A fresh `do_while` node whose condition is false at its second step
      has performed only its first body command: the body is not guaranteed
      a whole pass, only its first command. */
  lemma {:induction false} DoWhileFalseRunsFirstCommandOnly(c: Cmd, conds: seq<bool>)
    requires c.DoWhile? && c.Fresh() && |c.body| >= 1
    requires |conds| >= 2 && !conds[1]
    ensures Drive(c, conds) == Trace(c, [c.body[0]], true)
  {
    var c1 := DoWhile(c.cond, c.body, 1, false);
    assert PlanStep(c, conds[0]) == Plan(DoWhile(c.cond, c.body, 0, false), Run(c.body[0]));
    assert Advance(DoWhile(c.cond, c.body, 0, false)) == c1;
    assert PlanStep(c1, conds[1]) == Plan(c, Complete);
    assert conds[1..][0] == conds[1];
  }

  // ------------------------------------------------------------------ for

  /** Number of passes of a counted loop from `current` up to `end`
      inclusive: the values `current`, `current + step`, ... that are `<= end`. */
  function Passes(current: int, end: int, step: int): nat
    requires step > 0
    decreases if current > end then 0 else end - current + 1
  {
    if current > end then 0 else 1 + Passes(current + step, end, step)
  }

  /** The number of passes in closed form. */
  lemma {:induction false} PassesClosedForm(current: int, end: int, step: int)
    requires step > 0
    ensures Passes(current, end, step) == if current > end then 0 else (end - current) / step + 1
    decreases if current > end then 0 else end - current + 1
  {
    if current <= end {
      PassesClosedForm(current + step, end, step);
      if current + step <= end {
        DivShift(end - current - step, step);
        assert end - current - step + step == end - current;
      } else {
        DivSmall(end - current, step);
      }
    }
  }

  lemma {:induction false} DivSmall(x: int, s: int)
    requires 0 <= x < s
    ensures x / s == 0
  {
  }

  /** Adding the divisor adds one to the quotient. */
  lemma {:induction false} DivShift(x: int, s: int)
    requires x >= 0 && s > 0
    ensures (x + s) / s == x / s + 1
  {
    var q, r := x / s, x % s;
    assert x == q * s + r;
    assert x + s == (q + 1) * s + r;
    DivUnique(x + s, s, q + 1, r);
  }

  lemma {:induction false} DivUnique(x: int, s: int, q: int, r: int)
    requires s > 0 && 0 <= r < s && x == q * s + r
    ensures x / s == q
  {
    var q', r' := x / s, x % s;
    assert x == q' * s + r';
    var d := q - q';
    assert d * s == r' - r by {
      MulPred(q, s);
      assert q * s - q' * s == (q - q') * s;
    }
    if d >= 1 {
      MulAtLeast(d, s);
    } else if d <= -1 {
      MulAtLeast(-d, s);
    }
  }

  lemma {:induction false} MulAtLeast(d: int, s: int)
    requires d >= 1 && s > 0
    ensures d * s >= s
  {
    assert d * s == (d - 1) * s + s;
    assert (d - 1) * s >= 0;
  }

  /** The textbook example: from 1 to 5 in steps of 2 is three passes. */
  lemma {:induction false} ThreePassesFromOneToFiveByTwo()
    ensures Passes(1, 5, 2) == 3
  {
    PassesClosedForm(1, 5, 2);
  }

  /** A `for` node whose counter has not passed its end, with its cursor
      inside the body, performs the command under the cursor. */
  lemma {:induction false} ForRunStep(v: string, a: int, z: int, s: int, cur: int, body: seq<Prim>, k: nat, conds: seq<bool>)
    requires cur <= z && k < |body| && |conds| > 0
    ensures Drive(For(v, a, z, s, cur, body, k), conds)
            == Prepend([body[k]], Drive(For(v, a, z, s, cur, body, k + 1), conds[1..]))
  {
    var c := For(v, a, z, s, cur, body, k);
    assert PlanStep(c, conds[0]) == Plan(c, Run(body[k]));
    RunStep(c, conds, body[k], For(v, a, z, s, cur, body, k + 1));
  }

  /** At the end of its body it spends a step adding `step` and rewinding. */
  lemma {:induction false} ForRewindStep(v: string, a: int, z: int, s: int, cur: int, body: seq<Prim>, conds: seq<bool>)
    requires cur <= z && |conds| > 0
    ensures Drive(For(v, a, z, s, cur, body, |body|), conds)
            == Drive(For(v, a, z, s, cur + s, body, 0), conds[1..])
  {
    IdleStep(For(v, a, z, s, cur, body, |body|), conds, For(v, a, z, s, cur + s, body, 0));
  }

  /** With `current <= end`, a `for` node finishes its pass: the rest of the
      body, then one step that adds `step` to `current` and rewinds. */
  lemma {:induction false} ForFinishesPass(v: string, a: int, z: int, s: int, cur: int, body: seq<Prim>, k: nat,
                                           conds: seq<bool>)
    requires cur <= z && k <= |body| && |conds| > |body| - k
    ensures Drive(For(v, a, z, s, cur, body, k), conds)
            == Prepend(body[k..], Drive(For(v, a, z, s, cur + s, body, 0), conds[|body| - k + 1..]))
    decreases |body| - k
  {
    var m := |body| - k;
    if k < |body| {
      ForRunStep(v, a, z, s, cur, body, k, conds);
      ForFinishesPass(v, a, z, s, cur, body, k + 1, conds[1..]);
      assert conds[1..][m..] == conds[m + 1..];
      PrependCons(body, k, Drive(For(v, a, z, s, cur + s, body, 0), conds[m + 1..]));
    } else {
      ForRewindStep(v, a, z, s, cur, body, conds);
      assert body[k..] == [];
      assert conds[1..] == conds[m + 1..];
    }
  }

  /** A `for` node at the start of a pass with a positive step performs the
      body exactly `Passes` times, completes on the step after, and keeps the
      counter value that ended it. */
  lemma {:induction false} ForRuns(v: string, a: int, z: int, s: int, cur: int, body: seq<Prim>, conds: seq<bool>)
    requires s > 0
    requires |conds| > Passes(cur, z, s) * (|body| + 1)
    ensures var n := Passes(cur, z, s);
            Drive(For(v, a, z, s, cur, body, 0), conds)
            == Trace(For(v, a, z, s, cur + n * s, body, 0), Repeat(body, n), true)
    decreases if cur > z then 0 else z - cur + 1
  {
    if cur > z {
      ForEndStep(v, a, z, s, cur, body, conds);
    } else {
      var m := Passes(cur + s, z, s);
      MulPred(m + 1, |body| + 1);
      ForRuns(v, a, z, s, cur + s, body, conds[|body| + 1..]);
      ForPassThen(v, a, z, s, cur, body, m, conds);
    }
  }

  /** Past its end, a `for` node at the start of a pass completes at once. */
  lemma {:induction false} ForEndStep(v: string, a: int, z: int, s: int, cur: int, body: seq<Prim>, conds: seq<bool>)
    requires cur > z && |conds| > 0
    ensures Drive(For(v, a, z, s, cur, body, 0), conds) == Trace(For(v, a, z, s, cur, body, 0), [], true)
  {
    assert PlanStep(For(v, a, z, s, cur, body, 0), conds[0]) == Plan(For(v, a, z, s, cur, body, 0), Complete);
  }

  /** One pass in front of `m` more passes makes `m + 1` passes. */
  lemma {:induction false} ForPassThen(v: string, a: int, z: int, s: int, cur: int, body: seq<Prim>, m: nat, conds: seq<bool>)
    requires cur <= z && |conds| > |body|
    requires Drive(For(v, a, z, s, cur + s, body, 0), conds[|body| + 1..])
             == Trace(For(v, a, z, s, cur + s + m * s, body, 0), Repeat(body, m), true)
    ensures Drive(For(v, a, z, s, cur, body, 0), conds)
            == Trace(For(v, a, z, s, cur + (m + 1) * s, body, 0), Repeat(body, m + 1), true)
  {
    ForFinishesPass(v, a, z, s, cur, body, 0, conds);
    assert body[0..] == body;
    MulPred(m + 1, s);
    PrependTrace(body, Repeat(body, m), For(v, a, z, s, cur + s + m * s, body, 0));
  }

  /** With a step that is not positive, a `for` node whose counter has not
      passed its end never completes. */
  lemma {:induction false} ForNonPositiveStepNeverEnds(c: Cmd, conds: seq<bool>)
    requires c.For? && c.step <= 0 && c.current <= c.end
    ensures !Drive(c, conds).completed
    decreases |conds|
  {
    if |conds| > 0 {
      var p := PlanStep(c, conds[0]);
      if p.action.Run? {
        ForNonPositiveStepNeverEnds(Advance(p.node), conds[1..]);
      } else {
        ForNonPositiveStepNeverEnds(p.node, conds[1..]);
      }
    }
  }

  // ------------------------------------------------------------------- if

  /** The branch an `if` node's first step picks when its condition is `holds`. */
  function Chosen(c: Cmd, holds: bool): Branch
    requires c.If?
  {
    if holds then ThenBranch else if |c.elseBody| > 0 then ElseBranch else Neither
  }

  /** The body the chosen branch drives (nothing when neither is chosen). */
  function ChosenBody(c: Cmd, holds: bool): seq<Prim>
    requires c.If?
  {
    if holds then c.thenBody else c.elseBody
  }

  /** A `then` branch with its cursor inside it performs the command under
      the cursor, whatever the condition. */
  lemma {:induction false} IfThenRunStep(cond: string, tb: seq<Prim>, eb: seq<Prim>, tc: nat, ec: nat, conds: seq<bool>)
    requires tc < |tb| && |conds| > 0
    ensures Drive(If(cond, tb, eb, tc, ec, true, ThenBranch), conds)
            == Prepend([tb[tc]], Drive(If(cond, tb, eb, tc + 1, ec, true, ThenBranch), conds[1..]))
  {
    var c := If(cond, tb, eb, tc, ec, true, ThenBranch);
    assert PlanStep(c, conds[0]) == Plan(c, Run(tb[tc]));
    RunStep(c, conds, tb[tc], If(cond, tb, eb, tc + 1, ec, true, ThenBranch));
  }

  /** The same for an `else` branch. */
  lemma {:induction false} IfElseRunStep(cond: string, tb: seq<Prim>, eb: seq<Prim>, tc: nat, ec: nat, conds: seq<bool>)
    requires ec < |eb| && |conds| > 0
    ensures Drive(If(cond, tb, eb, tc, ec, true, ElseBranch), conds)
            == Prepend([eb[ec]], Drive(If(cond, tb, eb, tc, ec + 1, true, ElseBranch), conds[1..]))
  {
    var c := If(cond, tb, eb, tc, ec, true, ElseBranch);
    assert PlanStep(c, conds[0]) == Plan(c, Run(eb[ec]));
    RunStep(c, conds, eb[ec], If(cond, tb, eb, tc, ec + 1, true, ElseBranch));
  }

  /** A decided `then` branch runs to its end and completes on the next step. */
  lemma {:induction false} IfThenFinishes(cond: string, tb: seq<Prim>, eb: seq<Prim>, tc: nat, ec: nat, conds: seq<bool>)
    requires tc <= |tb| && |conds| > |tb| - tc
    ensures Drive(If(cond, tb, eb, tc, ec, true, ThenBranch), conds)
            == Trace(If(cond, tb, eb, 0, ec, false, ThenBranch), tb[tc..], true)
    decreases |tb| - tc
  {
    var done := If(cond, tb, eb, 0, ec, false, ThenBranch);
    if tc < |tb| {
      IfThenFinishes(cond, tb, eb, tc + 1, ec, conds[1..]);
      IfThenRunStep(cond, tb, eb, tc, ec, conds);
      PrependTrace([tb[tc]], tb[tc + 1..], done);
      assert [tb[tc]] + tb[tc + 1..] == tb[tc..];
    } else {
      assert PlanStep(If(cond, tb, eb, tc, ec, true, ThenBranch), conds[0]) == Plan(done, Complete);
      assert tb[tc..] == [];
    }
  }

  /** A decided `else` branch runs to its end and completes on the next step. */
  lemma {:induction false} IfElseFinishes(cond: string, tb: seq<Prim>, eb: seq<Prim>, tc: nat, ec: nat, conds: seq<bool>)
    requires ec <= |eb| && |conds| > |eb| - ec
    ensures Drive(If(cond, tb, eb, tc, ec, true, ElseBranch), conds)
            == Trace(If(cond, tb, eb, tc, 0, false, ElseBranch), eb[ec..], true)
    decreases |eb| - ec
  {
    var done := If(cond, tb, eb, tc, 0, false, ElseBranch);
    if ec < |eb| {
      IfElseFinishes(cond, tb, eb, tc, ec + 1, conds[1..]);
      IfElseRunStep(cond, tb, eb, tc, ec, conds);
      PrependTrace([eb[ec]], eb[ec + 1..], done);
      assert [eb[ec]] + eb[ec + 1..] == eb[ec..];
    } else {
      assert PlanStep(If(cond, tb, eb, tc, ec, true, ElseBranch), conds[0]) == Plan(done, Complete);
      assert eb[ec..] == [];
    }
  }

  /** Before its end a decided `then` branch is still running. */
  lemma {:induction false} IfThenRunning(cond: string, tb: seq<Prim>, eb: seq<Prim>, tc: nat, ec: nat, conds: seq<bool>)
    requires tc + |conds| <= |tb|
    ensures Drive(If(cond, tb, eb, tc, ec, true, ThenBranch), conds)
            == Trace(If(cond, tb, eb, tc + |conds|, ec, true, ThenBranch), tb[tc..tc + |conds|], false)
    decreases |conds|
  {
    if |conds| > 0 {
      IfThenRunning(cond, tb, eb, tc + 1, ec, conds[1..]);
      IfThenRunStep(cond, tb, eb, tc, ec, conds);
      ConsSlice(tb, tc, tc + |conds|);
    } else {
      assert tb[tc..tc] == [];
    }
  }

  /** Before its end a decided `else` branch is still running. */
  lemma {:induction false} IfElseRunning(cond: string, tb: seq<Prim>, eb: seq<Prim>, tc: nat, ec: nat, conds: seq<bool>)
    requires ec + |conds| <= |eb|
    ensures Drive(If(cond, tb, eb, tc, ec, true, ElseBranch), conds)
            == Trace(If(cond, tb, eb, tc, ec + |conds|, true, ElseBranch), eb[ec..ec + |conds|], false)
    decreases |conds|
  {
    if |conds| > 0 {
      IfElseRunning(cond, tb, eb, tc, ec + 1, conds[1..]);
      IfElseRunStep(cond, tb, eb, tc, ec, conds);
      ConsSlice(eb, ec, ec + |conds|);
    } else {
      assert eb[ec..ec] == [];
    }
  }

  /** A decided `if` node performs the rest of its branch, one command per
      step, ignoring the condition, and completes on the following step with
      that branch's cursor rewound and `executed` cleared. */
  lemma {:induction false} IfFinishesBranch(c: Cmd, conds: seq<bool>)
    requires c.If? && c.executed
    requires ActiveCursor(c) <= |ActiveBody(c)|
    requires |conds| > |ActiveBody(c)| - ActiveCursor(c)
    ensures Drive(c, conds).completed
    ensures Drive(c, conds).performed == ActiveBody(c)[ActiveCursor(c)..]
    ensures Drive(c, conds).node
            == If(c.cond, c.thenBody, c.elseBody,
                  if c.branch == ElseBranch then c.thenCursor else 0,
                  if c.branch == ElseBranch then 0 else c.elseCursor,
                  false, c.branch)
  {
    match c.branch
    case ThenBranch =>
      IfThenFinishes(c.cond, c.thenBody, c.elseBody, c.thenCursor, c.elseCursor, conds);
    case ElseBranch =>
      IfElseFinishes(c.cond, c.thenBody, c.elseBody, c.thenCursor, c.elseCursor, conds);
    case Neither =>
      assert PlanStep(c, conds[0]).action == Complete;
  }

  /** A fresh `if` node performs exactly the body its first test selects, and
      completes on step n + 1 for a branch of n commands (step 1 when no
      branch is taken); it ends with cursors rewound and `executed` cleared,
      remembering only the branch it took. */
  lemma {:induction false} IfRuns(c: Cmd, conds: seq<bool>)
    requires c.If? && c.Fresh()
    requires |conds| > 0 && |conds| > |ChosenBody(c, conds[0])|
    ensures Drive(c, conds)
            == Trace(If(c.cond, c.thenBody, c.elseBody, 0, 0, false, Chosen(c, conds[0])),
                     ChosenBody(c, conds[0]), true)
  {
    var d := If(c.cond, c.thenBody, c.elseBody, 0, 0, true, Chosen(c, conds[0]));
    assert PlanStep(c, conds[0]) == PlanStep(d, conds[0]);
    assert Drive(c, conds) == Drive(d, conds);
    IfFinishesBranch(d, conds);
    assert ActiveBody(d)[0..] == ChosenBody(c, conds[0]);
  }

  /** Before that last step an `if` node has not completed. */
  lemma {:induction false} IfBranchStillRunning(c: Cmd, conds: seq<bool>)
    requires c.If? && c.executed && c.branch != Neither
    requires ActiveCursor(c) + |conds| <= |ActiveBody(c)|
    ensures !Drive(c, conds).completed
    ensures Drive(c, conds).performed == ActiveBody(c)[ActiveCursor(c)..ActiveCursor(c) + |conds|]
  {
    if c.branch == ThenBranch {
      IfThenRunning(c.cond, c.thenBody, c.elseBody, c.thenCursor, c.elseCursor, conds);
    } else {
      IfElseRunning(c.cond, c.thenBody, c.elseBody, c.thenCursor, c.elseCursor, conds);
    }
  }

}
