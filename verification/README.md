# Robot executor: a Dafny model

This project models the core of `RobotExecutor` (robot_executor.py), an
interpreter for a small Russian-keyword robot language on a square grid:

- the **parser** (`parse_program` and its helpers). It turns the editor text
  into indent-tagged lines and matches every block opener (`нц пока`, `нц`,
  `нц для`, `если`) with its closer purely by indentation and keyword. The
  result is a flat command list whose loop and `если` bodies hold only the
  five primitives (`вверх`, `вниз`, `влево`, `вправо`, `закрасить`);
- the **grid world**: `check_condition`, `move_robot`, `mark_cell`,
  `clear_grid`, `resize_grid` and the wall-toggle / robot-placing click;
- the four **resumable steppers** (`execute_while_loop`,
  `execute_do_while_loop`, `execute_for_loop`, `execute_if_statement`).
  Each call performs at most one primitive and keeps its progress in the
  command node;
- the **driver** (`start_execution`, `execute_step`, `execute_next_command`,
  `execute_command`, `execute_simple_command`). One step either stops the
  run, runs one primitive, or takes one step of a compound command.

Everything is pure. Exceptions become values: `Result` with a `ParseError`
or a `StartError` for the parser and the start, and a `Fault` outcome for a
primitive that raises while running. The QTimer is a fuel-bounded
`Engine.Run`.

Modules, in dependency order:

- `Results`: the `Option`/`Result` wrappers.
- `Text`: strip, split, words, `int()`.
- `TextLemmas`: their round trips.
- `Grid`: the world.
- `GridLemmas`: properties of the world.
- `Commands`: the command tree.
- `Parser`.
- `Render`: a printer for command lists, whose whole purpose is to be the
  parser's inverse, proved as such.
- `Stepper`: the four steppers split into a bookkeeping half and a
  cursor-bump half.
- `LoopRuns`: what the steppers do over many steps.
- `Engine`: the driver.
- `EngineLemmas`: whole runs.

A stepper in the source does its bookkeeping, then runs one primitive (which
may raise), then bumps a cursor. `Stepper.PlanStep` is the part before the
primitive and `Stepper.Advance` the part after it. So a primitive that
raises leaves exactly the bookkeeping the source leaves
(`EngineLemmas.DoWhileFaultKeepsBookkeeping`).

Behaviours of the code that a reader might not expect, modelled as written:

- The docstring of `execute_do_while_loop` (robot_executor.py:833) says the
  body runs at least once before the condition is checked. The code checks
  the condition on every step after the first, so a `do_while` whose
  condition is false at its second step has run only the first body command,
  not a whole pass (`LoopRuns.DoWhileFalseRunsFirstCommandOnly`).
- `move_robot` sets the facing before it checks the target, so a blocked
  move still turns the robot before raising (robot_executor.py:873-895;
  `Grid.Move`, `GridLemmas.MoveAvoidsWalls`).
- The wall toggle of the click handler does not look at the robot's
  position, so it can put a wall under the robot (robot_executor.py:946-951;
  `GridLemmas.ToggleCanWallTheRobot`). "The robot never stands on a wall" is
  therefore not an invariant of the source.
- The `нц для` header with exactly six words, or eight words with `шаг` as
  the seventh, indexes past the end of the word list and raises. This is the
  `MissingForToken` error.

## Model

| member | source | states |
|---|---|---|
| Grid.InitialWorld | robot_executor.py:82-88 | a new executor's world is a valid 15 by 15 grid whose every cell is empty, with the robot at (0, 0) facing right |
| Grid.CheckCondition | robot_executor.py:675-690 | an identifier outside the eight known ones evaluates to false |
| GridLemmas.WallIsNotFree | robot_executor.py:675-690 | each `X_wall` test is exactly the negation of the matching `X_free` test |
| GridLemmas.FreeIffMoveSucceeds | robot_executor.py:675-690 | `X_free` holds exactly when `move_robot` in direction X would succeed |
| GridLemmas.EdgeCountsAsWall | robot_executor.py:675-690 | a neighbour off the grid counts as a wall and not as free |
| GridLemmas.WallCellCountsAsWall | robot_executor.py:675-690 | a wall cell next to the robot is reported by the wall test |
| Grid.Move | robot_executor.py:873-895 | the facing is always the attempted direction; the position changes by one cell exactly when the target is on the grid and not a wall, and is unchanged otherwise; the grid is untouched |
| GridLemmas.MoveAvoidsWalls | robot_executor.py:873-895 | a successful move never lands on a wall; a failed one differs from the old world only in the facing |
| Grid.Mark | robot_executor.py:897-899 | the robot's cell becomes marked if it was empty and is otherwise kept; every other cell and the robot are unchanged |
| GridLemmas.MarkIdempotent | robot_executor.py:897-899 | marking twice is marking once |
| GridLemmas.MarkOnlyPaintsEmpty | robot_executor.py:897-899 | marking never creates or removes a wall, and only ever turns an empty cell into a marked one |
| Grid.Clear | robot_executor.py:409-415 | every cell is empty and the robot is back at the corner facing right, at the same size |
| Grid.Resize | robot_executor.py:417-421 | the grid is empty at the new size; the robot keeps its place and facing when the place is still on the grid and goes to the corner otherwise |
| Grid.Click | robot_executor.py:945-955 | in wall mode the clicked cell toggles empty/wall (a marked cell is kept) and nothing else changes; otherwise the robot moves there unless it is a wall; clicks off the grid do nothing |
| GridLemmas.ToggleTwice | robot_executor.py:946-951 | toggling an empty or wall cell twice restores the world |
| GridLemmas.ToggleCanWallTheRobot | robot_executor.py:946-951 | the toggle can wall the robot's own cell |
| GridLemmas.PlaceAvoidsWalls | robot_executor.py:952-955 | placing the robot by a click keeps it off walls |
| Commands.PrimOfKeyword | robot_executor.py:454-463 | a line is recognised as a primitive exactly when it is that primitive's keyword |
| Parser.NormalizeLines | robot_executor.py:427-443 | no more lines survive than were split off, and every surviving line is non-empty, stripped and not a comment (a line starting with a vertical bar) |
| Parser.NormalizeLinesOne | robot_executor.py:427-443 | one raw line is dropped exactly when it is blank or starts with a vertical bar after stripping, and is otherwise kept as its stripped text tagged with its count of leading whitespace |
| Parser.NormalizeLinesAppend | robot_executor.py:427-443 | the lines are handled one by one in order: normalising two runs of raw lines one after the other is normalising each |
| Parser.FindMarker | robot_executor.py:613-633 | the result is the first line in range at the opener's indentation that carries the closer (`кц`; `кц при…` or `кц`; `все`; `иначе`), and none means no such line exists |
| Parser.BodyTextsMembers | robot_executor.py:476-481 | a text is in a block's body lines exactly when some line strictly between opener and closer is indented deeper and carries it |
| Parser.BodyTextsSplit | robot_executor.py:476-481 | the body lines of a range are those of its first part followed by those of its second, so source order and repetitions are kept |
| Parser.BodyTextsOne | robot_executor.py:476-481 | a single line contributes its text exactly when it is indented deeper than the opener |
| Parser.BodyTextsAllDeeper | robot_executor.py:476-481 | when every line of the range is deeper than the opener, the body lines are the range's texts, one per line, in order |
| Parser.ParseBodyMembers | robot_executor.py:635-656 | a primitive is in a parsed body exactly when its keyword is one of the body lines, so nested blocks are flattened to their primitives |
| Parser.ParseBodyAppend | robot_executor.py:635-656 | the body lines are parsed one by one in order: parsing two runs of lines one after the other is parsing each |
| Parser.ParseBodyOne | robot_executor.py:635-656 | one body line yields its primitive when it is a primitive keyword and nothing otherwise |
| Parser.NestedBlockFlattened | robot_executor.py:466-491 | an `нц … кц при` nested in an `нц пока` loses its opener and closer, and its primitive stays in source order among the outer body's primitives |
| Parser.ParseCondition | robot_executor.py:658-673 | a known phrase gives a known identifier and any other text is returned stripped and unchanged |
| Render.ParseConditionOfPhrase | robot_executor.py:658-673 | each of the eight phrases maps back to exactly its identifier |
| Parser.BareCloserCondition | robot_executor.py:499-500 | an `нц` block closed by a bare `кц` gets the condition text `кц` |
| Parser.ParseForHeader | robot_executor.py:521-534 | a header is accepted only with `для`/`от`/`до` at words 1/3/5 and numbers at 4 and 6; the step is word 8 after `шаг` and 1 otherwise; it is rejected as malformed exactly when it is short or a keyword is misplaced, and as missing a word exactly in the six-word and eight-word-with-`шаг` cases; it is accepted exactly when the keywords are in place, words 4 and 6 are numbers, and word 8 is a number whenever word 7 is `шаг`; it never reports an unclosed block |
| Render.ParseHeaderWithoutStep | robot_executor.py:521-534 | a seven-word header without `шаг` reads back with its counter and bounds and step 1 |
| Render.ParseForLine | robot_executor.py:521-558 | every header the printer writes reads back as the same counter, bounds and step |
| Parser.WhileAt | robot_executor.py:466-491 | a `нц пока` block fails exactly when no `кц` at its indentation follows, and then with that error; otherwise parsing resumes right after the first such `кц`, and the node is a `while` whose condition comes from the opener text and whose body is parsed from the deeper lines in between |
| Parser.DoWhileAt | robot_executor.py:493-519 | the same for `нц`, closed by the first `кц при…` or `кц` at its indentation; the condition comes from that closing line and `first_execution` starts true |
| Parser.ForAt | robot_executor.py:521-558 | a header error is the result; otherwise it fails exactly when no `кц` at its indentation follows, and succeeds resuming right after the first one with a `for` node carrying the header's counter, bounds and step, `current` at the start and the body parsed from the deeper lines in between |
| Parser.IfAt | robot_executor.py:563-607 | an `если` block fails exactly when no `все` at its indentation follows; otherwise parsing resumes right after the first such `все` with the block built by `Parser.IfBlock` |
| Parser.IfBlock | robot_executor.py:563-607 | without an `иначе` at the block's indentation, the then-body is every deeper line up to the `все` and the else-body is empty; the node comes out undecided |
| Parser.IfAtWithElse | robot_executor.py:563-607 | with an `иначе` at the block's indentation, the then-body is the lines before it, the else-body the lines after it, and parsing resumes after the `все` |
| Parser.Parse | robot_executor.py:445-611 | a parse never yields more commands than lines, and every node comes out with its progress fields as created |
| Parser.ParseSkipsOtherLines | robot_executor.py:454-609 | a top-level line that is neither a primitive nor an opener is skipped without error |
| Parser.ParseFailsAtLine | robot_executor.py:471-473 | an error at any line is the result of the whole parse, with no partial command list |
| Parser.UnclosedWhileFails | robot_executor.py:471-473 | an unclosed `нц пока` fails the parse with the missing-`кц` error |
| Render.NormalizeToText | robot_executor.py:427-443 | splitting and stripping the printed text gives back exactly the printed lines with their indentation |
| Render.ParseRenderAll | robot_executor.py:424-611 | the parser inverts the printer on every command list with known conditions and one-word counters |
| Render.ParseProgramText | robot_executor.py:424-611 | `parse_program` reads a printed program back as the same commands |
| Render.ProgramTextTrimmed | robot_executor.py:693 | a printed program is non-empty and unchanged by the strip in `start_execution` |
| Stepper.WhilePlan | robot_executor.py:816-830 | a step of `while` yields a `while` node of the same program text |
| Stepper.DoWhilePlan | robot_executor.py:832-852 | a step of `do_while` yields a `do_while` node of the same program text |
| Stepper.ForPlan | robot_executor.py:854-871 | a step of `for` yields a `for` node of the same program text |
| Stepper.IfPlan | robot_executor.py:756-801 | a step of `если` yields an `если` node of the same text, which is decided unless it completed |
| Stepper.PlanStep | robot_executor.py:733-743 | a stepper never changes the program text, and any primitive it asks for is the one under the cursor of the body it drives |
| Stepper.Advance | robot_executor.py:756-871 | the cursor bump moves the active cursor by exactly one over the same body |
| LoopRuns.WhileFinishesPass | robot_executor.py:816-830 | with the condition true, a `while` node performs the rest of its body, one command per step, then spends one step rewinding |
| LoopRuns.WhileStopsAtFalse | robot_executor.py:816-830 | a false test ends the loop at once, even mid-pass, with the cursor reset |
| LoopRuns.WhileRuns | robot_executor.py:816-830 | `n` passes of true tests then `k` more and a false one perform the body `n` times and its first `k` commands |
| LoopRuns.DoWhileIgnoresFirstTest | robot_executor.py:834-836 | the first step of `do_while` ignores the condition, clears `first_execution` and does not complete |
| LoopRuns.DoWhileStepsLikeWhile | robot_executor.py:832-852 | once started, a `do_while` step acts as a `while` step does, and leaving re-arms `first_execution` |
| LoopRuns.DoWhileDrivesLikeWhile | robot_executor.py:832-852 | over any number of steps a started `do_while` performs and completes as the `while` over the same body |
| LoopRuns.DoWhileFalseRunsFirstCommandOnly | robot_executor.py:832-852 | a fresh `do_while` whose condition is false at its second step has performed only the first body command |
| LoopRuns.PassesClosedForm | robot_executor.py:854-871 | the number of passes of a counted loop is `(end - current) / step + 1`, or 0 when `current > end` |
| LoopRuns.ThreePassesFromOneToFiveByTwo | robot_executor.py:854-871 | from 1 to 5 with step 2 is three passes |
| LoopRuns.ForFinishesPass | robot_executor.py:854-871 | a `for` node performs the rest of its body, then adds `step` to `current` and rewinds |
| LoopRuns.ForRuns | robot_executor.py:854-871 | with a positive step the body runs exactly `Passes` times, then the loop completes leaving `current` past the end |
| LoopRuns.ForNonPositiveStepNeverEnds | robot_executor.py:854-871 | with a step of zero or less and `current <= end` the loop never completes |
| LoopRuns.IfFinishesBranch | robot_executor.py:768-792 | a decided `если` performs the rest of its branch, whatever the condition, then completes with that cursor reset and `executed` cleared |
| LoopRuns.IfRuns | robot_executor.py:756-801 | a fresh `если` performs exactly the branch its first test selects (then when true, else when false and non-empty, neither otherwise) and completes on the step after it |
| LoopRuns.IfBranchStillRunning | robot_executor.py:768-792 | before that last step the `если` has not completed |
| Engine.Exec | robot_executor.py:803-814 | a move is `move_robot`, and `закрасить` always succeeds as `mark_cell` |
| Engine.Step | robot_executor.py:719-754 | the index never decreases and moves by one only on a step that continues; past the end the run stops with the world untouched; a fault stops the run without moving the index or the robot; only the current node changes, and never its program text; on a primitive command the step faults exactly when the primitive raises, and otherwise the world is the primitive's result and the index moves to the next command |
| Engine.Run | robot_executor.py:725-731 | over many steps the index never decreases, the program text and grid size are kept, and a stopped run stays as it is |
| Engine.StartExecution | robot_executor.py:692-711 | an empty stripped text is refused; a run starts exactly when the stripped text parses to a non-empty list, and then runs exactly that list, at index 0, live, in the current world; a parse error is reported as that error, and an empty parse as no commands |
| EngineLemmas.StraightLineFrom | robot_executor.py:733-754 | from any index, a program of primitives does the rest in order and stops at the first failure or after the last command |
| EngineLemmas.StraightLineRun | robot_executor.py:733-754 | a program of primitives ends where doing them in order ends, and reaches its end exactly when all succeed |
| EngineLemmas.StepDrivesNode | robot_executor.py:733-743 | on a compound command the driver takes exactly one stepper step: it faults exactly when the requested primitive fails, and otherwise moves on only when the node completes |
| EngineLemmas.DoWhileFaultKeepsBookkeeping | robot_executor.py:834-846 | a fresh `do_while` whose first move fails stops the run with `first_execution` already cleared |
| EngineLemmas.WalkRightToWall | robot_executor.py:816-830 | `нц пока справа свободно / вправо / кц` with no wall ahead walks the robot to the right edge and ends there, within two steps per cell plus two |
| EngineLemmas.StartRendered | robot_executor.py:692-711 | any printed program starts a run of exactly that program |

## Left out

- The Qt user interface: `init_ui`, painting, `update_info`, the message
  boxes, and the `QTimer` with `change_speed`. One `Engine.Step` is the unit
  of execution, and `Engine.Run` takes the number of timer ticks as fuel.
- `stop_execution` only resets buttons and the timer; the model records it
  as `running == false`.
- The conversion from mouse pixels to cells in `mousePressEvent`. `Grid.Click`
  takes the cell coordinates.
- `RobotSyntaxHighlighter` and all of main_window.py (files, tabs, and the
  separate compiler it calls). main_window.py is not part of this model.
- The `variables` dictionary reset by `clear_grid`: nothing reads it.
- The nested-`если` dispatch inside the steppers. It is unreachable because
  bodies hold primitives only.
- Python's `int()` is modelled as an optional sign followed by ASCII digits.
  Underscores, other Unicode digits and surrounding whitespace are not
  modelled. Whitespace for `str.split()` and `str.strip()` is the set of
  characters Python's `str.isspace` accepts.
- `Render` prints only commands with one of the eight known condition
  phrases and a one-word counter. The round trip is proved for those.
  Conditions kept as raw text by `parse_condition` are outside it.
- Grid.Resize: requires the new side to be between 5 and 30, because its
  only caller is the size spin box with that range.
- Engine.Run: fuel-bounded, so it says nothing about a run that never stops
  (for example a `for` loop with a non-positive step).
- Parser.Parse: its own contract gives only bounds and freshness. The exact
  command each line produces is stated by the contracts of `Parser.WhileAt`,
  `Parser.DoWhileAt`, `Parser.ForAt`, `Parser.IfAt` and `Parser.IfBlock`, and
  whole programs by the round trip `Render.ParseRenderAll`.
- Engine.StartExecution: the source assigns `self.commands` before it checks
  for an empty list (robot_executor.py:699-702), so an empty parse replaces
  the previous command list while a parse error leaves it in place. The
  model returns no engine in either case and does not track the previous
  list.
- Stepper.WhilePlan, Stepper.DoWhilePlan, Stepper.ForPlan, Stepper.IfPlan:
  their contracts state only that the program text is kept. Their behaviour
  is stated over whole runs by the `LoopRuns` lemmas.
