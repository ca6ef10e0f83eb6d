/** The command tree the parser produces. Each compound node carries its own
    progress fields, which is what lets the interpreter resume it one step at
    a time (robot_executor.py, the dictionaries built by `parse_program`). */
module Commands {
  import opened Results
  import opened Grid

  /** The five primitive actions: the strings 'up', 'down', 'left', 'right'
      and 'mark' of the source. */
  datatype Prim = Go(dir: Direction) | Paint

  /** Which branch an `if` node chose on its first step; the source leaves
      the key absent or `None` for "neither". */
  datatype Branch = Neither | ThenBranch | ElseBranch

  /** Bodies hold primitives only: the body parser drops everything else. */
  datatype Cmd =
    | Simple(prim: Prim)
    | While(cond: string, body: seq<Prim>, cursor: nat)
    | DoWhile(cond: string, body: seq<Prim>, cursor: nat, first: bool)
    | For(counter: string, start: int, end: int, step: int, current: int, body: seq<Prim>, cursor: nat)
    | If(cond: string, thenBody: seq<Prim>, elseBody: seq<Prim>,
         thenCursor: nat, elseCursor: nat, executed: bool, branch: Branch)
  {
    predicate IsCompound() {
      !Simple?
    }

    /** The progress fields as the parser creates them. */
    predicate Fresh() {
      match this
      case Simple(_) => true
      case While(_, _, cursor) => cursor == 0
      case DoWhile(_, _, cursor, first) => cursor == 0 && first
      case For(_, start, _, _, current, _, cursor) => current == start && cursor == 0
      case If(_, _, _, thenCursor, elseCursor, executed, branch) =>
        thenCursor == 0 && elseCursor == 0 && !executed && branch == Neither
    }

    /** The same node with its progress fields as the parser creates them. */
    function Reset(): (c: Cmd)
      ensures c.Fresh()
    {
      match this
      case Simple(_) => this
      case While(c, b, _) => While(c, b, 0)
      case DoWhile(c, b, _, _) => DoWhile(c, b, 0, true)
      case For(v, a, z, s, _, b, _) => For(v, a, z, s, a, b, 0)
      case If(c, tb, eb, _, _, _, _) => If(c, tb, eb, 0, 0, false, Neither)
    }
  }

  /** Two nodes are the same program text, whatever their progress. */
  predicate SameShape(a: Cmd, b: Cmd) {
    a.Reset() == b.Reset()
  }

  /** The keyword for each primitive (the exact source lines recognised). */
  const KwUp: string := "вверх"
  const KwDown: string := "вниз"
  const KwLeft: string := "влево"
  const KwRight: string := "вправо"
  const KwMark: string := "закрасить"

  function Keyword(p: Prim): string {
    match p
    case Go(Up) => KwUp
    case Go(Down) => KwDown
    case Go(Left) => KwLeft
    case Go(Right) => KwRight
    case Paint => KwMark
  }

  /** The primitive a line spells, if any (the `if`/`elif` chain shared by
      `parse_program` and `parse_body_commands`). */
  function PrimOf(text: string): (r: Option<Prim>)
    ensures r.Some? ==> Keyword(r.value) == text
  {
    if text == KwUp then Some(Go(Up))
    else if text == KwDown then Some(Go(Down))
    else if text == KwLeft then Some(Go(Left))
    else if text == KwRight then Some(Go(Right))
    else if text == KwMark then Some(Paint)
    else None
  }

  /** `PrimOf` and `Keyword` are inverse: a line is a primitive exactly when
      it is that primitive's keyword. */
  lemma {:induction false} PrimOfKeyword(p: Prim, text: string)
    ensures PrimOf(text) == Some(p) <==> text == Keyword(p)
  {
  }
}
