/** The front end: `parse_program` and its helpers (robot_executor.py).
    Source text becomes indent-tagged lines, and the lines become a flat list
    of commands whose loop and `if` bodies hold primitives only. */
module Parser {
  import opened Results
  import opened Text
  import opened Grid
  import opened Commands
  import opened TextLemmas

  /** A surviving source line: its stripped text and the number of leading
      whitespace characters of the original line. */
  datatype Line = Line(text: string, indent: nat)

  /** Lines the parser keeps: non-empty after stripping, not a `|` comment. */
  predicate Kept(l: Line) {
    |l.text| > 0 && l.text[0] != '|' && Trimmed(l.text)
  }

  /** The per-line loop at the top of `parse_program`, over the pieces of
      `code.split('\n')`. */
  function NormalizeLines(raw: seq<string>): (r: seq<Line>)
    ensures |r| <= |raw|
    ensures forall i | 0 <= i < |r| :: Kept(r[i])
    decreases |raw|
  {
    if |raw| == 0 then []
    else
      var t := Strip(raw[0]);
      var rest := NormalizeLines(raw[1..]);
      if |t| == 0 || t[0] == '|' then rest else [Line(t, LeadingSpace(raw[0]))] + rest
  }

  function Normalize(code: string): seq<Line> {
    NormalizeLines(SplitLines(code))
  }

  // Block keywords.
  const WhileOpener: string := "нц пока"
  const DoWhileOpener: string := "нц"
  const ForOpener: string := "нц для"
  const IfOpener: string := "если"
  const IfThen: string := "то"
  const LoopCloser: string := "кц"
  const DoWhileCloser: string := "кц при"
  const IfCloser: string := "все"
  const ElseMarker: string := "иначе"
  // Words of the counted-loop header.
  const ForWord: string := "для"
  const FromWord: string := "от"
  const ToWord: string := "до"
  const StepWord: string := "шаг"

  /** The lines the forward scans look for. */
  datatype Marker = LoopEnd | DoWhileEnd | IfEnd | ElseAt

  /** Whether `l` is the marker `m` for a block opened at indentation `d`:
      same indentation, and the text `find_matching_kc_by_indent`,
      `find_matching_kc_pri_by_indent`, `find_matching_all_by_indent` or the
      `иначе` scan of `parse_program` accepts. */
  predicate Marks(l: Line, d: nat, m: Marker) {
    l.indent == d
    && match m
       case LoopEnd => l.text == LoopCloser
       case DoWhileEnd => StartsWith(l.text, DoWhileCloser) || l.text == LoopCloser
       case IfEnd => l.text == IfCloser
       case ElseAt => l.text == ElseMarker
  }

  /** The first index in `[from, to)` whose line is marker `m` at indent `d`. */
  function FindMarker(lines: seq<Line>, from: nat, to: nat, d: nat, m: Marker): (r: Option<nat>)
    requires from <= to <= |lines|
    ensures r.Some? ==> from <= r.value < to && Marks(lines[r.value], d, m)
    ensures r.Some? ==> forall j | from <= j < r.value :: !Marks(lines[j], d, m)
    ensures r.None? ==> forall j | from <= j < to :: !Marks(lines[j], d, m)
    decreases (to as int) - from
  {
    if from == to then None
    else if Marks(lines[from], d, m) then Some(from)
    else FindMarker(lines, from + 1, to, d, m)
  }

  /** Texts of the lines in `[from, to)` indented deeper than `d`, in order. */
  function BodyTexts(lines: seq<Line>, from: nat, to: nat, d: nat): (r: seq<string>)
    requires from <= to <= |lines|
    ensures |r| <= to - from
    decreases (to as int) - from
  {
    if from == to then []
    else
      var rest := BodyTexts(lines, from + 1, to, d);
      if lines[from].indent > d then [lines[from].text] + rest else rest
  }

  /** `parse_body_commands`: the primitive lines, in order; anything else,
      nested openers and closers included, is dropped. */
  function ParseBody(texts: seq<string>): (r: seq<Prim>)
    ensures |r| <= |texts|
    decreases |texts|
  {
    if |texts| == 0 then []
    else
      var rest := ParseBody(texts[1..]);
      match PrimOf(texts[0])
      case Some(p) => [p] + rest
      case None => rest
  }

  /** The eight condition phrases. */
  const RightFreePhrase: string := "справа свободно"
  const RightWallPhrase: string := "справа стена"
  const LeftFreePhrase: string := "слева свободно"
  const LeftWallPhrase: string := "слева стена"
  const TopFreePhrase: string := "сверху свободно"
  const TopWallPhrase: string := "сверху стена"
  const BottomFreePhrase: string := "снизу свободно"
  const BottomWallPhrase: string := "снизу стена"

  const Phrases: set<string> :=
    {RightFreePhrase, RightWallPhrase, LeftFreePhrase, LeftWallPhrase,
     TopFreePhrase, TopWallPhrase, BottomFreePhrase, BottomWallPhrase}

  /** `parse_condition`: a known phrase becomes its identifier, any other
      text is kept (stripped) as the identifier itself. */
  function ParseCondition(text: string): (id: string)
    ensures Strip(text) in Phrases ==> id in ConditionIds
    ensures Strip(text) !in Phrases ==> id == Strip(text)
  {
    var t := Strip(text);
    if t == RightFreePhrase then RightFree
    else if t == RightWallPhrase then RightWall
    else if t == LeftFreePhrase then LeftFree
    else if t == LeftWallPhrase then LeftWall
    else if t == TopFreePhrase then TopFree
    else if t == TopWallPhrase then TopWall
    else if t == BottomFreePhrase then BottomFree
    else if t == BottomWallPhrase then BottomWall
    else t
  }

  /** Why a program fails to parse. Each corresponds to an exception raised
      while parsing; none leaves a partial command list behind. */
  datatype ParseError =
    | Unclosed(closer: string)      // no matching closer line
    | BadForHeader                  // fewer than 6 words, or 'для'/'от'/'до' misplaced
    | MissingForToken               // `parts[6]` or `parts[8]` indexed past the end
    | BadNumber(token: string)      // `int()` rejects a bound or step

  datatype ForHeader = ForHeader(counter: string, start: int, end: int, step: int)

  function Number(tok: string): (r: Result<int, ParseError>)
    ensures r.Ok? <==> ParseInt(tok).Some?
    ensures r.Ok? ==> r.value == ParseInt(tok).value
  {
    match ParseInt(tok)
    case Some(n) => Ok(n)
    case None => Err(BadNumber(tok))
  }

  /** The header checks of the `нц для` branch, in the order the source
      makes them: the word positions, `int(parts[4])`, `int(parts[6])`, and
      `int(parts[8])` when word 7 is `шаг` (the step is 1 otherwise). */
  function ParseForHeader(text: string): (r: Result<ForHeader, ParseError>)
    ensures var parts := Words(text);
            r.Ok? ==> && |parts| >= 7
                      && parts[1] == ForWord && parts[3] == FromWord && parts[5] == ToWord
                      && r.value.counter == parts[2]
                      && ParseInt(parts[4]) == Some(r.value.start)
                      && ParseInt(parts[6]) == Some(r.value.end)
    ensures var parts := Words(text);
            r.Ok? ==> if |parts| > 7 && parts[7] == StepWord
                      then |parts| >= 9 && ParseInt(parts[8]) == Some(r.value.step)
                      else r.value.step == 1
    ensures var parts := Words(text);
            r == Err(BadForHeader)
            <==> |parts| < 6 || parts[1] != ForWord || parts[3] != FromWord || parts[5] != ToWord
    ensures var parts := Words(text);
            r == Err(MissingForToken)
            <==> && 6 <= |parts| && parts[1] == ForWord && parts[3] == FromWord && parts[5] == ToWord
                 && ParseInt(parts[4]).Some?
                 && (|parts| == 6 || (|parts| == 8 && parts[7] == StepWord && ParseInt(parts[6]).Some?))
    ensures var parts := Words(text);
            r.Ok? <==> && |parts| >= 7
                       && parts[1] == ForWord && parts[3] == FromWord && parts[5] == ToWord
                       && ParseInt(parts[4]).Some? && ParseInt(parts[6]).Some?
                       && (|parts| > 7 && parts[7] == StepWord ==> |parts| >= 9 && ParseInt(parts[8]).Some?)
    ensures r.Err? ==> !r.error.Unclosed?
  {
    var parts := Words(text);
    if |parts| < 6 || parts[1] != ForWord || parts[3] != FromWord || parts[5] != ToWord then
      Err(BadForHeader)
    else
      var start :- Number(parts[4]);
      if |parts| < 7 then Err(MissingForToken)
      else
        var end :- Number(parts[6]);
        if |parts| > 7 && parts[7] == StepWord then
          if |parts| < 9 then Err(MissingForToken)
          else
            var step :- Number(parts[8]);
            Ok(ForHeader(parts[2], start, end, step))
        else Ok(ForHeader(parts[2], start, end, 1))
  }

  /** The condition text of each opener: what is left of the line once the
      keywords are deleted with `str.replace` and the rest is stripped. */
  function WhileConditionText(opener: string): string {
    Strip(RemoveAll(opener, WhileOpener))
  }

  function DoWhileConditionText(closer: string): string {
    Strip(RemoveAll(closer, DoWhileCloser))
  }

  function IfConditionText(opener: string): string {
    Strip(RemoveAll(RemoveAll(opener, IfOpener), IfThen))
  }

  /** What one iteration of the main loop of `parse_program` produces: the
      command it appends, if any, and the index it continues from. */
  datatype Step = Step(node: Option<Cmd>, next: nat)

  predicate GoodStep(lines: seq<Line>, s: Step) {
    1 <= s.next <= |lines| && (s.node.Some? ==> s.node.value.Fresh())
  }

  /** The body of the block opened by `lines[0]` and closed at `e`. */
  function BlockBody(lines: seq<Line>, e: nat): seq<Prim>
    requires 0 < e <= |lines| && |lines| > 0
  {
    ParseBody(BodyTexts(lines, 1, e, lines[0].indent))
  }

  /** The `нц пока` branch. */
  function WhileAt(lines: seq<Line>): (r: Result<Step, ParseError>)
    requires |lines| > 0
    ensures r.Ok? ==> GoodStep(lines, r.value)
    ensures r.Err? <==> FindMarker(lines, 1, |lines|, lines[0].indent, LoopEnd).None?
    ensures r.Err? ==> r.error == Unclosed(LoopCloser)
    ensures r.Ok? ==> && 1 <= r.value.next
                      && FindMarker(lines, 1, |lines|, lines[0].indent, LoopEnd) == Some(r.value.next - 1)
                      && r.value.node == Some(While(ParseCondition(WhileConditionText(lines[0].text)),
                                                    BlockBody(lines, r.value.next - 1), 0))
  {
    match FindMarker(lines, 1, |lines|, lines[0].indent, LoopEnd)
    case None => Err(Unclosed(LoopCloser))
    case Some(e) =>
      Ok(Step(Some(While(ParseCondition(WhileConditionText(lines[0].text)), BlockBody(lines, e), 0)), e + 1))
  }

  /** The `нц` branch: the condition is read from the closing line. */
  function DoWhileAt(lines: seq<Line>): (r: Result<Step, ParseError>)
    requires |lines| > 0
    ensures r.Ok? ==> GoodStep(lines, r.value)
    ensures r.Err? <==> FindMarker(lines, 1, |lines|, lines[0].indent, DoWhileEnd).None?
    ensures r.Err? ==> r.error == Unclosed(DoWhileCloser)
    ensures r.Ok? ==> && 1 <= r.value.next
                      && FindMarker(lines, 1, |lines|, lines[0].indent, DoWhileEnd) == Some(r.value.next - 1)
                      && r.value.node == Some(DoWhile(ParseCondition(DoWhileConditionText(lines[r.value.next - 1].text)),
                                                      BlockBody(lines, r.value.next - 1), 0, true))
  {
    match FindMarker(lines, 1, |lines|, lines[0].indent, DoWhileEnd)
    case None => Err(Unclosed(DoWhileCloser))
    case Some(e) =>
      var cond := ParseCondition(DoWhileConditionText(lines[e].text));
      Ok(Step(Some(DoWhile(cond, BlockBody(lines, e), 0, true)), e + 1))
  }

  /** The `нц для` branch: the header is checked before the closer is
      looked for. */
  function ForAt(lines: seq<Line>): (r: Result<Step, ParseError>)
    requires |lines| > 0
    ensures r.Ok? ==> GoodStep(lines, r.value)
    ensures ParseForHeader(lines[0].text).Err? ==> r == Err(ParseForHeader(lines[0].text).error)
    ensures ParseForHeader(lines[0].text).Ok? ==>
              (r.Err? <==> FindMarker(lines, 1, |lines|, lines[0].indent, LoopEnd).None?)
              && (r.Err? ==> r.error == Unclosed(LoopCloser))
    ensures r.Ok? ==> && 1 <= r.value.next && ParseForHeader(lines[0].text).Ok?
                      && FindMarker(lines, 1, |lines|, lines[0].indent, LoopEnd) == Some(r.value.next - 1)
                      && var h := ParseForHeader(lines[0].text).value;
                         r.value.node == Some(For(h.counter, h.start, h.end, h.step, h.start,
                                                  BlockBody(lines, r.value.next - 1), 0))
  {
    var h :- ParseForHeader(lines[0].text);
    match FindMarker(lines, 1, |lines|, lines[0].indent, LoopEnd)
    case None => Err(Unclosed(LoopCloser))
    case Some(e) =>
      Ok(Step(Some(For(h.counter, h.start, h.end, h.step, h.start, BlockBody(lines, e), 0)), e + 1))
  }

  /** The `если` block opened by `lines[0]` and closed at `e`: the `иначе`
      line, if any, is the first one at the same indentation before `e`;
      without it the else body is empty. */
  function IfBlock(lines: seq<Line>, e: nat): (c: Cmd)
    requires 0 < e < |lines|
    ensures c.Fresh()
    ensures FindMarker(lines, 1, e, lines[0].indent, ElseAt).None? ==>
              c == If(ParseCondition(IfConditionText(lines[0].text)), BlockBody(lines, e), [], 0, 0, false, Neither)
  {
    var d := lines[0].indent;
    var elseAt := FindMarker(lines, 1, e, d, ElseAt);
    var thenBody := BlockBody(lines, if elseAt.Some? then elseAt.value else e);
    var elseBody := if elseAt.Some? then ParseBody(BodyTexts(lines, elseAt.value + 1, e, d)) else [];
    If(ParseCondition(IfConditionText(lines[0].text)), thenBody, elseBody, 0, 0, false, Neither)
  }

  /** The `если` branch. */
  function IfAt(lines: seq<Line>): (r: Result<Step, ParseError>)
    requires |lines| > 0
    ensures r.Ok? ==> GoodStep(lines, r.value)
    ensures r.Err? <==> FindMarker(lines, 1, |lines|, lines[0].indent, IfEnd).None?
    ensures r.Err? ==> r.error == Unclosed(IfCloser)
    ensures r.Ok? ==> && 1 <= r.value.next
                      && FindMarker(lines, 1, |lines|, lines[0].indent, IfEnd) == Some(r.value.next - 1)
    ensures r.Ok? ==> r.value.node == Some(IfBlock(lines, r.value.next - 1))
  {
    match FindMarker(lines, 1, |lines|, lines[0].indent, IfEnd)
    case None => Err(Unclosed(IfCloser))
    case Some(e) => Ok(Step(Some(IfBlock(lines, e)), e + 1))
  }

  /** One iteration of the main loop: a primitive line is one command, an
      opener a block, any other line is skipped. */
  function ParseLine(lines: seq<Line>): (r: Result<Step, ParseError>)
    requires |lines| > 0
    ensures r.Ok? ==> GoodStep(lines, r.value)
  {
    var t := lines[0].text;
    match PrimOf(t)
    case Some(p) => Ok(Step(Some(Simple(p)), 1))
    case None =>
      if StartsWith(t, WhileOpener) then WhileAt(lines)
      else if t == DoWhileOpener then DoWhileAt(lines)
      else if StartsWith(t, ForOpener) then ForAt(lines)
      else if StartsWith(t, IfOpener) then IfAt(lines)
      else Ok(Step(None, 1))
  }

  /** `parse_program` after normalisation. Its index loop only ever moves
      forward, to the line after the current one or after the closer of the
      block it opens, so it is written here as recursion on the remaining
      lines. The first error ends the parse. */
  function Parse(lines: seq<Line>): (r: Result<seq<Cmd>, ParseError>)
    ensures r.Ok? ==> |r.value| <= |lines|
    ensures r.Ok? ==> forall i | 0 <= i < |r.value| :: r.value[i].Fresh()
    decreases |lines|
  {
    if |lines| == 0 then Ok([])
    else
      var s :- ParseLine(lines);
      var rest :- Parse(lines[s.next..]);
      Ok(if s.node.Some? then [s.node.value] + rest else rest)
  }

  /** `parse_program` on the raw text. */
  function ParseProgram(code: string): Result<seq<Cmd>, ParseError> {
    Parse(Normalize(code))
  }

  /** The parse of a command list with one more command in front. */
  function Cons(c: Cmd, r: Result<seq<Cmd>, ParseError>): Result<seq<Cmd>, ParseError> {
    if r.Ok? then Ok([c] + r.value) else r
  }

  /** Unfolds one iteration of the main loop that appends `c` and moves on
      to line `next`. */
  lemma {:induction false} ParseUnfold(lines: seq<Line>, c: Cmd, next: nat)
    requires |lines| > 0 && ParseLine(lines).Ok?
    requires ParseLine(lines).value.node == Some(c) && ParseLine(lines).value.next == next
    ensures next <= |lines|
    ensures Parse(lines) == Cons(c, Parse(lines[next..]))
  {
    assert ParseLine(lines).value.next <= |lines|;
    var rest := Parse(lines[next..]);
    if rest.Ok? {
      assert Parse(lines) == Ok([c] + rest.value);
    } else {
      assert Parse(lines) == rest;
    }
  }

  /** The `если` branch when an `иначе` line splits the block. */
  lemma {:induction false} IfAtWithElse(lines: seq<Line>, e: nat, k: nat)
    requires |lines| > 0
    requires FindMarker(lines, 1, |lines|, lines[0].indent, IfEnd) == Some(e)
    requires FindMarker(lines, 1, e, lines[0].indent, ElseAt) == Some(k)
    ensures IfAt(lines).Ok? && IfAt(lines).value.next == e + 1
    ensures IfAt(lines).value.node == Some(If(ParseCondition(IfConditionText(lines[0].text)),
                               BlockBody(lines, k), ParseBody(BodyTexts(lines, k + 1, e, lines[0].indent)),
                               0, 0, false, Neither))
  {
  }

  /** A line's text is in a block body exactly when some line of the range
      is indented deeper than the opener and carries that text. */
  lemma {:induction false} BodyTextsMembers(lines: seq<Line>, from: nat, to: nat, d: nat, t: string)
    requires from <= to <= |lines|
    ensures t in BodyTexts(lines, from, to, d)
            <==> exists j | from <= j < to :: lines[j].indent > d && lines[j].text == t
    decreases (to as int) - from
  {
    if from < to {
      BodyTextsMembers(lines, from + 1, to, d, t);
      if lines[from].indent > d && lines[from].text == t {
        assert t in BodyTexts(lines, from, to, d);
      }
    }
  }

  /** A primitive is in a parsed body exactly when its keyword is one of the
      body's lines. */
  lemma {:induction false} ParseBodyMembers(texts: seq<string>, p: Prim)
    ensures p in ParseBody(texts) <==> Keyword(p) in texts
    decreases |texts|
  {
    if |texts| > 0 {
      ParseBodyMembers(texts[1..], p);
      PrimOfKeyword(p, texts[0]);
      assert texts == [texts[0]] + texts[1..];
    }
  }

  /** Collecting a body over a range is collecting it over the two halves
      of the range, one after the other: order and repetitions are kept. */
  lemma {:induction false} BodyTextsSplit(lines: seq<Line>, from: nat, mid: nat, to: nat, d: nat)
    requires from <= mid <= to <= |lines|
    ensures BodyTexts(lines, from, to, d) == BodyTexts(lines, from, mid, d) + BodyTexts(lines, mid, to, d)
    decreases (mid as int) - from
  {
    if from < mid {
      BodyTextsSplit(lines, from + 1, mid, to, d);
    }
  }

  /** One line contributes its text exactly when it is deeper than the opener. */
  lemma {:induction false} BodyTextsOne(lines: seq<Line>, j: nat, d: nat)
    requires j < |lines|
    ensures BodyTexts(lines, j, j + 1, d) == if lines[j].indent > d then [lines[j].text] else []
  {
  }

  /** When every line of the range is deeper than the opener, the body is the
      texts of the range, one per line, in order. */
  lemma {:induction false} BodyTextsAllDeeper(lines: seq<Line>, from: nat, to: nat, d: nat)
    requires from <= to <= |lines|
    requires forall j | from <= j < to :: lines[j].indent > d
    ensures BodyTexts(lines, from, to, d) == seq(to - from, i requires 0 <= i < to - from => lines[from + i].text)
    decreases (to as int) - from
  {
    if from < to {
      BodyTextsAllDeeper(lines, from + 1, to, d);
    }
  }

  /** A block nested in a loop body is flattened: its opener and closer are
      dropped and its primitives stay in source order among the outer ones. */
  lemma {:induction false} NestedBlockFlattened()
    ensures var lines := [Line(WhileOpener + " " + RightFreePhrase, 0), Line(DoWhileOpener, 2), Line(KwRight, 4),
                          Line(DoWhileCloser + " " + BottomWallPhrase, 2), Line(KwDown, 2), Line(LoopCloser, 0)];
            && WhileAt(lines).Ok? && WhileAt(lines).value.next == 6
            && WhileAt(lines).value.node.value.body == [Go(Right), Go(Down)]
  {
    var lines := [Line(WhileOpener + " " + RightFreePhrase, 0), Line(DoWhileOpener, 2), Line(KwRight, 4),
                  Line(DoWhileCloser + " " + BottomWallPhrase, 2), Line(KwDown, 2), Line(LoopCloser, 0)];
    assert FindMarker(lines, 1, 6, 0, LoopEnd) == Some(5);
    BodyTextsAllDeeper(lines, 1, 5, 0);
    var texts := [DoWhileOpener, KwRight, DoWhileCloser + " " + BottomWallPhrase, KwDown];
    assert BodyTexts(lines, 1, 5, 0) == texts;
    assert PrimOf(texts[0]).None? && PrimOf(texts[2]).None?;
    assert ParseBody(texts[3..]) == [Go(Down)];
    assert ParseBody(texts[2..]) == [Go(Down)];
    assert ParseBody(texts[1..]) == [Go(Right), Go(Down)];
  }

  /** Parsing a body distributes over concatenation of its lines. */
  lemma {:induction false} ParseBodyAppend(a: seq<string>, b: seq<string>)
    ensures ParseBody(a + b) == ParseBody(a) + ParseBody(b)
    decreases |a|
  {
    if |a| > 0 {
      assert (a + b)[1..] == a[1..] + b;
      ParseBodyAppend(a[1..], b);
    } else {
      assert a + b == b;
    }
  }

  /** One body line: its primitive, or nothing. */
  lemma {:induction false} ParseBodyOne(t: string)
    ensures ParseBody([t]) == if PrimOf(t).Some? then [PrimOf(t).value] else []
  {
    assert [t][1..] == [];
  }

  /** Normalising lines distributes over concatenation of the raw lines. */
  lemma {:induction false} NormalizeLinesAppend(a: seq<string>, b: seq<string>)
    ensures NormalizeLines(a + b) == NormalizeLines(a) + NormalizeLines(b)
    decreases |a|
  {
    if |a| > 0 {
      assert (a + b)[1..] == a[1..] + b;
      NormalizeLinesAppend(a[1..], b);
    } else {
      assert a + b == b;
    }
  }

  /** One raw line is dropped exactly when it is blank or a `|` comment after
      stripping; otherwise it is kept stripped, tagged with its indentation. */
  lemma {:induction false} NormalizeLinesOne(s: string)
    ensures var t := Strip(s);
            NormalizeLines([s]) == if |t| == 0 || t[0] == '|' then [] else [Line(t, LeadingSpace(s))]
  {
    assert [s][1..] == [];
  }

  /** A line that is neither a primitive nor an opener is skipped. */
  lemma {:induction false} ParseSkipsOtherLines(lines: seq<Line>)
    requires |lines| > 0
    requires var t := lines[0].text;
             PrimOf(t).None? && !StartsWith(t, WhileOpener) && t != DoWhileOpener
             && !StartsWith(t, ForOpener) && !StartsWith(t, IfOpener)
    ensures Parse(lines) == Parse(lines[1..])
  {
    assert ParseLine(lines) == Ok(Step(None, 1));
  }

  /** An error at any line is the result of the whole parse: no partial
      command list survives. */
  lemma {:induction false} ParseFailsAtLine(lines: seq<Line>)
    requires |lines| > 0 && ParseLine(lines).Err?
    ensures Parse(lines) == Err(ParseLine(lines).error)
  {
  }

  /** A `нц пока` without a `кц` at its own indentation fails the parse. */
  lemma {:induction false} UnclosedWhileFails(lines: seq<Line>)
    requires |lines| > 0 && StartsWith(lines[0].text, WhileOpener)
    requires FindMarker(lines, 1, |lines|, lines[0].indent, LoopEnd).None?
    ensures Parse(lines) == Err(Unclosed(LoopCloser))
  {
    assert lines[0].text[0] == 'н';
    assert PrimOf(lines[0].text).None?;
    ParseFailsAtLine(lines);
  }

  /** A bare `кц` closing an `нц` leaves the text `кц` as the condition. */
  lemma {:induction false} BareCloserCondition()
    ensures ParseCondition(DoWhileConditionText(LoopCloser)) == LoopCloser
  {
    assert RemoveAll(LoopCloser, DoWhileCloser) == LoopCloser;
    StripTrimmed(LoopCloser);
    StripTrimmed(Strip(LoopCloser));
  }
}
