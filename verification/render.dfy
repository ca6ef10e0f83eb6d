/** Program text for a command list: the inverse of the parser. Rendering
    writes every block at indentation 0 with its body indented by two
    spaces, the layout the editor's examples use, and the lemmas here show
    that parsing the rendered text gives back exactly the commands. */
module Render {
  import opened Results
  import opened Text
  import opened TextLemmas
  import opened Grid
  import opened Commands
  import opened Parser

  const BodyIndent: nat := 2

  /** The phrase `parse_condition` maps to `id`. */
  function PhraseOf(id: string): (p: string)
    requires id in ConditionIds
    ensures p in Phrases
  {
    if id == RightFree then RightFreePhrase
    else if id == RightWall then RightWallPhrase
    else if id == LeftFree then LeftFreePhrase
    else if id == LeftWall then LeftWallPhrase
    else if id == TopFree then TopFreePhrase
    else if id == TopWall then TopWallPhrase
    else if id == BottomFree then BottomFreePhrase
    else BottomWallPhrase
  }

  /** `parse_condition` undoes `PhraseOf`. */
  lemma {:induction false} ParseConditionOfPhrase(id: string)
    requires id in ConditionIds
    ensures ParseCondition(PhraseOf(id)) == id
  {
    if id in FreeIds {
      ParseConditionOfFreePhrase(id);
    } else {
      ParseConditionOfWallPhrase(id);
    }
  }

  const FreeIds: set<string> := {RightFree, LeftFree, TopFree, BottomFree}
  const WallIds: set<string> := {RightWall, LeftWall, TopWall, BottomWall}

  lemma {:induction false} ParseConditionOfFreePhrase(id: string)
    requires id in FreeIds
    ensures ParseCondition(PhraseOf(id)) == id
  {
    StripTrimmed(PhraseOf(id));
  }

  lemma {:induction false} ParseConditionOfWallPhrase(id: string)
    requires id in WallIds
    ensures ParseCondition(PhraseOf(id)) == id
  {
    StripTrimmed(PhraseOf(id));
  }

  /** The character facts about a phrase on which the keyword deletions
      below depend. */
  predicate PlainPhrase(p: string) {
    && |p| > 0 && Trimmed(p) && p[0] != '|'
    && 'ц' !in p && '\n' !in p
    && ('л' !in p || 'и' !in p)
  }

  lemma {:induction false} PhraseFacts(id: string)
    requires id in ConditionIds
    ensures PlainPhrase(PhraseOf(id))
    ensures id in FreeIds ==> 'т' !in PhraseOf(id)
  {
    if id == RightFree {
      RightFreeFacts();
    } else if id == LeftFree {
      LeftFreeFacts();
    } else if id == TopFree {
      TopFreeFacts();
    } else if id == BottomFree {
      BottomFreeFacts();
    } else if id == RightWall {
      RightWallFacts();
    } else if id == LeftWall {
      LeftWallFacts();
    } else if id == TopWall {
      TopWallFacts();
    } else if id == BottomWall {
      BottomWallFacts();
    }
  }

  // One lemma per phrase keeps each string computation in its own proof.
  lemma {:induction false} RightFreeFacts()
    ensures PlainPhrase(RightFreePhrase) && 'т' !in RightFreePhrase
  {
  }

  lemma {:induction false} LeftFreeFacts()
    ensures PlainPhrase(LeftFreePhrase) && 'т' !in LeftFreePhrase
  {
  }

  lemma {:induction false} TopFreeFacts()
    ensures PlainPhrase(TopFreePhrase) && 'т' !in TopFreePhrase
  {
  }

  lemma {:induction false} BottomFreeFacts()
    ensures PlainPhrase(BottomFreePhrase) && 'т' !in BottomFreePhrase
  {
  }

  lemma {:induction false} RightWallFacts()
    ensures PlainPhrase(RightWallPhrase)
  {
  }

  lemma {:induction false} LeftWallFacts()
    ensures PlainPhrase(LeftWallPhrase)
  {
  }

  lemma {:induction false} TopWallFacts()
    ensures PlainPhrase(TopWallPhrase)
  {
  }

  lemma {:induction false} BottomWallFacts()
    ensures PlainPhrase(BottomWallPhrase)
  {
  }

  /** Deleting `то` from text whose only `т` is the one starting it. */
  lemma {:induction false} DropThenPlain(s: string)
    requires 'т' !in s
    ensures RemoveAll(s + IfThen, IfThen) == s
  {
    RemoveAllSkip(s, IfThen, IfThen);
    RemoveAllPrefix(IfThen, "");
    assert IfThen + "" == IfThen;
  }

  /** Deleting `то` from `... стена то`: the `т` of `стена` is kept. */
  lemma {:induction false} DropThenWall(a: string)
    requires 'т' !in a
    ensures RemoveAll(a + "тена " + IfThen, IfThen) == a + "тена "
  {
    assert a + "тена " + IfThen == a + ("тена " + IfThen);
    RemoveAllSkip(a, "тена " + IfThen, IfThen);
    assert "тена " + IfThen == ['т'] + ("ена " + IfThen);
    RemoveAllKeep('т', "ена " + IfThen, IfThen);
    DropThenPlain("ена ");
  }

  /** The side word of a wall phrase. */
  function WallSide(id: string): string
    requires id in WallIds
  {
    if id == RightWall then "справа"
    else if id == LeftWall then "слева"
    else if id == TopWall then "сверху"
    else "снизу"
  }

  /** A wall phrase is its side word followed by ` стена`. */
  lemma {:induction false} WallPhraseSplit(id: string)
    requires id in WallIds
    ensures PhraseOf(id) == WallSide(id) + " стена"
    ensures 'т' !in WallSide(id)
  {
  }

  /** The `т` of `стена` is the first one in an `если` line's wall phrase. */
  lemma {:induction false} WallLead(side: string)
    ensures " " + (side + " стена") + " " + IfThen == (" " + side + " с") + "тена " + IfThen
  {
    assert " стена" == " с" + "тена";
  }

  /** The condition of a rendered `нц пока` line reads back as its phrase. */
  lemma {:induction false} WhileConditionOfPhrase(id: string)
    requires id in ConditionIds
    ensures WhileConditionText(WhileOpener + " " + PhraseOf(id)) == PhraseOf(id)
  {
    var p := PhraseOf(id);
    PhraseFacts(id);
    assert WhileOpener + " " + p == WhileOpener + (" " + p);
    RemoveAllPrefix(WhileOpener, " " + p);
    RemoveAllAbsent(" " + p, WhileOpener, 'ц');
    StripPadded(" ", p, "");
    assert " " + p + "" == " " + p;
  }

  /** The condition of a rendered `кц при` line reads back as its phrase. */
  lemma {:induction false} DoWhileConditionOfPhrase(id: string)
    requires id in ConditionIds
    ensures DoWhileConditionText(DoWhileCloser + " " + PhraseOf(id)) == PhraseOf(id)
  {
    var p := PhraseOf(id);
    PhraseFacts(id);
    assert DoWhileCloser + " " + p == DoWhileCloser + (" " + p);
    RemoveAllPrefix(DoWhileCloser, " " + p);
    RemoveAllAbsent(" " + p, DoWhileCloser, 'ц');
    StripPadded(" ", p, "");
    assert " " + p + "" == " " + p;
  }

  /** Deleting `если` leaves the rest of an `если` line alone when the
      phrase lacks one of its letters. */
  lemma {:induction false} DropIfWord(p: string)
    requires 'л' !in p || 'и' !in p
    ensures RemoveAll(IfOpener + " " + p + " " + IfThen, IfOpener) == " " + p + " " + IfThen
  {
    var body := " " + p + " " + IfThen;
    assert IfOpener + " " + p + " " + IfThen == IfOpener + body;
    RemoveAllPrefix(IfOpener, body);
    if 'л' !in p {
      RemoveAllAbsent(body, IfOpener, 'л');
    } else {
      RemoveAllAbsent(body, IfOpener, 'и');
    }
  }

  /** Deleting `то` leaves the phrase of an `если` line alone. */
  lemma {:induction false} DropThenOfPhrase(id: string)
    requires id in ConditionIds
    ensures RemoveAll(" " + PhraseOf(id) + " " + IfThen, IfThen) == " " + PhraseOf(id) + " "
  {
    if id in WallIds {
      var side := WallSide(id);
      WallPhraseSplit(id);
      WallLead(side);
      DropThenWall(" " + side + " с");
      assert " " + PhraseOf(id) + " " == (" " + side + " с") + "тена ";
    } else {
      PhraseFacts(id);
      assert 'т' !in " " + PhraseOf(id) + " ";
      DropThenPlain(" " + PhraseOf(id) + " ");
    }
  }

  /** The condition of a rendered `если ... то` line reads back as its
      phrase: neither keyword deletion touches the phrase itself. */
  lemma {:induction false} IfConditionOfPhrase(id: string)
    requires id in ConditionIds
    ensures IfConditionText(IfOpener + " " + PhraseOf(id) + " " + IfThen) == PhraseOf(id)
  {
    var p := PhraseOf(id);
    PhraseFacts(id);
    DropIfWord(p);
    DropThenOfPhrase(id);
    StripPadded(" ", p, " ");
  }

  /** The header line of a counted loop, always with an explicit step. */
  function ForLine(counter: string, start: int, end: int, step: int): string {
    ForOpener + " " + JoinWords(ForTail(counter, start, end, step))
  }

  function IfLine(id: string): string
    requires id in ConditionIds
  {
    IfOpener + " " + PhraseOf(id) + " " + IfThen
  }

  /** The seven words after `нц для` in a rendered header. */
  function ForTail(counter: string, start: int, end: int, step: int): seq<string> {
    [counter, FromWord, IntToString(start), ToWord, IntToString(end), StepWord, IntToString(step)]
  }

  /** Joining two leading words onto a joined tail. */
  lemma {:induction false} JoinTwoWords(a: string, b: string, tail: seq<string>)
    requires |tail| >= 1
    ensures JoinWords([a, b] + tail) == a + " " + (b + " " + JoinWords(tail))
  {
    assert ([a, b] + tail)[1..] == [b] + tail;
    assert ([b] + tail)[1..] == tail;
  }

  /** A rendered header line splits back into its nine words. */
  lemma {:induction false} WordsOfForLine(counter: string, start: int, end: int, step: int)
    requires |counter| > 0 && SpaceFree(counter)
    ensures Words(ForLine(counter, start, end, step)) == ["нц", ForWord] + ForTail(counter, start, end, step)
  {
    var tail := ForTail(counter, start, end, step);
    JoinTwoWords("нц", ForWord, tail);
    assert ForLine(counter, start, end, step) == JoinWords(["нц", ForWord] + tail);
    WordsJoinWords(["нц", ForWord] + tail);
  }

  /** `parse_program` reads a rendered header back as the loop's fields. */
  lemma {:induction false} ParseForLine(counter: string, start: int, end: int, step: int)
    requires |counter| > 0 && SpaceFree(counter)
    ensures ParseForHeader(ForLine(counter, start, end, step)) == Ok(ForHeader(counter, start, end, step))
  {
    WordsOfForLine(counter, start, end, step);
    var parts := Words(ForLine(counter, start, end, step));
    assert |parts| == 9;
    assert parts[1] == ForWord && parts[3] == FromWord && parts[5] == ToWord && parts[7] == StepWord;
    assert parts[2] == counter;
    ParseIntOfIntToString(start);
    ParseIntOfIntToString(end);
    ParseIntOfIntToString(step);
    assert Number(parts[4]) == Ok(start);
    assert Number(parts[6]) == Ok(end);
    assert Number(parts[8]) == Ok(step);
  }

  /** A header without `шаг` reads back with step 1. */
  lemma {:induction false} ParseHeaderWithoutStep(counter: string, start: int, end: int)
    requires |counter| > 0 && SpaceFree(counter)
    ensures var words := ["нц", ForWord, counter, FromWord, IntToString(start), ToWord, IntToString(end)];
            ParseForHeader(JoinWords(words)) == Ok(ForHeader(counter, start, end, 1))
  {
    var words := ["нц", ForWord, counter, FromWord, IntToString(start), ToWord, IntToString(end)];
    WordsJoinWords(words);
    var parts := Words(JoinWords(words));
    assert |parts| == 7;
    assert parts[1] == ForWord && parts[3] == FromWord && parts[5] == ToWord;
    assert parts[2] == counter;
    ParseIntOfIntToString(start);
    ParseIntOfIntToString(end);
    assert Number(parts[4]) == Ok(start);
    assert Number(parts[6]) == Ok(end);
  }

  /** The commands `Render` can write out: fresh, with conditions among the
      eight known phrases and a loop counter that is one word. */
  predicate Renderable(c: Cmd) {
    c.Fresh()
    && match c
       case Simple(_) => true
       case While(cond, _, _) => cond in ConditionIds
       case DoWhile(cond, _, _, _) => cond in ConditionIds
       case For(counter, _, _, _, _, _, _) => |counter| > 0 && SpaceFree(counter)
       case If(cond, _, _, _, _, _, _) => cond in ConditionIds
  }

  /** The body lines of a block, one keyword per line, indented. */
  function Indented(body: seq<Prim>): (r: seq<Line>)
    ensures |r| == |body|
    ensures forall j | 0 <= j < |r| :: r[j] == Line(Keyword(body[j]), BodyIndent)
  {
    seq(|body|, j requires 0 <= j < |body| => Line(Keyword(body[j]), BodyIndent))
  }

  function Keywords(body: seq<Prim>): (r: seq<string>)
    ensures |r| == |body|
    ensures forall j | 0 <= j < |r| :: r[j] == Keyword(body[j])
  {
    seq(|body|, j requires 0 <= j < |body| => Keyword(body[j]))
  }

  /** A block: header at indentation 0, indented body, closing line. */
  function Block(head: string, body: seq<Prim>, close: string): seq<Line> {
    [Line(head, 0)] + Indented(body) + [Line(close, 0)]
  }

  function RenderCmd(c: Cmd): seq<Line>
    requires Renderable(c)
  {
    match c
    case Simple(p) => [Line(Keyword(p), 0)]
    case While(cond, b, _) => Block(WhileOpener + " " + PhraseOf(cond), b, LoopCloser)
    case DoWhile(cond, b, _, _) => Block(DoWhileOpener, b, DoWhileCloser + " " + PhraseOf(cond))
    case For(v, a, z, s, _, b, _) => Block(ForLine(v, a, z, s), b, LoopCloser)
    case If(cond, tb, eb, _, _, _, _) =>
      if |eb| == 0 then Block(IfLine(cond), tb, IfCloser)
      else [Line(IfLine(cond), 0)] + Indented(tb) + Block(ElseMarker, eb, IfCloser)
  }

  function RenderAll(cmds: seq<Cmd>): seq<Line>
    requires forall i | 0 <= i < |cmds| :: Renderable(cmds[i])
  {
    if |cmds| == 0 then [] else RenderCmd(cmds[0]) + RenderAll(cmds[1..])
  }

  /** The scan stops at the first marker line. */
  lemma {:induction false} FindMarkerAt(lines: seq<Line>, from: nat, k: nat, to: nat, d: nat, m: Marker)
    requires from <= k < to <= |lines|
    requires forall j | from <= j < k :: !Marks(lines[j], d, m)
    requires Marks(lines[k], d, m)
    ensures FindMarker(lines, from, to, d, m) == Some(k)
  {
  }

  /** Indented lines are all body lines, in order. */
  lemma {:induction false} BodyTextsIndented(lines: seq<Line>, from: nat, to: nat, body: seq<Prim>)
    requires from <= to <= |lines|
    requires lines[from..to] == Indented(body)
    ensures BodyTexts(lines, from, to, 0) == Keywords(body)
    decreases (to as int) - from
  {
    if from < to {
      assert lines[from] == Indented(body)[0];
      assert lines[from + 1..to] == Indented(body[1..]);
      BodyTextsIndented(lines, from + 1, to, body[1..]);
      assert Keywords(body) == [Keyword(body[0])] + Keywords(body[1..]);
    }
  }

  /** The body parser reads the keywords back. */
  lemma {:induction false} ParseBodyKeywords(body: seq<Prim>)
    ensures ParseBody(Keywords(body)) == body
  {
    if |body| > 0 {
      assert Keywords(body)[1..] == Keywords(body[1..]);
      PrimOfKeyword(body[0], Keyword(body[0]));
      ParseBodyKeywords(body[1..]);
    }
  }

  lemma {:induction false} StartsWithConcat(prefix: string, t: string)
    ensures StartsWith(prefix + t, prefix)
  {
    assert (prefix + t)[..|prefix|] == prefix;
  }

  /** Every keyword starts with `в` or `з`. */
  lemma {:induction false} NotPrim(t: string)
    requires |t| > 0 && t[0] != 'в' && t[0] != 'з'
    ensures PrimOf(t).None?
  {
  }

  /** What the parser sees in a rendered block: the closer is the first
      marker at indentation 0, the body lines are the indented ones, and the
      rest of the program follows the closer. */
  lemma {:induction false} ScanBlock(head: string, body: seq<Prim>, close: string, rest: seq<Line>, m: Marker)
    requires Marks(Line(close, 0), 0, m)
    ensures var lines := Block(head, body, close) + rest;
            && |lines| == |body| + 2 + |rest|
            && lines[0] == Line(head, 0)
            && FindMarker(lines, 1, |lines|, 0, m) == Some(|body| + 1)
            && lines[|body| + 1].text == close
            && (forall j | 1 <= j <= |body| :: lines[j].indent == BodyIndent)
            && BodyTexts(lines, 1, |body| + 1, 0) == Keywords(body)
            && lines[|body| + 2..] == rest
  {
    var lines := Block(head, body, close) + rest;
    assert forall j | 1 <= j <= |body| :: lines[j] == Indented(body)[j - 1];
    FindMarkerAt(lines, 1, |body| + 1, |lines|, 0, m);
    assert lines[1..|body| + 1] == Indented(body);
    BodyTextsIndented(lines, 1, |body| + 1, body);
    assert lines[|body| + 2..] == rest;
  }

  lemma {:induction false} ParseSimpleLine(p: Prim, rest: seq<Line>)
    ensures Parse([Line(Keyword(p), 0)] + rest) == Cons(Simple(p), Parse(rest))
  {
    var lines := [Line(Keyword(p), 0)] + rest;
    PrimOfKeyword(p, Keyword(p));
    ParseUnfold(lines, Simple(p), 1);
    assert lines[1..] == rest;
  }

  lemma {:induction false} ParseWhileBlock(cond: string, body: seq<Prim>, rest: seq<Line>)
    requires cond in ConditionIds
    ensures Parse(Block(WhileOpener + " " + PhraseOf(cond), body, LoopCloser) + rest)
            == Cons(While(cond, body, 0), Parse(rest))
  {
    var head := WhileOpener + " " + PhraseOf(cond);
    var lines := Block(head, body, LoopCloser) + rest;
    ScanBlock(head, body, LoopCloser, rest, LoopEnd);
    assert head == WhileOpener + (" " + PhraseOf(cond));
    StartsWithConcat(WhileOpener, " " + PhraseOf(cond));
    NotPrim(head);
    WhileConditionOfPhrase(cond);
    ParseConditionOfPhrase(cond);
    ParseBodyKeywords(body);
    ParseUnfold(lines, While(cond, body, 0), |body| + 2);
  }

  lemma {:induction false} ParseDoWhileBlock(cond: string, body: seq<Prim>, rest: seq<Line>)
    requires cond in ConditionIds
    ensures Parse(Block(DoWhileOpener, body, DoWhileCloser + " " + PhraseOf(cond)) + rest)
            == Cons(DoWhile(cond, body, 0, true), Parse(rest))
  {
    var close := DoWhileCloser + " " + PhraseOf(cond);
    var lines := Block(DoWhileOpener, body, close) + rest;
    assert close == DoWhileCloser + (" " + PhraseOf(cond));
    StartsWithConcat(DoWhileCloser, " " + PhraseOf(cond));
    ScanBlock(DoWhileOpener, body, close, rest, DoWhileEnd);
    NotPrim(DoWhileOpener);
    DoWhileConditionOfPhrase(cond);
    ParseConditionOfPhrase(cond);
    ParseBodyKeywords(body);
    ParseUnfold(lines, DoWhile(cond, body, 0, true), |body| + 2);
  }

  /** How a rendered counted-loop header is told apart from the other
      openers. */
  lemma {:induction false} ForHeadDispatch(lines: seq<Line>, counter: string, start: int, end: int, step: int)
    requires |lines| > 0 && lines[0].text == ForLine(counter, start, end, step)
    ensures ParseLine(lines) == ForAt(lines)
  {
    var head := lines[0].text;
    var tail := JoinWords(ForTail(counter, start, end, step));
    assert head == ForOpener + (" " + tail);
    StartsWithConcat(ForOpener, " " + tail);
    assert head[3] != WhileOpener[3];
    NotPrim(head);
  }

  lemma {:induction false} ParseForBlock(counter: string, start: int, end: int, step: int, body: seq<Prim>, rest: seq<Line>)
    requires |counter| > 0 && SpaceFree(counter)
    ensures Parse(Block(ForLine(counter, start, end, step), body, LoopCloser) + rest)
            == Cons(For(counter, start, end, step, start, body, 0), Parse(rest))
  {
    var head := ForLine(counter, start, end, step);
    var lines := Block(head, body, LoopCloser) + rest;
    ScanBlock(head, body, LoopCloser, rest, LoopEnd);
    ForHeadDispatch(lines, counter, start, end, step);
    ParseForLine(counter, start, end, step);
    ParseBodyKeywords(body);
    ParseUnfold(lines, For(counter, start, end, step, start, body, 0), |body| + 2);
  }

  /** How a rendered `если` line is told apart from the loop openers. */
  lemma {:induction false} IfHeadDispatch(lines: seq<Line>, phrase: string)
    requires |lines| > 0 && lines[0].text == IfOpener + " " + phrase + " " + IfThen
    ensures ParseLine(lines) == IfAt(lines)
  {
    var head := lines[0].text;
    assert head == IfOpener + (" " + phrase + " " + IfThen);
    StartsWithConcat(IfOpener, " " + phrase + " " + IfThen);
    assert head[0] == 'е';
    assert head[0] != WhileOpener[0] && head[0] != ForOpener[0] && head != DoWhileOpener;
    NotPrim(head);
  }

  lemma {:induction false} ParseIfBlock(cond: string, body: seq<Prim>, rest: seq<Line>)
    requires cond in ConditionIds
    ensures Parse(Block(IfLine(cond), body, IfCloser) + rest)
            == Cons(If(cond, body, [], 0, 0, false, Neither), Parse(rest))
  {
    var head := IfLine(cond);
    var lines := Block(head, body, IfCloser) + rest;
    ScanBlock(head, body, IfCloser, rest, IfEnd);
    IfHeadDispatch(lines, PhraseOf(cond));
    assert FindMarker(lines, 1, |body| + 1, 0, ElseAt).None?;
    IfConditionOfPhrase(cond);
    ParseConditionOfPhrase(cond);
    ParseBodyKeywords(body);
    ParseUnfold(lines, If(cond, body, [], 0, 0, false, Neither), |body| + 2);
  }

  /** The tail of a rendered `если` after its `иначе` line. */
  lemma {:induction false} ScanElseTail(lines: seq<Line>, k: nat, eb: seq<Prim>, rest: seq<Line>)
    requires k <= |lines| && lines[k..] == Indented(eb) + [Line(IfCloser, 0)] + rest
    ensures |lines| == k + |eb| + 1 + |rest|
    ensures forall j | k <= j < k + |eb| :: lines[j].indent == BodyIndent
    ensures lines[k + |eb|] == Line(IfCloser, 0)
    ensures BodyTexts(lines, k, k + |eb|, 0) == Keywords(eb)
    ensures lines[k + |eb| + 1..] == rest
  {
    var tail := lines[k..];
    forall j | k <= j < k + |eb|
      ensures lines[j].indent == BodyIndent
    {
      assert lines[j] == tail[j - k];
    }
    assert lines[k + |eb|] == tail[|eb|];
    assert lines[k..k + |eb|] == Indented(eb) by {
      assert lines[k..k + |eb|] == tail[..|eb|];
    }
    BodyTextsIndented(lines, k, k + |eb|, eb);
    assert lines[k + |eb| + 1..] == tail[|eb| + 1..];
  }

  /** Where the scans stop in an `если` block laid out as rendered: `t`
      indented lines, the `иначе`, `f` indented lines, then the `все`. */
  lemma {:induction false} IfElseMarks(lines: seq<Line>, t: nat, f: nat)
    requires |lines| >= t + f + 3
    requires forall j | 1 <= j <= t :: lines[j].indent == BodyIndent
    requires lines[t + 1] == Line(ElseMarker, 0)
    requires forall j | t + 2 <= j < t + f + 2 :: lines[j].indent == BodyIndent
    requires lines[t + f + 2] == Line(IfCloser, 0)
    ensures FindMarker(lines, 1, |lines|, 0, IfEnd) == Some(t + f + 2)
    ensures FindMarker(lines, 1, t + f + 2, 0, ElseAt) == Some(t + 1)
  {
    FindMarkerAt(lines, 1, t + 1, t + f + 2, 0, ElseAt);
    FindMarkerAt(lines, 1, t + f + 2, |lines|, 0, IfEnd);
  }

  /** Where the scans of `parse_program` stop in a rendered `если` with an
      `иначе`. */
  lemma {:induction false} ScanIfElse(head: string, tb: seq<Prim>, eb: seq<Prim>, rest: seq<Line>)
    ensures var lines := [Line(head, 0)] + Indented(tb) + Block(ElseMarker, eb, IfCloser) + rest;
            var e := |tb| + |eb| + 2;
            && |lines| == e + 1 + |rest|
            && lines[0] == Line(head, 0)
            && FindMarker(lines, 1, |lines|, 0, IfEnd) == Some(e)
            && FindMarker(lines, 1, e, 0, ElseAt) == Some(|tb| + 1)
            && lines[e + 1..] == rest
  {
    var lines := [Line(head, 0)] + Indented(tb) + Block(ElseMarker, eb, IfCloser) + rest;
    var tail := Indented(eb) + [Line(IfCloser, 0)] + rest;
    assert lines == Block(head, tb, ElseMarker) + tail;
    ScanBlock(head, tb, ElseMarker, tail, ElseAt);
    ScanElseTail(lines, |tb| + 2, eb, rest);
    IfElseMarks(lines, |tb|, |eb|);
  }

  /** The two branches of a rendered `если` with an `иначе` read back. */
  lemma {:induction false} ScanIfElseBodies(head: string, tb: seq<Prim>, eb: seq<Prim>, rest: seq<Line>)
    ensures var lines := [Line(head, 0)] + Indented(tb) + Block(ElseMarker, eb, IfCloser) + rest;
            && |tb| + |eb| + 2 <= |lines|
            && BodyTexts(lines, 1, |tb| + 1, 0) == Keywords(tb)
            && BodyTexts(lines, |tb| + 2, |tb| + |eb| + 2, 0) == Keywords(eb)
  {
    var lines := [Line(head, 0)] + Indented(tb) + Block(ElseMarker, eb, IfCloser) + rest;
    var tail := Indented(eb) + [Line(IfCloser, 0)] + rest;
    assert lines == Block(head, tb, ElseMarker) + tail;
    ScanBlock(head, tb, ElseMarker, tail, ElseAt);
    ScanElseTail(lines, |tb| + 2, eb, rest);
  }

  /** The main loop's iteration on an `если` line whose block the scans
      have split at `k` (the `иначе`) and `e` (the `все`). */
  lemma {:induction false} IfElseStep(lines: seq<Line>, cond: string, tb: seq<Prim>, eb: seq<Prim>, e: nat, k: nat)
    requires cond in ConditionIds
    requires |lines| > 0 && lines[0] == Line(IfLine(cond), 0)
    requires FindMarker(lines, 1, |lines|, 0, IfEnd) == Some(e)
    requires FindMarker(lines, 1, e, 0, ElseAt) == Some(k)
    requires BodyTexts(lines, 1, k, 0) == Keywords(tb)
    requires BodyTexts(lines, k + 1, e, 0) == Keywords(eb)
    ensures ParseLine(lines).Ok? && ParseLine(lines).value.next == e + 1
    ensures ParseLine(lines).value.node == Some(If(cond, tb, eb, 0, 0, false, Neither))
  {
    IfHeadDispatch(lines, PhraseOf(cond));
    IfAtWithElse(lines, e, k);
    IfConditionOfPhrase(cond);
    ParseConditionOfPhrase(cond);
    ParseBodyKeywords(tb);
    ParseBodyKeywords(eb);
  }

  lemma {:induction false} ParseIfElseBlock(cond: string, tb: seq<Prim>, eb: seq<Prim>, rest: seq<Line>)
    requires cond in ConditionIds
    ensures Parse([Line(IfLine(cond), 0)] + Indented(tb) + Block(ElseMarker, eb, IfCloser) + rest)
            == Cons(If(cond, tb, eb, 0, 0, false, Neither), Parse(rest))
  {
    var lines := [Line(IfLine(cond), 0)] + Indented(tb) + Block(ElseMarker, eb, IfCloser) + rest;
    ScanIfElse(IfLine(cond), tb, eb, rest);
    ScanIfElseBodies(IfLine(cond), tb, eb, rest);
    IfElseStep(lines, cond, tb, eb, |tb| + |eb| + 2, |tb| + 1);
    ParseUnfold(lines, If(cond, tb, eb, 0, 0, false, Neither), |tb| + |eb| + 3);
  }

  /** Rendering then parsing one command puts that command in front. */
  lemma {:induction false} ParseRenderCmd(c: Cmd, rest: seq<Line>)
    requires Renderable(c)
    ensures Parse(RenderCmd(c) + rest) == Cons(c, Parse(rest))
  {
    match c
    case Simple(p) => ParseSimpleLine(p, rest);
    case While(cond, b, _) => ParseWhileBlock(cond, b, rest);
    case DoWhile(cond, b, _, _) => ParseDoWhileBlock(cond, b, rest);
    case For(v, a, z, st, _, b, _) => ParseForBlock(v, a, z, st, b, rest);
    case If(cond, tb, eb, _, _, _, _) =>
      if |eb| == 0 {
        ParseIfBlock(cond, tb, rest);
      } else {
        ParseIfElseBlock(cond, tb, eb, rest);
      }
  }

  /** The parser inverts the renderer on every renderable command list. */
  lemma {:induction false} ParseRenderAll(cmds: seq<Cmd>)
    requires forall i | 0 <= i < |cmds| :: Renderable(cmds[i])
    ensures Parse(RenderAll(cmds)) == Ok(cmds)
  {
    if |cmds| > 0 {
      ParseRenderAll(cmds[1..]);
      ParseRenderCmd(cmds[0], RenderAll(cmds[1..]));
      assert cmds == [cmds[0]] + cmds[1..];
    }
  }

  /** The text of a kept line that can be written out on one line. */
  predicate Writable(l: Line) {
    Kept(l) && '\n' !in l.text
  }

  function Spaces(n: nat): (s: string)
    ensures |s| == n && AllSpace(s) && '\n' !in s
  {
    seq(n, _ => ' ')
  }

  /** Source text for a list of lines: each line indented by its own amount. */
  function ToText(lines: seq<Line>): string
    requires |lines| >= 1
  {
    JoinLines(seq(|lines|, i requires 0 <= i < |lines| => Spaces(lines[i].indent) + lines[i].text))
  }

  /** Normalising the lines back out of their raw form. */
  lemma {:induction false} NormalizeIndented(raw: seq<string>, lines: seq<Line>)
    requires |raw| == |lines|
    requires forall i | 0 <= i < |lines| :: Writable(lines[i]) && raw[i] == Spaces(lines[i].indent) + lines[i].text
    ensures NormalizeLines(raw) == lines
    decreases |raw|
  {
    if |raw| > 0 {
      var l := lines[0];
      StripPadded(Spaces(l.indent), l.text, "");
      assert raw[0] == Spaces(l.indent) + l.text + "";
      NormalizeIndented(raw[1..], lines[1..]);
      assert lines == [l] + lines[1..];
    }
  }

  /** The normalising front of `parse_program` reads the lines back from
      their text. */
  lemma {:induction false} NormalizeToText(lines: seq<Line>)
    requires |lines| >= 1
    requires forall i | 0 <= i < |lines| :: Writable(lines[i])
    ensures Normalize(ToText(lines)) == lines
  {
    var raw := seq(|lines|, i requires 0 <= i < |lines| => Spaces(lines[i].indent) + lines[i].text);
    SplitJoinLines(raw);
    NormalizeIndented(raw, lines);
  }

  lemma {:induction false} KeywordWritable(p: Prim, n: nat)
    ensures Writable(Line(Keyword(p), n))
  {
  }

  lemma {:induction false} JoinedWritable(a: string, b: string, n: nat)
    requires |a| > 0 && !IsSpace(a[0]) && a[0] != '|' && '\n' !in a
    requires |b| > 0 && !IsSpace(b[|b| - 1]) && '\n' !in b
    ensures Writable(Line(a + b, n))
  {
    assert (a + b)[0] == a[0];
    assert (a + b)[|a + b| - 1] == b[|b| - 1];
  }

  lemma {:induction false} BlockWritable(head: string, body: seq<Prim>, close: string)
    requires Writable(Line(head, 0)) && Writable(Line(close, 0))
    ensures forall i | 0 <= i < |Block(head, body, close)| :: Writable(Block(head, body, close)[i])
  {
    forall p | p in body {
      KeywordWritable(p, BodyIndent);
    }
  }

  /** A rendered condition line fits on one line without padding. */
  lemma {:induction false} PhraseLinesWritable(id: string)
    requires id in ConditionIds
    ensures Writable(Line(WhileOpener + " " + PhraseOf(id), 0))
    ensures Writable(Line(DoWhileCloser + " " + PhraseOf(id), 0))
    ensures Writable(Line(IfLine(id), 0))
  {
    var p := PhraseOf(id);
    PhraseFacts(id);
    AfterOpenerWritable(WhileOpener + " ", p);
    AfterOpenerWritable(DoWhileCloser + " ", p);
    IfThenWritable(IfOpener + " " + p + " ");
  }

  /** A keyword and a space, then a plain phrase. */
  lemma {:induction false} AfterOpenerWritable(head: string, p: string)
    requires head == WhileOpener + " " || head == DoWhileCloser + " "
    requires PlainPhrase(p)
    ensures Writable(Line(head + p, 0))
  {
    JoinedWritable(head, p, 0);
  }

  /** Any one-line text that starts with `если` and ends with `то`. */
  lemma {:induction false} IfThenWritable(head: string)
    requires |head| > 0 && head[0] == IfOpener[0] && '\n' !in head
    ensures Writable(Line(head + IfThen, 0))
  {
    JoinedWritable(head, IfThen, 0);
  }

  /** So does a rendered `нц для` header. */
  lemma {:induction false} ForLineWritable(v: string, a: int, z: int, st: int)
    requires |v| > 0 && SpaceFree(v)
    ensures Writable(Line(ForLine(v, a, z, st), 0))
  {
    var words := ForTail(v, a, z, st);
    JoinWordsShape(words);
    var j := JoinWords(words);
    assert !IsSpace(j[|j| - 1]);
    JoinedWritable(ForOpener + " ", j, 0);
  }

  /** Every rendered header and closer fits on one line without padding. */
  lemma {:induction false} HeadsWritable(c: Cmd)
    requires Renderable(c) && c.IsCompound()
    ensures c.While? ==> Writable(Line(WhileOpener + " " + PhraseOf(c.cond), 0))
    ensures c.DoWhile? ==> Writable(Line(DoWhileCloser + " " + PhraseOf(c.cond), 0))
    ensures c.For? ==> Writable(Line(ForLine(c.counter, c.start, c.end, c.step), 0))
    ensures c.If? ==> Writable(Line(IfLine(c.cond), 0))
  {
    if c.For? {
      ForLineWritable(c.counter, c.start, c.end, c.step);
    } else {
      PhraseLinesWritable(c.cond);
    }
  }

  lemma {:induction false} RenderCmdWritable(c: Cmd)
    requires Renderable(c)
    ensures |RenderCmd(c)| > 0
    ensures forall i | 0 <= i < |RenderCmd(c)| :: Writable(RenderCmd(c)[i])
  {
    match c
    case Simple(p) => KeywordWritable(p, 0);
    case While(cond, b, _) =>
      HeadsWritable(c);
      BlockWritable(WhileOpener + " " + PhraseOf(cond), b, LoopCloser);
    case DoWhile(cond, b, _, _) =>
      HeadsWritable(c);
      BlockWritable(DoWhileOpener, b, DoWhileCloser + " " + PhraseOf(cond));
    case For(v, a, z, st, _, b, _) =>
      HeadsWritable(c);
      BlockWritable(ForLine(v, a, z, st), b, LoopCloser);
    case If(cond, tb, eb, _, _, _, _) =>
      HeadsWritable(c);
      IfLinesWritable(cond, tb, eb);
  }

  /** The lines of a rendered `если`, with or without `иначе`. */
  lemma {:induction false} IfLinesWritable(cond: string, tb: seq<Prim>, eb: seq<Prim>)
    requires cond in ConditionIds && Writable(Line(IfLine(cond), 0))
    ensures var ls := if |eb| == 0 then Block(IfLine(cond), tb, IfCloser)
                      else [Line(IfLine(cond), 0)] + Indented(tb) + Block(ElseMarker, eb, IfCloser);
            forall i | 0 <= i < |ls| :: Writable(ls[i])
  {
    if |eb| == 0 {
      BlockWritable(IfLine(cond), tb, IfCloser);
    } else {
      BlockWritable(ElseMarker, eb, IfCloser);
      forall p | p in tb {
        KeywordWritable(p, BodyIndent);
      }
    }
  }

  lemma {:induction false} RenderAllWritable(cmds: seq<Cmd>)
    requires forall i | 0 <= i < |cmds| :: Renderable(cmds[i])
    ensures |cmds| > 0 ==> |RenderAll(cmds)| > 0
    ensures forall i | 0 <= i < |RenderAll(cmds)| :: Writable(RenderAll(cmds)[i])
  {
    if |cmds| > 0 {
      RenderCmdWritable(cmds[0]);
      RenderAllWritable(cmds[1..]);
    }
  }

  /** The program text of a non-empty renderable command list. */
  function ProgramText(cmds: seq<Cmd>): string
    requires |cmds| > 0
    requires forall i | 0 <= i < |cmds| :: Renderable(cmds[i])
  {
    RenderAllWritable(cmds);
    ToText(RenderAll(cmds))
  }

  /** `parse_program` reads a rendered program back as the commands it was
      rendered from. */
  lemma {:induction false} ParseProgramText(cmds: seq<Cmd>)
    requires |cmds| > 0
    requires forall i | 0 <= i < |cmds| :: Renderable(cmds[i])
    ensures ParseProgram(ProgramText(cmds)) == Ok(cmds)
  {
    RenderAllWritable(cmds);
    NormalizeToText(RenderAll(cmds));
    ParseRenderAll(cmds);
  }

  /** Text whose first line is not indented has nothing for `strip` to
      remove. */
  lemma {:induction false} ToTextTrimmed(lines: seq<Line>)
    requires |lines| >= 1 && lines[0].indent == 0
    requires forall i | 0 <= i < |lines| :: Writable(lines[i])
    ensures |ToText(lines)| > 0 && Trimmed(ToText(lines))
  {
    var raw := seq(|lines|, i requires 0 <= i < |lines| => Spaces(lines[i].indent) + lines[i].text);
    JoinLinesEnds(raw);
    var j := ToText(lines);
    var first, last := raw[0], raw[|raw| - 1];
    assert first == lines[0].text;
    assert j[0] == j[..|first|][0] == first[0];
    var t := lines[|lines| - 1].text;
    assert last[|last| - 1] == t[|t| - 1];
    assert j[|j| - 1] == j[|j| - |last|..][|last| - 1] == last[|last| - 1];
  }

  /** A rendered program starts at indentation 0. */
  lemma {:induction false} RenderAllStartsUnindented(cmds: seq<Cmd>)
    requires |cmds| > 0
    requires forall i | 0 <= i < |cmds| :: Renderable(cmds[i])
    ensures |RenderAll(cmds)| > 0 && RenderAll(cmds)[0].indent == 0
  {
    RenderCmdWritable(cmds[0]);
    assert RenderAll(cmds)[0] == RenderCmd(cmds[0])[0];
  }

  /** `strip` leaves a rendered program unchanged. */
  lemma {:induction false} ProgramTextTrimmed(cmds: seq<Cmd>)
    requires |cmds| > 0
    requires forall i | 0 <= i < |cmds| :: Renderable(cmds[i])
    ensures |ProgramText(cmds)| > 0 && Strip(ProgramText(cmds)) == ProgramText(cmds)
  {
    RenderAllWritable(cmds);
    RenderAllStartsUnindented(cmds);
    ToTextTrimmed(RenderAll(cmds));
    StripTrimmed(ProgramText(cmds));
  }
}
