/** Round trips and rewriting facts about the string primitives of `Text`. */
module TextLemmas {
  import opened Results
  import opened Text

  /** Joining the pieces of `s.split('\n')` with newlines gives `s` back. */
  lemma {:induction false} JoinSplitLines(s: string)
    ensures JoinLines(SplitLines(s)) == s
    decreases |s|
  {
    if |s| == 0 {
    } else if s[0] == '\n' {
      JoinSplitLines(s[1..]);
      var rest := SplitLines(s[1..]);
      assert ([""] + rest)[1..] == rest;
      assert s == "\n" + s[1..];
    } else {
      JoinSplitLines(s[1..]);
      var rest := SplitLines(s[1..]);
      var r := [[s[0]] + rest[0]] + rest[1..];
      assert s == [s[0]] + s[1..];
      if |rest| > 1 {
        assert r[1..] == rest[1..];
      }
    }
  }

  /** A newline-free string is its own single piece. */
  lemma {:induction false} SplitLinesSingle(s: string)
    requires '\n' !in s
    ensures SplitLines(s) == [s]
    decreases |s|
  {
    if |s| > 0 {
      assert s[0] in s;
      assert forall c | c in s[1..] :: c in s;
      SplitLinesSingle(s[1..]);
      assert s == [s[0]] + s[1..];
    }
  }

  /** Splitting stops at the first newline. */
  lemma {:induction false} SplitLinesAt(line: string, t: string)
    requires '\n' !in line
    ensures SplitLines(line + "\n" + t) == [line] + SplitLines(t)
    decreases |line|
  {
    var s := line + "\n" + t;
    if |line| == 0 {
      assert s[1..] == t;
    } else {
      assert line[0] in line;
      assert forall c | c in line[1..] :: c in line;
      SplitLinesAt(line[1..], t);
      assert s[1..] == line[1..] + "\n" + t;
      assert line == [line[0]] + line[1..];
    }
  }

  /** Splitting undoes joining when no piece holds a newline. */
  lemma {:induction false} SplitJoinLines(lines: seq<string>)
    requires |lines| >= 1
    requires forall i | 0 <= i < |lines| :: '\n' !in lines[i]
    ensures SplitLines(JoinLines(lines)) == lines
    decreases |lines|
  {
    if |lines| == 1 {
      SplitLinesSingle(lines[0]);
    } else {
      SplitJoinLines(lines[1..]);
      SplitLinesAt(lines[0], JoinLines(lines[1..]));
      assert lines == [lines[0]] + lines[1..];
    }
  }

  /** The whole of a whitespace-free string is one word. */
  lemma {:induction false} WordLengthOfSpaceFree(s: string, t: string)
    requires SpaceFree(s)
    requires |t| == 0 || IsSpace(t[0])
    ensures WordLength(s + t) == |s|
  {
    assert forall i | 0 <= i < |s| :: (s + t)[i] == s[i];
    assert |t| > 0 ==> (s + t)[|s|] == t[0];
  }

  /** A leading word followed by whitespace (or nothing) is split off first. */
  lemma {:induction false} WordsOfWordThen(w: string, r: string)
    requires |w| > 0 && SpaceFree(w)
    requires |r| == 0 || IsSpace(r[0])
    ensures Words(w + r) == [w] + Words(r)
  {
    var s := w + r;
    assert s[0] == w[0];
    WordLengthOfSpaceFree(w, r);
    assert s[..|w|] == w;
    assert s[|w|..] == r;
  }

  /** Leading whitespace does not change the word split. */
  lemma {:induction false} WordsAfterSpace(s: string)
    ensures Words(" " + s) == Words(s)
  {
    assert (" " + s)[1..] == s;
  }

  /** `str.split()` undoes `' '.join` on non-empty whitespace-free words. */
  lemma {:induction false} WordsJoinWords(words: seq<string>)
    requires |words| >= 1
    requires forall i | 0 <= i < |words| :: |words[i]| > 0 && SpaceFree(words[i])
    ensures Words(JoinWords(words)) == words
    decreases |words|
  {
    var w := words[0];
    if |words| == 1 {
      WordsOfWordThen(w, "");
      assert w + "" == w;
    } else {
      WordsJoinWords(words[1..]);
      WordsOfWordSpace(w, JoinWords(words[1..]), words[1..]);
      assert words == [w] + words[1..];
    }
  }

  /** A word, a space and a text whose words are `rest` have the words
      `[w] + rest`. */
  lemma {:induction false} WordsOfWordSpace(w: string, j: string, rest: seq<string>)
    requires |w| > 0 && SpaceFree(w) && Words(j) == rest
    ensures Words(w + " " + j) == [w] + rest
  {
    assert w + " " + j == w + (" " + j);
    WordsOfWordThen(w, " " + j);
    WordsAfterSpace(j);
  }

  /** Reading back a numeral gives the number it was written from. */
  lemma {:induction false} DigitsValueOfNatToString(n: nat)
    ensures DigitsValue(NatToString(n)) == n
    decreases n
  {
    if n >= 10 {
      var s := NatToString(n);
      assert s[..|s| - 1] == NatToString(n / 10);
      DigitsValueOfNatToString(n / 10);
    }
  }

  /** `int(str(n)) == n`. */
  lemma {:induction false} ParseIntOfIntToString(n: int)
    ensures ParseInt(IntToString(n)) == Some(n)
  {
    if n < 0 {
      ParseIntOfNegative(-n);
    } else {
      ParseIntOfNat(n);
    }
  }

  lemma {:induction false} ParseIntOfNat(n: nat)
    ensures ParseInt(NatToString(n)) == Some(n)
  {
    var s := NatToString(n);
    assert IsDigit(s[0]);
    DigitsValueOfNatToString(n);
  }

  lemma {:induction false} ParseIntOfNegative(m: nat)
    requires m > 0
    ensures ParseInt("-" + NatToString(m)) == Some(-(m as int))
  {
    var s := "-" + NatToString(m);
    assert s[1..] == NatToString(m);
    DigitsValueOfNatToString(m);
  }

  predicate AllSpace(s: string) {
    forall i | 0 <= i < |s| :: IsSpace(s[i])
  }

  /** Leading whitespace of a padded text is exactly the padding. */
  lemma {:induction false} LeadingSpacePadded(a: string, u: string)
    requires AllSpace(a)
    requires |u| > 0 && !IsSpace(u[0])
    ensures LeadingSpace(a + u) == |a|
  {
    assert forall i | 0 <= i < |a| :: (a + u)[i] == a[i];
    assert (a + u)[|a|] == u[0];
  }

  /** Trailing whitespace of a padded text is exactly the padding. */
  lemma {:induction false} TrailingSpacePadded(u: string, b: string)
    requires AllSpace(b)
    requires |u| > 0 && !IsSpace(u[|u| - 1])
    ensures TrailingSpace(u + b) == |b|
  {
    var s := u + b;
    assert forall i | |u| <= i < |s| :: s[i] == b[i - |u|];
    assert s[|u| - 1] == u[|u| - 1];
  }

  /** `strip` removes exactly the surrounding whitespace of a trimmed text. */
  lemma {:induction false} StripPadded(a: string, t: string, b: string)
    requires AllSpace(a) && AllSpace(b)
    requires |t| > 0 && Trimmed(t)
    ensures Strip(a + t + b) == t
    ensures LeadingSpace(a + t + b) == |a|
  {
    var s := a + t + b;
    assert s == a + (t + b);
    assert (t + b)[0] == t[0];
    LeadingSpacePadded(a, t + b);
    assert (a + t)[|a + t| - 1] == t[|t| - 1];
    TrailingSpacePadded(a + t, b);
    assert s[|a|..|s| - |b|] == t;
  }

  /** `strip` leaves a trimmed text alone. */
  lemma {:induction false} StripTrimmed(t: string)
    requires Trimmed(t)
    ensures Strip(t) == t
  {
    if |t| > 0 {
      StripPadded("", t, "");
      assert "" + t + "" == t;
    }
  }

  /** An occurrence of the pattern at the very start is deleted. */
  lemma {:induction false} RemoveAllPrefix(pat: string, t: string)
    requires |pat| > 0
    ensures RemoveAll(pat + t, pat) == RemoveAll(t, pat)
  {
    assert (pat + t)[..|pat|] == pat;
    assert (pat + t)[|pat|..] == t;
  }

  /** A text missing one of the pattern's characters holds no occurrence. */
  lemma {:induction false} RemoveAllAbsent(s: string, pat: string, c: char)
    requires |pat| > 0 && c in pat && c !in s
    ensures RemoveAll(s, pat) == s
    decreases |s|
  {
    if |s| >= |pat| {
      assert forall x | x in s[..|pat|] :: x in s;
      assert forall x | x in s[1..] :: x in s;
      RemoveAllAbsent(s[1..], pat, c);
      assert s == [s[0]] + s[1..];
    }
  }

  /** No occurrence can start inside a prefix that lacks the pattern's first
      character, so the prefix passes through unchanged. */
  lemma {:induction false} RemoveAllSkip(s: string, t: string, pat: string)
    requires |pat| > 0 && pat[0] !in s
    ensures RemoveAll(s + t, pat) == s + RemoveAll(t, pat)
    decreases |s|
  {
    if |s| == 0 {
      assert s + t == t;
    } else {
      assert forall x | x in s[1..] :: x in s;
      RemoveAllSkip(s[1..], t, pat);
      RemoveAllSkipOne(s, t, pat);
    }
  }

  /** The step of `RemoveAllSkip`: the first character of `s` passes through. */
  lemma {:induction false} RemoveAllSkipOne(s: string, t: string, pat: string)
    requires |pat| > 0 && |s| > 0 && pat[0] != s[0]
    requires RemoveAll(s[1..] + t, pat) == s[1..] + RemoveAll(t, pat)
    ensures RemoveAll(s + t, pat) == s + RemoveAll(t, pat)
  {
    var u := s[1..] + t;
    assert s + t == [s[0]] + u;
    assert |u| + 1 >= |pat| ==> ([s[0]] + u)[..|pat|][0] == s[0];
    RemoveAllKeep(s[0], u, pat);
    assert s == [s[0]] + s[1..];
  }

  /** A character that does not start an occurrence passes through. */
  lemma {:induction false} RemoveAllKeep(c: char, t: string, pat: string)
    requires |pat| > 0
    requires |t| + 1 >= |pat| ==> ([c] + t)[..|pat|] != pat
    ensures RemoveAll([c] + t, pat) == [c] + RemoveAll(t, pat)
  {
    assert ([c] + t)[1..] == t;
    if |t| + 1 < |pat| {
      if |t| >= |pat| {
      } else {
        assert RemoveAll(t, pat) == t;
      }
    }
  }

  /** Words joined by single spaces: no newline, no whitespace at either end. */
  lemma {:induction false} JoinWordsShape(words: seq<string>)
    requires |words| >= 1
    requires forall i | 0 <= i < |words| :: |words[i]| > 0 && SpaceFree(words[i])
    ensures |JoinWords(words)| > 0 && Trimmed(JoinWords(words)) && '\n' !in JoinWords(words)
    decreases |words|
  {
    var w := words[0];
    assert IsSpace('\n');
    assert '\n' !in w by {
      assert forall i | 0 <= i < |w| :: w[i] != '\n';
    }
    if |words| > 1 {
      var j := JoinWords(words[1..]);
      JoinWordsShape(words[1..]);
      var s := w + " " + j;
      assert s[0] == w[0];
      assert s[|s| - 1] == j[|j| - 1];
    }
  }

  /** `'\n'.join` starts with the first line and ends with the last one. */
  lemma {:induction false} JoinLinesEnds(lines: seq<string>)
    requires |lines| >= 1
    ensures var j, last := JoinLines(lines), lines[|lines| - 1];
            && |lines[0]| <= |j| && j[..|lines[0]|] == lines[0]
            && |last| <= |j| && j[|j| - |last|..] == last
    decreases |lines|
  {
    if |lines| > 1 {
      JoinLinesEnds(lines[1..]);
      var rest := JoinLines(lines[1..]);
      var j := lines[0] + "\n" + rest;
      assert j[..|lines[0]|] == lines[0];
      assert j[|j| - |rest|..] == rest;
    }
  }
}
