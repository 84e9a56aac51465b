/** The characters of a diff: where the reader ends its lines, and which lines are hunk headers.
 */
module DiffText {
  import opened Decimal
  import opened DiffRoundTrip
  import opened Options
  import opened UnifiedDiff

  // ---------- line ends ----------

  /** A line ends at its first line break, which a carriage return shares with a newline behind it. */
  lemma {:induction false} LineEnds(line: string, c: char, rest: string)
    requires OneLine(line) && IsBreak(c)
    ensures
      SplitLines(line + [c] + rest)
      == [line] + SplitLines(if c == '\r' && rest != [] && rest[0] == '\n' then rest[1..] else rest)
  {
    CutLine(line, c, rest);
    assert line + [c] + rest != [];
  }

  lemma {:induction false} CutLine(line: string, c: char, rest: string)
    requires OneLine(line) && IsBreak(c)
    ensures Cut(line + [c] + rest) == (line, if c == '\r' && rest != [] && rest[0] == '\n' then rest[1..] else rest)
  {
    var s := line + [c] + rest;
    if line == [] {
      assert s[1..] == rest;
      assert |s| > 1 ==> s[2..] == rest[1..];
    } else {
      assert s[0] == line[0] && s[1..] == line[1..] + [c] + rest && line == [line[0]] + line[1..];
      assert OneLine(line[1..]);
      CutLine(line[1..], c, rest);
    }
  }

  /** The last line needs no line break. */
  lemma {:induction false} LastLine(line: string)
    requires OneLine(line)
    ensures SplitLines(line) == if line == [] then [] else [line]
  {
    if line != [] {
      CutRest(line);
      assert SplitLines("") == [];
    }
  }

  lemma {:induction false} CutRest(line: string)
    requires OneLine(line)
    ensures Cut(line) == (line, "")
  {
    if line != [] {
      assert OneLine(line[1..]) && line == [line[0]] + line[1..];
      CutRest(line[1..]);
    }
  }

  // ---------- hunk headers ----------

  predicate Digits(s: string) {
    s != [] && forall i :: 0 <= i < |s| ==> '0' <= s[i] <= '9'
  }

  /** Digits, and perhaps a comma and digits, which stand for a start and a number of lines. */
  ghost predicate IsSide(side: string, span: Span) {
    || (Digits(side) && span == Span(DigitsValue(side), 1))
    || exists i :: 0 < i < |side| && TwoNumbers(side, i, span)
  }

  predicate TwoNumbers(side: string, i: nat, span: Span)
    requires 0 < i < |side|
  {
    side[i] == ',' && Digits(side[..i]) && Digits(side[i + 1..])
    && span == Span(DigitsValue(side[..i]), DigitsValue(side[i + 1..]))
  }

  lemma {:induction false} NumberRead(a: string, rest: string)
    requires Digits(a) && rest != [] && rest[0] == ' '
    ensures ReadSide(a + rest) == Some((Span(DigitsValue(a), 1), rest))
  {
    DigitRunAt(a, rest);
    assert (a + rest)[..|a|] == a && (a + rest)[|a|..] == rest;
  }

  lemma {:induction false} NumbersRead(a: string, b: string, rest: string)
    requires Digits(a) && Digits(b) && rest != [] && rest[0] == ' '
    ensures ReadSide(a + ("," + (b + rest))) == Some((Span(DigitsValue(a), DigitsValue(b)), rest))
  {
    var s := a + ("," + (b + rest));
    DigitRunAt(a, "," + (b + rest));
    assert s[|a|] == ',' && s[|a| + 1..] == b + rest && s[..|a|] == a;
    DigitRunAt(b, rest);
    assert (b + rest)[..|b|] == b && (b + rest)[|b|..] == rest;
  }

  lemma {:induction false} CommaInside(side: string, i: nat, rest: string)
    requires i < |side| && side[i] == ','
    ensures side + rest == side[..i] + ("," + (side[i + 1..] + rest))
  {
    assert side == side[..i] + ([','] + side[i + 1..]);
    var a, b := side[..i], side[i + 1..];
    assert (a + ([','] + b)) + rest == a + (([','] + b) + rest) == a + ([','] + (b + rest));
  }

  lemma {:induction false} SideRead(side: string, span: Span, rest: string)
    requires IsSide(side, span) && rest != [] && rest[0] == ' '
    ensures ReadSide(side + rest) == Some((span, rest))
  {
    if Digits(side) && span == Span(DigitsValue(side), 1) {
      NumberRead(side, rest);
    } else {
      var i :| 0 < i < |side| && TwoNumbers(side, i, span);
      NumbersRead(side[..i], side[i + 1..], rest);
      CommaInside(side, i, rest);
    }
  }

  lemma {:induction false} ReadSideShape(s: string) returns (side: string)
    requires ReadSide(s).Some?
    ensures IsSide(side, ReadSide(s).value.0) && s == side + ReadSide(s).value.1
  {
    var n := DigitRun(s);
    if n < |s| && s[n] == ',' {
      var m := DigitRun(s[n + 1..]);
      side := s[..n + 1 + m];
      assert side[..n] == s[..n] && side[n + 1..] == s[n + 1..][..m];
      assert TwoNumbers(side, n, ReadSide(s).value.0);
      assert s[n + 1..][m..] == s[n + 1 + m..];
    } else {
      side := s[..n];
    }
  }

  /** The line is "@@ -", an old side, " +", the new side, " @@" and anything. */
  ghost predicate IsHunkHeader(line: string, was: string, now: string, rest: string) {
    line == "@@ -" + (was + (" +" + (now + (" @@" + rest))))
  }

  /** A line is read as a hunk header exactly when it has this form, and then its new side is taken. */
  lemma {:induction false} HunkHeaderRead(line: string, was: string, o: Span, now: string, span: Span, rest: string)
    requires IsHunkHeader(line, was, now, rest) && IsSide(was, o) && IsSide(now, span)
    ensures MatchHunk(line) == Some(span)
  {
    var right := now + (" @@" + rest);
    assert line[4..] == was + (" +" + right);
    SideRead(was, o, " +" + right);
    assert (" +" + right)[2..] == right;
    SideRead(now, span, " @@" + rest);
  }

  lemma {:induction false} NothingElseIsHunkHeader(line: string)
    returns (was: string, o: Span, now: string, rest: string)
    requires MatchHunk(line).Some?
    ensures IsHunkHeader(line, was, now, rest) && IsSide(was, o) && IsSide(now, MatchHunk(line).value)
  {
    var left := ReadSide(line[4..]).value;
    was := ReadSideShape(line[4..]);
    o := left.0;
    Prefixed("@@ -", line);
    var right := ReadSide(left.1[2..]).value;
    now := ReadSideShape(left.1[2..]);
    Prefixed(" +", left.1);
    rest := right.1[3..];
    Prefixed(" @@", right.1);
  }

  lemma {:induction false} Prefixed(p: string, s: string)
    requires p <= s
    ensures s == p + s[|p|..]
  {
  }
}
