/** The diff reader on the lines and hunks that git prints, and whom it credits their numbers to. */
module DiffRoundTrip {
  import opened Decimal
  import opened Options
  import opened Text
  import opened UnifiedDiff

  // ---------- splitting what was printed ----------

  predicate EndsLine(s: string) {
    s == [] || s[|s| - 1] == '\n'
  }

  lemma {:induction false} CutPrefix(s: string, t: string)
    requires OneLine(s)
    ensures Cut(s + t) == (s + Cut(t).0, Cut(t).1)
  {
    if s == [] {
      assert s + t == t;
      assert s + Cut(t).0 == Cut(t).0;
    } else {
      assert (s + t)[0] == s[0] && (s + t)[1..] == s[1..] + t;
      CutPrefix(s[1..], t);
      assert [s[0]] + (s[1..] + Cut(t).0) == s + Cut(t).0;
    }
  }

  /** Where the first line ends does not depend on what follows the last newline. */
  lemma {:induction false} CutAppend(s: string, rest: string)
    requires s != [] && EndsLine(s)
    ensures Cut(s + rest) == (Cut(s).0, Cut(s).1 + rest) && EndsLine(Cut(s).1)
  {
    assert (s + rest)[0] == s[0] && (s + rest)[1..] == s[1..] + rest;
    if !IsBreak(s[0]) {
      CutAppend(s[1..], rest);
    } else if |s| > 1 {
      assert (s + rest)[1] == s[1] && (s + rest)[2..] == s[2..] + rest;
    }
  }

  /** Text up to a newline is split on its own. */
  lemma {:induction false} SplitAtNewline(s: string, rest: string)
    requires EndsLine(s)
    ensures SplitLines(s + rest) == SplitLines(s) + SplitLines(rest)
    decreases |s|
  {
    if s == [] {
      assert s + rest == rest;
    } else {
      CutAppend(s, rest);
      SplitAtNewline(Cut(s).1, rest);
      assert SplitLines(s + rest) == [Cut(s).0] + SplitLines(Cut(s).1 + rest);
      Associate([Cut(s).0], SplitLines(Cut(s).1), SplitLines(rest));
    }
  }

  lemma {:induction false} Associate(a: seq<string>, b: seq<string>, c: seq<string>)
    ensures a + (b + c) == a + b + c
  {
  }

  lemma {:induction false} SplitPrinted(lines: seq<string>)
    ensures SplitLines(PrintLines(lines)) == AllPieces(lines)
  {
    if lines != [] {
      SplitPrinted(lines[1..]);
      SplitAtNewline(lines[0] + "\n", PrintLines(lines[1..]));
    }
  }

  /** A prefix without line breaks stays on the first piece. */
  lemma {:induction false} PiecesPrefix(s: string, t: string)
    requires OneLine(s)
    ensures Pieces(t) != [] && Pieces(s + t) == [s + Pieces(t)[0]] + Pieces(t)[1..]
  {
    var u := t + "\n";
    CutPrefix(s, u);
    assert s + t + "\n" == s + u && s + u != [];
  }

  lemma {:induction false} PiecesOneLine(s: string)
    requires OneLine(s)
    ensures Pieces(s) == [s]
  {
    PiecesPrefix(s, "");
    assert s + "" == s;
    assert "" + "\n" == "\n" && Cut("\n") == ("", "");
    assert Pieces("") == [""];
  }

  lemma {:induction false} AllPiecesAppend(a: seq<string>, b: seq<string>)
    ensures AllPieces(a + b) == AllPieces(a) + AllPieces(b)
  {
    if a == [] {
      assert a + b == b;
    } else {
      assert (a + b)[1..] == a[1..] + b;
      AllPiecesAppend(a[1..], b);
    }
  }

  // ---------- reading back a hunk header ----------

  lemma {:induction false} DigitRunAt(s: string, rest: string)
    requires forall i :: 0 <= i < |s| ==> IsDigit(s[i])
    requires rest == [] || !IsDigit(rest[0])
    ensures DigitRun(s + rest) == |s|
  {
    if s == [] {
      assert s + rest == rest;
    } else {
      assert (s + rest)[0] == s[0] && (s + rest)[1..] == s[1..] + rest;
      DigitRunAt(s[1..], rest);
    }
  }

  function CountOf(count: Option<nat>): nat {
    if count.Some? then count.value else 1
  }

  lemma {:induction false} ReadShownSide(start: nat, count: Option<nat>, rest: string)
    requires rest != [] && !IsDigit(rest[0]) && rest[0] != ','
    ensures ReadSide(ShowSide(start, count) + rest) == Some((Span(start, CountOf(count)), rest))
  {
    ShowNatDigits(start);
    var a := ShowNat(start);
    if count.Some? {
      var b := ShowNat(count.value);
      ShowNatDigits(count.value);
      var s := a + ("," + (b + rest));
      assert ShowSide(start, count) + rest == s;
      DigitRunAt(a, "," + (b + rest));
      DigitRunAt(b, rest);
      assert s[..|a|] == a && s[|a| + 1..] == b + rest;
      assert (b + rest)[..|b|] == b && (b + rest)[|b|..] == rest;
    } else {
      var s := a + rest;
      assert ShowSide(start, count) + rest == s;
      DigitRunAt(a, rest);
      assert s[..|a|] == a && s[|a|..] == rest;
    }
  }

  /** The header git prints is read back, whatever follows it on the line. */
  lemma {:induction false} MatchPrinted(h: Hunk, rest: string)
    ensures MatchHunk(HunkHead(h) + rest) == Some(Span(h.start, CountOf(h.count)))
    ensures IsHunkLine(HunkHead(h) + rest) && !IsFileLine(HunkHead(h) + rest)
  {
    var tail := " @@" + rest;
    var mid := " +" + (ShowSide(h.start, h.count) + tail);
    var line := "@@ -" + (ShowSide(h.oldStart, h.oldCount) + mid);
    assert HunkHead(h) + rest == line;
    assert line[4..] == ShowSide(h.oldStart, h.oldCount) + mid;
    ReadShownSide(h.oldStart, h.oldCount, mid);
    assert mid[2..] == ShowSide(h.start, h.count) + tail;
    ReadShownSide(h.start, h.count, tail);
    assert line[0] == '@' && line[1] == '@';
  }

  // ---------- reading one file ----------

  function FoundIn(piece: string): seq<nat> {
    if IsHunkLine(piece) && MatchHunk(piece).Some? then Numbers(MatchHunk(piece).value) else []
  }

  /** The numbers of all lines that read as hunk headers. */
  function Found(pieces: seq<string>): seq<nat> {
    if pieces == [] then [] else FoundIn(pieces[0]) + Found(pieces[1..])
  }

  /** The file the reader is in after one more line. */
  function Next(piece: string, current: Option<string>, norm: Norm): Option<string> {
    if IsFileLine(piece) then PathOf(piece[4..], norm) else current
  }

  /** The file the reader is in after the pieces. */
  function CurrentAfter(pieces: seq<string>, current: Option<string>, norm: Norm): Option<string> {
    if pieces == [] then current
    else CurrentAfter(pieces[1..], Next(pieces[0], current, norm), norm)
  }

  /** The numbers that the reader credits to path q. */
  function Credited(pieces: seq<string>, current: Option<string>, q: string, norm: Norm): seq<nat> {
    if pieces == [] then []
    else CreditOf(pieces[0], current, q) + Credited(pieces[1..], Next(pieces[0], current, norm), q, norm)
  }

  /** What one line credits to path q when the reader is in the file `current`. */
  function CreditOf(piece: string, current: Option<string>, q: string): seq<nat> {
    if !IsFileLine(piece) && current == Some(q) then FoundIn(piece) else []
  }

  /** The paths that file headers among the pieces name. */
  function Named(pieces: seq<string>, norm: Norm): set<string> {
    if pieces == [] then {}
    else NameIn(pieces[0], norm) + Named(pieces[1..], norm)
  }

  function NameIn(piece: string, norm: Norm): set<string> {
    if IsFileLine(piece) then OptionSet(PathOf(piece[4..], norm)) else {}
  }

  function OptionSet(path: Option<string>): set<string> {
    if path.Some? then {path.value} else {}
  }

  /** Every line that carries numbers comes while the reader is in its own file. */
  predicate InPlace(pieces: seq<string>, current: Option<string>, own: Option<string>, norm: Norm) {
    pieces == []
    || ((CarriesNumbers(pieces[0]) ==> current == own)
        && InPlace(pieces[1..], Next(pieces[0], current, norm), own, norm))
  }

  /** The file headers among the pieces switch to these paths only. */
  predicate Strays(pieces: seq<string>, paths: set<Option<string>>, norm: Norm) {
    forall i :: 0 <= i < |pieces| && IsFileLine(pieces[i]) ==> PathOf(pieces[i][4..], norm) in paths
  }

  lemma {:induction false} FoundInIff(piece: string)
    ensures FoundIn(piece) != [] <==> CarriesNumbers(piece)
    ensures IsFileLine(piece) ==> FoundIn(piece) == []
  {
    if IsFileLine(piece) {
      assert piece[0] == '+';
    }
  }

  /** What a file is credited with against all the numbers of its lines. */
  lemma {:induction false} OwnCredit(pieces: seq<string>, current: Option<string>, p: string, norm: Norm)
    ensures |Credited(pieces, current, p, norm)| <= |Found(pieces)|
    ensures InPlace(pieces, current, Some(p), norm) ==> Credited(pieces, current, p, norm) == Found(pieces)
    ensures !InPlace(pieces, current, Some(p), norm) ==> |Credited(pieces, current, p, norm)| < |Found(pieces)|
  {
    if pieces != [] {
      FoundInIff(pieces[0]);
      OwnCredit(pieces[1..], Next(pieces[0], current, norm), p, norm);
    }
  }

  /** With all numbers in place no other file is credited with any. */
  lemma {:induction false} ForeignCredit(pieces: seq<string>, current: Option<string>, own: Option<string>, q: string,
                                         norm: Norm)
    requires InPlace(pieces, current, own, norm) && own != Some(q)
    ensures Credited(pieces, current, q, norm) == []
  {
    if pieces != [] {
      FoundInIff(pieces[0]);
      ForeignCredit(pieces[1..], Next(pieces[0], current, norm), own, q, norm);
    }
  }

  /** A file that no header names gets nothing. */
  lemma {:induction false} UnnamedCredit(pieces: seq<string>, current: Option<string>, paths: set<Option<string>>,
                                         q: string, norm: Norm)
    requires Strays(pieces, paths, norm) && current in paths && Some(q) !in paths
    ensures Credited(pieces, current, q, norm) == []
  {
    if pieces != [] {
      StraysParts([pieces[0]], pieces[1..], paths, norm) by {
        assert [pieces[0]] + pieces[1..] == pieces;
      }
      assert IsFileLine(pieces[0]) ==> PathOf(pieces[0][4..], norm) in paths;
      UnnamedCredit(pieces[1..], Next(pieces[0], current, norm), paths, q, norm);
    }
  }

  /** Lines without numbers, or without file headers, are in place. */
  lemma {:induction false} QuietInPlace(pieces: seq<string>, current: Option<string>, own: Option<string>, norm: Norm)
    requires Found(pieces) == [] || (NoFileLine(pieces) && current == own)
    ensures InPlace(pieces, current, own, norm)
  {
    if pieces != [] {
      FoundInIff(pieces[0]);
      QuietInPlace(pieces[1..], Next(pieces[0], current, norm), own, norm);
    }
  }

  lemma {:induction false} CreditedAppend(a: seq<string>, b: seq<string>, current: Option<string>, q: string,
                                          norm: Norm)
    ensures Credited(a + b, current, q, norm)
            == Credited(a, current, q, norm) + Credited(b, CurrentAfter(a, current, norm), q, norm)
  {
    if a == [] {
      assert a + b == b;
    } else {
      assert (a + b)[0] == a[0] && (a + b)[1..] == a[1..] + b;
      var next := Next(a[0], current, norm);
      CreditedAppend(a[1..], b, next, q, norm);
      Regroup(CreditOf(a[0], current, q), Credited(a[1..], next, q, norm),
              Credited(b, CurrentAfter(a, current, norm), q, norm));
    }
  }

  lemma {:induction false} StaysInFile(pieces: seq<string>, current: Option<string>, q: string, norm: Norm)
    requires NoFileLine(pieces) && NoNumbers(pieces)
    ensures CurrentAfter(pieces, current, norm) == current && Credited(pieces, current, q, norm) == []
  {
    if pieces != [] {
      FoundInIff(pieces[0]);
      StaysInFile(pieces[1..], current, q, norm);
    }
  }

  lemma {:induction false} NamedAppend(a: seq<string>, b: seq<string>, norm: Norm)
    ensures Named(a + b, norm) == Named(a, norm) + Named(b, norm)
  {
    if a == [] {
      assert a + b == b;
    } else {
      assert (a + b)[0] == a[0] && (a + b)[1..] == a[1..] + b;
      NamedAppend(a[1..], b, norm);
    }
  }

  lemma {:induction false} NamedAt(pieces: seq<string>, q: string, norm: Norm)
    ensures q in Named(pieces, norm) <==>
            exists i :: 0 <= i < |pieces| && IsFileLine(pieces[i]) && PathOf(pieces[i][4..], norm) == Some(q)
  {
    if pieces != [] {
      var rest := pieces[1..];
      NamedAt(rest, q, norm);
      assert forall i :: 0 < i < |pieces| ==> pieces[i] == rest[i - 1];
      if i :| 0 <= i < |rest| && IsFileLine(rest[i]) && PathOf(rest[i][4..], norm) == Some(q) {
        assert pieces[i + 1] == rest[i];
      }
    }
  }

  predicate NoFileLine(pieces: seq<string>) {
    forall i :: 0 <= i < |pieces| ==> !IsFileLine(pieces[i])
  }

  predicate NoNumbers(pieces: seq<string>) {
    forall i :: 0 <= i < |pieces| ==> !CarriesNumbers(pieces[i])
  }

  predicate CarriesNumbers(piece: string) {
    IsHunkLine(piece) && MatchHunk(piece).Some? && MatchHunk(piece).value.count > 0
  }

  /** What lies inside a hunk: the rest of its header's text and its lines, as the reader splits them. */
  function Content(h: Hunk): seq<string> {
    (if Pieces(h.section) == [] then [] else Pieces(h.section)[1..]) + AllPieces(EditLines(h.edits))
  }

  function FileContent(hunks: seq<Hunk>): seq<string> {
    if hunks == [] then [] else Content(hunks[0]) + FileContent(hunks[1..])
  }

  function Count(edits: seq<Edit>): nat {
    if edits == [] then 0 else (if edits[0].Added? then 1 else 0) + Count(edits[1..])
  }

  predicate Plain(line: string) {
    OneLine(line) && !IsFileLine(line) && !IsHunkLine(line)
  }

  predicate AllPlain(lines: seq<string>) {
    forall i :: 0 <= i < |lines| ==> Plain(lines[i])
  }

  /** Header counts agree with the lines, and git's own lines are single and not mistakable. */
  predicate WellPrinted(f: FileDiff) {
    && AllPlain(f.preamble) && OneLine(f.oldName) && OneLine(f.newName)
    && CountsAgree(f.hunks)
  }

  function Lines(s: State): map<string, seq<nat>> {
    Flush(s).added
  }

  /** What holds between two lines. */
  predicate Ready(s: State) {
    if s.current.Some? then s.current.value in s.added else s.pending.None?
  }

  lemma {:induction false} FeedAppend(s: State, a: seq<string>, b: seq<string>, norm: Norm)
    ensures Feed(s, a + b, norm) == Feed(Feed(s, a, norm), b, norm)
    decreases |a|
  {
    if a == [] {
      assert a + b == b;
    } else {
      assert (a + b)[0] == a[0] && (a + b)[1..] == a[1..] + b;
      FeedAppend(Step(s, a[0], norm), a[1..], b, norm);
    }
  }

  lemma {:induction false} FeedPlain(s: State, lines: seq<string>, norm: Norm)
    requires AllPlain(lines)
    ensures Feed(s, lines, norm) == s && AllPieces(lines) == lines
    decreases |lines|
  {
    if lines != [] {
      FeedPlain(s, lines[1..], norm);
      PiecesOneLine(lines[0]);
    }
  }

  lemma {:induction false} ExtendTwice(added: map<string, seq<nat>>, path: string, a: seq<nat>, b: seq<nat>)
    ensures Extend(Extend(added, path, a), path, b) == Extend(added, path, a + b)
  {
    var before := if path in added then added[path] else [];
    assert before + a + b == before + (a + b);
  }

  /** The numbers of a path. */
  function ListOf(added: map<string, seq<nat>>, q: string): seq<nat> {
    if q in added then added[q] else []
  }

  /** From one result to the next, path q gains these numbers, and these paths come in. */
  ghost predicate Gains(m: map<string, seq<nat>>, n: map<string, seq<nat>>, q: string, numbers: seq<nat>,
                        paths: set<string>)
  {
    ListOf(n, q) == ListOf(m, q) + numbers && n.Keys == m.Keys + paths
  }

  lemma {:induction false} GainsTwice(a: map<string, seq<nat>>, b: map<string, seq<nat>>, c: map<string, seq<nat>>,
                                      q: string, x: seq<nat>, y: seq<nat>, u: set<string>, v: set<string>)
    requires Gains(a, b, q, x, u) && Gains(b, c, q, y, v)
    ensures Gains(a, c, q, x + y, u + v)
  {
    Regroup(ListOf(a, q), x, y);
  }

  lemma {:induction false} Regroup(a: seq<nat>, b: seq<nat>, c: seq<nat>)
    ensures a + b + c == a + (b + c)
  {
  }

  lemma {:induction false} GainsNothing(m: map<string, seq<nat>>, q: string)
    ensures Gains(m, m, q, [], {})
  {
  }

  lemma {:induction false} ExtendGains(added: map<string, seq<nat>>, path: string, numbers: seq<nat>, q: string)
    ensures Gains(added, Extend(added, path, numbers), q, if q == path then numbers else [], {path})
  {
  }

  /** One line credits its numbers to the file the reader is in. */
  lemma {:induction false} StepCredits(s: State, piece: string, norm: Norm, q: string)
    requires Ready(s)
    ensures var t := Step(s, piece, norm);
            && Ready(t)
            && t.current == (Next(piece, s.current, norm))
            && Gains(Lines(s), Lines(t), q, CreditOf(piece, s.current, q), NameIn(piece, norm))
  {
    GainsNothing(Lines(s), q);
    if IsFileLine(piece) {
      var path := PathOf(piece[4..], norm);
      if path.Some? { ExtendGains(Lines(s), path.value, [], q); }
    } else if IsHunkLine(piece) && s.current.Some? {
      ExtendGains(Lines(s), s.current.value, FoundIn(piece), q);
    }
  }

  lemma {:induction false} FeedCredits(s: State, pieces: seq<string>, norm: Norm, q: string)
    requires Ready(s)
    ensures var t := Feed(s, pieces, norm);
            && Ready(t) && t.current == CurrentAfter(pieces, s.current, norm)
            && Gains(Lines(s), Lines(t), q, Credited(pieces, s.current, q, norm), Named(pieces, norm))
    decreases |pieces|
  {
    if pieces == [] {
      GainsNothing(Lines(s), q);
    } else {
      var t, rest := Step(s, pieces[0], norm), pieces[1..];
      StepCredits(s, pieces[0], norm, q);
      FeedCredits(t, rest, norm, q);
      GainsTwice(Lines(s), Lines(t), Lines(Feed(t, rest, norm)), q, CreditOf(pieces[0], s.current, q),
                 Credited(rest, t.current, q, norm), NameIn(pieces[0], norm), Named(rest, norm));
    }
  }

  lemma {:induction false} TwoLines(s: State, a: string, b: string, norm: Norm)
    ensures AllPieces([a, b]) == Pieces(a) + Pieces(b)
    ensures Feed(s, [a, b], norm) == Step(Step(s, a, norm), b, norm)
  {
    assert [a, b][1..] == [b];
    assert AllPieces([b]) == Pieces(b);
    assert Feed(Step(s, a, norm), [b], norm) == Step(Step(s, a, norm), b, norm);
  }

  /** The header of a printed file ends the previous one and starts its own. */
  lemma {:induction false} FeedFileHeader(s: State, f: FileDiff, norm: Norm)
    requires WellPrinted(f) && Ready(s)
    ensures
      var head := f.preamble + ["--- " + f.oldName, "+++ " + f.newName];
      AllPieces(head) == head && Feed(s, head, norm) == Enter(Flush(s), PathOf(f.newName, norm))
  {
    var minus, plus := "--- " + f.oldName, "+++ " + f.newName;
    FeedPlain(s, f.preamble, norm);
    PiecesOneLine(minus);
    PiecesOneLine(plus);
    AllPiecesAppend(f.preamble, [minus, plus]);
    TwoLines(s, minus, plus, norm);
    FeedAppend(s, f.preamble, [minus, plus], norm);
    assert plus[4..] == f.newName;
    assert minus[0] == '-' && !IsFileLine(minus) && !IsHunkLine(minus);
    assert IsFileLine(plus);
    assert Step(s, minus, norm) == s;
  }

  lemma {:induction false} FoundAppend(a: seq<string>, b: seq<string>)
    ensures Found(a + b) == Found(a) + Found(b)
  {
    if a == [] {
      assert a + b == b;
    } else {
      assert (a + b)[0] == a[0] && (a + b)[1..] == a[1..] + b;
      FoundAppend(a[1..], b);
    }
  }

  /** One hunk as the reader sees it. */
  function HunkPiecesOf(h: Hunk): seq<string> {
    AllPieces([HunkHead(h) + h.section] + EditLines(h.edits))
  }

  lemma {:induction false} HunkPieces(h: Hunk)
    ensures Pieces(h.section) != []
    ensures HunkPiecesOf(h) == [HunkHead(h) + Pieces(h.section)[0]] + Content(h)
  {
    HunkHeadOneLine(h);
    HeadPieces(HunkHead(h), h.section, EditLines(h.edits));
  }

  lemma {:induction false} HeadPieces(head: string, section: string, lines: seq<string>)
    requires OneLine(head)
    ensures Pieces(section) != []
    ensures AllPieces([head + section] + lines)
            == [head + Pieces(section)[0]] + (Pieces(section)[1..] + AllPieces(lines))
  {
    PiecesPrefix(head, section);
    assert ([head + section] + lines)[1..] == lines;
  }

  lemma {:induction false} HunkHeadOneLine(h: Hunk)
    ensures OneLine(HunkHead(h))
  {
    ShowSideOneLine(h.oldStart, h.oldCount);
    ShowSideOneLine(h.start, h.count);
  }

  lemma {:induction false} ShowSideOneLine(start: nat, count: Option<nat>)
    ensures OneLine(ShowSide(start, count))
  {
    ShowNatDigits(start);
    if count.Some? { ShowNatDigits(count.value); }
  }

  lemma {:induction false} NumbersOfEdits(edits: seq<Edit>, next: nat)
    ensures AddedNumbers(edits, next) == Numbers(Span(next, Count(edits)))
  {
    if edits != [] {
      NumbersOfEdits(edits[1..], if edits[0].Added? then next + 1 else next);
    }
  }

  /** Inside a hunk the reader finds the hunk's own numbers, then whatever its content carries. */
  lemma {:induction false} FoundInHunk(h: Hunk)
    requires CountOf(h.count) == Count(h.edits)
    ensures Found(HunkPiecesOf(h)) == AddedNumbers(h.edits, h.start) + Found(Content(h))
  {
    HunkPieces(h);
    MatchPrinted(h, Pieces(h.section)[0]);
    NumbersOfEdits(h.edits, h.start);
    var top := [HunkHead(h) + Pieces(h.section)[0]];
    assert (top + Content(h))[1..] == Content(h);
  }

  predicate CountsAgree(hunks: seq<Hunk>) {
    forall i :: 0 <= i < |hunks| ==> CountOf(hunks[i].count) == Count(hunks[i].edits)
  }

  lemma {:induction false} HunkLinesSplit(hunks: seq<Hunk>)
    requires hunks != []
    ensures AllPieces(HunkLines(hunks)) == HunkPiecesOf(hunks[0]) + AllPieces(HunkLines(hunks[1..]))
  {
    AllPiecesAppend([HunkHead(hunks[0]) + hunks[0].section] + EditLines(hunks[0].edits), HunkLines(hunks[1..]));
  }

  /** Adding one hunk to what was found. */
  lemma {:induction false} FoundJoin(first: seq<string>, content: seq<string>, own: seq<nat>, rest: seq<string>,
                                     restContent: seq<string>, restOwn: seq<nat>)
    requires Found(first) == own + Found(content)
    requires |Found(rest)| == |restOwn| + |Found(restContent)|
    requires Found(restContent) == [] ==> Found(rest) == restOwn
    ensures |Found(first + rest)| == |own + restOwn| + |Found(content + restContent)|
    ensures Found(content + restContent) == [] ==> Found(first + rest) == own + restOwn
  {
    FoundAppend(first, rest);
    FoundAppend(content, restContent);
    JoinLists(own, Found(content), restOwn, Found(restContent), Found(rest));
  }

  lemma {:induction false} JoinLists(own: seq<nat>, c: seq<nat>, restOwn: seq<nat>, restC: seq<nat>, rest: seq<nat>)
    requires |rest| == |restOwn| + |restC| && (restC == [] ==> rest == restOwn)
    ensures |own + c + rest| == |own + restOwn| + |c + restC|
    ensures c + restC == [] ==> own + c + rest == own + restOwn
  {
    if c + restC == [] {
      assert |c + restC| == |c| + |restC|;
      assert own + c == own;
    }
  }

  /** Over all hunks of a file: exact when the content carries no numbers, and longer otherwise. */
  lemma {:induction false} FoundInHunks(hunks: seq<Hunk>)
    requires CountsAgree(hunks)
    ensures |Found(AllPieces(HunkLines(hunks)))| == |HunkNumbers(hunks)| + |Found(FileContent(hunks))|
    ensures Found(FileContent(hunks)) == [] ==> Found(AllPieces(HunkLines(hunks))) == HunkNumbers(hunks)
  {
    if hunks != [] {
      var h, rest := hunks[0], hunks[1..];
      FoundInHunks(rest);
      FoundInHunk(h);
      HunkLinesSplit(hunks);
      FoundJoin(HunkPiecesOf(h), Content(h), AddedNumbers(h.edits, h.start),
                AllPieces(HunkLines(rest)), FileContent(rest), HunkNumbers(rest));
    }
  }

  /** Stray headers are those of the content: the hunk headers are none. */
  lemma {:induction false} StraysInHunks(hunks: seq<Hunk>, paths: set<Option<string>>, norm: Norm)
    requires Strays(FileContent(hunks), paths, norm)
    ensures Strays(AllPieces(HunkLines(hunks)), paths, norm)
  {
    if hunks != [] {
      var h, rest := hunks[0], hunks[1..];
      StraysParts(Content(h), FileContent(rest), paths, norm);
      StraysInHunks(rest, paths, norm);
      HunkPieces(h);
      MatchPrinted(h, Pieces(h.section)[0]);
      StraysJoin([HunkHead(h) + Pieces(h.section)[0]], Content(h), paths, norm);
      HunkLinesSplit(hunks);
      StraysJoin(HunkPiecesOf(h), AllPieces(HunkLines(rest)), paths, norm);
    }
  }

  lemma {:induction false} StraysParts(a: seq<string>, b: seq<string>, paths: set<Option<string>>, norm: Norm)
    requires Strays(a + b, paths, norm)
    ensures Strays(a, paths, norm) && Strays(b, paths, norm)
  {
    forall i | 0 <= i < |b| && IsFileLine(b[i]) ensures PathOf(b[i][4..], norm) in paths {
      assert (a + b)[|a| + i] == b[i];
    }
    forall i | 0 <= i < |a| && IsFileLine(a[i]) ensures PathOf(a[i][4..], norm) in paths {
      assert (a + b)[i] == a[i];
    }
  }

  lemma {:induction false} StraysJoin(a: seq<string>, b: seq<string>, paths: set<Option<string>>, norm: Norm)
    requires Strays(a, paths, norm) && Strays(b, paths, norm)
    ensures Strays(a + b, paths, norm)
  {
  }

  lemma {:induction false} FoundNothingIff(pieces: seq<string>)
    ensures Found(pieces) == [] <==> NoNumbers(pieces)
  {
    if pieces != [] {
      FoundNothingIff(pieces[1..]);
      assert FoundIn(pieces[0]) == [] <==> !CarriesNumbers(pieces[0]);
      NoNumbersFirst(pieces);
    }
  }

  lemma {:induction false} NoNumbersFirst(pieces: seq<string>)
    requires pieces != []
    ensures NoNumbers(pieces) <==> !CarriesNumbers(pieces[0]) && NoNumbers(pieces[1..])
  {
    if NoNumbers(pieces[1..]) {
      assert forall i :: 0 < i < |pieces| ==> pieces[i] == pieces[1..][i - 1];
    }
  }

  // ---------- single-line text ----------

  /** For source text of single lines, the only line that passes for a header is an added one that
      starts with two plus signs and a blank. */
  lemma {:induction false} OneLineEdit(e: Edit)
    requires e.NoNewline? || OneLine(e.text)
    ensures Pieces(EditLine(e)) == [EditLine(e)] && !IsHunkLine(EditLine(e))
    ensures IsFileLine(EditLine(e)) <==> e.Added? && "++ " <= e.text
  {
    var line := EditLine(e);
    PiecesOneLine(line);
    if e.Added? {
      assert line == "+" + e.text;
      PlusPlus(e.text);
    }
  }

  lemma {:induction false} PlusPlus(text: string)
    ensures "+++ " <= "+" + text <==> "++ " <= text
  {
    assert "+++ " == "+" + "++ ";
    assert ("+" + text)[1..] == text;
    if "+++ " <= "+" + text {
      assert "+++ "[1..] <= ("+" + text)[1..];
    }
  }

  /** Source text of single lines throughout. */
  predicate SingleLines(hunks: seq<Hunk>) {
    forall i :: 0 <= i < |hunks| ==> OneLine(hunks[i].section) && SingleEdits(hunks[i].edits)
  }

  predicate SingleEdits(edits: seq<Edit>) {
    forall i :: 0 <= i < |edits| && !edits[i].NoNewline? ==> OneLine(edits[i].text)
  }

  predicate NoPlusPlus(edits: seq<Edit>) {
    forall i :: 0 <= i < |edits| && edits[i].Added? ==> !("++ " <= edits[i].text)
  }

  lemma {:induction false} SingleEditPieces(edits: seq<Edit>)
    requires SingleEdits(edits) && NoPlusPlus(edits)
    ensures NoFileLine(AllPieces(EditLines(edits))) && NoNumbers(AllPieces(EditLines(edits)))
  {
    if edits != [] {
      SingleEditPieces(edits[1..]);
      OneLineEdit(edits[0]);
      assert EditLines(edits)[1..] == EditLines(edits[1..]);
      HarmlessAppend(EditLine(edits[0]), AllPieces(EditLines(edits[1..])));
    }
  }

  /** No line of single-line text reads as a hunk header. */
  lemma {:induction false} SingleEditNumbers(edits: seq<Edit>)
    requires SingleEdits(edits)
    ensures NoNumbers(AllPieces(EditLines(edits)))
  {
    if edits != [] {
      SingleEditNumbers(edits[1..]);
      OneLineEdit(edits[0]);
      assert EditLines(edits)[1..] == EditLines(edits[1..]);
      var pieces := AllPieces(EditLines(edits));
      assert pieces == [EditLine(edits[0])] + AllPieces(EditLines(edits[1..]));
      NoNumbersFirst(pieces);
      assert pieces[1..] == AllPieces(EditLines(edits[1..]));
    }
  }

  lemma {:induction false} SingleNoNumbers(hunks: seq<Hunk>)
    requires SingleLines(hunks)
    ensures NoNumbers(FileContent(hunks))
  {
    if hunks != [] {
      SingleNoNumbers(hunks[1..]);
      SingleEditNumbers(hunks[0].edits);
      PiecesOneLine(hunks[0].section);
      assert Content(hunks[0]) == AllPieces(EditLines(hunks[0].edits));
    }
  }

  lemma {:induction false} HarmlessAppend(line: string, rest: seq<string>)
    requires !IsFileLine(line) && !IsHunkLine(line) && NoFileLine(rest) && NoNumbers(rest)
    ensures NoFileLine([line] + rest) && NoNumbers([line] + rest)
  {
    var pieces := [line] + rest;
    assert !CarriesNumbers(line);
    assert forall i :: 0 < i < |pieces| ==> pieces[i] == rest[i - 1];
  }

  lemma {:induction false} SingleContent(hunks: seq<Hunk>)
    requires SingleLines(hunks)
    requires forall i :: 0 <= i < |hunks| ==> NoPlusPlus(hunks[i].edits)
    ensures NoFileLine(FileContent(hunks)) && NoNumbers(FileContent(hunks))
  {
    if hunks != [] {
      SingleContent(hunks[1..]);
      SingleEditPieces(hunks[0].edits);
      PiecesOneLine(hunks[0].section);
      assert Content(hunks[0]) == AllPieces(EditLines(hunks[0].edits));
    }
  }
}
