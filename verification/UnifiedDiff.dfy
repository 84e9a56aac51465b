/** Reading the added line numbers out of a unified diff without context lines.

    Path normalisation is a parameter.  The reader splits its input as str.splitlines does,
    so characters such as a form feed inside a source line end a line too.
 */
module UnifiedDiff {
  import opened Decimal
  import opened Options
  import opened Text

  type Norm = string -> string

  // ---------- lines ----------

  predicate IsBreak(c: char) {
    var n := c as int;
    10 <= n <= 13 || 28 <= n <= 30 || n == 133 || n == 8232 || n == 8233
  }

  predicate OneLine(s: string) {
    forall i :: 0 <= i < |s| ==> !IsBreak(s[i])
  }

  /** The first line of a text, and what follows its line break. */
  function Cut(s: string): (r: (string, string))
    ensures |r.1| <= |s| && (s != [] ==> |r.1| < |s|)
  {
    if s == [] then ([], [])
    else if IsBreak(s[0]) then ([], if |s| > 1 && s[0] == '\r' && s[1] == '\n' then s[2..] else s[1..])
    else var (line, rest) := Cut(s[1..]); ([s[0]] + line, rest)
  }

  function SplitLines(s: string): seq<string>
    decreases |s|
  {
    if s == [] then [] else [Cut(s).0] + SplitLines(Cut(s).1)
  }

  /** What the reader sees of one printed line. */
  function Pieces(line: string): seq<string> {
    SplitLines(line + "\n")
  }

  function AllPieces(lines: seq<string>): seq<string> {
    if lines == [] then [] else Pieces(lines[0]) + AllPieces(lines[1..])
  }

  function PrintLines(lines: seq<string>): string {
    if lines == [] then [] else lines[0] + "\n" + PrintLines(lines[1..])
  }

  // ---------- hunk headers ----------

  datatype Span = Span(start: nat, count: nat)

  function Numbers(r: Span): seq<nat> {
    seq(r.count, i requires 0 <= i => r.start + i)
  }

  /** Length of the leading run of digits. */
  function DigitRun(s: string): (n: nat)
    ensures n <= |s| && forall i :: 0 <= i < n ==> IsDigit(s[i])
  {
    if s == [] || !IsDigit(s[0]) then 0 else 1 + DigitRun(s[1..])
  }

  /** One side of a hunk header, start and optional count, and the text after it. */
  function ReadSide(s: string): Option<(Span, string)> {
    var n := DigitRun(s);
    if n == 0 then None
    else if n < |s| && s[n] == ',' then
      var rest := s[n + 1..];
      var m := DigitRun(rest);
      if m == 0 then None
      else Some((Span(DigitsValue(s[..n]), DigitsValue(rest[..m])), rest[m..]))
    else Some((Span(DigitsValue(s[..n]), 1), s[n..]))
  }

  /** The new side of a hunk header. */
  function MatchHunk(line: string): Option<Span> {
    if !("@@ -" <= line) then None
    else
      var left := ReadSide(line[4..]);
      if left.None? || !(" +" <= left.value.1) then None
      else
        var right := ReadSide(left.value.1[2..]);
        if right.None? || !(" @@" <= right.value.1) then None else Some(right.value.0)
  }

  // ---------- the reader ----------

  datatype State = State(added: map<string, seq<nat>>, current: Option<string>, pending: Option<Span>)

  predicate IsFileLine(line: string) {
    "+++ " <= line
  }

  predicate IsHunkLine(line: string) {
    "@@" <= line
  }

  /** The path a file line switches to; None for a deleted file. */
  function PathOf(name: string, norm: Norm): Option<string> {
    var path := Strip(name);
    if path == "/dev/null" then None else Some(norm(path))
  }

  function Extend(added: map<string, seq<nat>>, path: string, numbers: seq<nat>): map<string, seq<nat>> {
    added[path := (if path in added then added[path] else []) + numbers]
  }

  lemma {:induction false} ExtendNothing(added: map<string, seq<nat>>, path: string)
    requires path in added
    ensures Extend(added, path, []) == added
  {
    assert added[path] + [] == added[path];
  }

  function Flush(s: State): State {
    var added := if s.current.Some? && s.pending.Some?
                 then Extend(s.added, s.current.value, Numbers(s.pending.value)) else s.added;
    State(added, s.current, None)
  }

  function Enter(s: State, path: Option<string>): State {
    State(if path.Some? then Extend(s.added, path.value, []) else s.added, path, None)
  }

  function Step(s: State, line: string, norm: Norm): State {
    if IsFileLine(line) then Enter(Flush(s), PathOf(line[4..], norm))
    else if IsHunkLine(line) && s.current.Some? then Flush(s).(pending := MatchHunk(line))
    else s
  }

  function Feed(s: State, lines: seq<string>, norm: Norm): State
    decreases |lines|
  {
    if lines == [] then s else Feed(Step(s, lines[0], norm), lines[1..], norm)
  }

  const START := State(map[], None, None)

  function Parse(text: string, norm: Norm): map<string, seq<nat>> {
    Flush(Feed(START, SplitLines(text), norm)).added
  }

  /** The reader's variables as a state. */
  function View(added: map<string, seq<nat>>, current: Option<string>, start: Option<nat>, count: nat): State {
    State(added, current, if start.Some? then Some(Span(start.value, count)) else None)
  }

  method FlushPending(added: map<string, seq<nat>>, current: Option<string>, start: Option<nat>, count: nat)
    returns (flushed: map<string, seq<nat>>)
    requires current.Some? ==> current.value in added
    ensures flushed == Flush(View(added, current, start, count)).added
  {
    flushed := added;
    if current.Some? && start.Some? && count > 0 {
      flushed := added[current.value := added[current.value] + Numbers(Span(start.value, count))];
    } else if current.Some? {
      ExtendNothing(added, current.value);
    }
  }

  /** One line of the diff. */
  method ReadLine(line: string, norm: Norm, added0: map<string, seq<nat>>, current0: Option<string>,
                  start0: Option<nat>, count0: nat)
    returns (added: map<string, seq<nat>>, current: Option<string>, start: Option<nat>, count: nat)
    requires current0.Some? ==> current0.value in added0
    ensures current.Some? ==> current.value in added
    ensures View(added, current, start, count) == Step(View(added0, current0, start0, count0), line, norm)
  {
    added, current, start, count := added0, current0, start0, count0;
    if IsFileLine(line) {
      added := FlushPending(added, current, start, count);
      start, count := None, 0;
      var path := Strip(line[4..]);
      current := if path == "/dev/null" then None else Some(norm(path));
      if current.Some? {
        if current.value !in added {
          added := added[current.value := []];
        } else {
          ExtendNothing(added, current.value);
        }
      }
    } else if IsHunkLine(line) && current.Some? {
      added := FlushPending(added, current, start, count);
      start, count := None, 0;
      var m := MatchHunk(line);
      if m.Some? {
        start, count := Some(m.value.start), m.value.count;
      }
    }
  }

  method ParseUnifiedDiff(text: string, norm: Norm) returns (added: map<string, seq<nat>>)
    ensures added == Parse(text, norm)
  {
    added := map[];
    var current: Option<string>, start: Option<nat>, count := None, None, 0;
    var lines, i := SplitLines(text), 0;
    while i < |lines|
      invariant 0 <= i <= |lines|
      invariant current.Some? ==> current.value in added
      invariant Feed(View(added, current, start, count), lines[i..], norm) == Feed(START, lines, norm)
    {
      assert lines[i..][0] == lines[i] && lines[i..][1..] == lines[i + 1..];
      added, current, start, count := ReadLine(lines[i], norm, added, current, start, count);
      i := i + 1;
    }
    added := FlushPending(added, current, start, count);
  }

  // ---------- diffs as git prints them ----------

  datatype Edit = Removed(text: string) | Added(text: string) | NoNewline

  /** Counts that are left out of a header stand for one line. */
  datatype Hunk = Hunk(oldStart: nat, oldCount: Option<nat>, start: nat, count: Option<nat>,
                       section: string, edits: seq<Edit>)

  datatype FileDiff = FileDiff(preamble: seq<string>, oldName: string, newName: string, hunks: seq<Hunk>)

  datatype Diff = Diff(files: seq<FileDiff>, trailer: seq<string>)

  function ShowSide(start: nat, count: Option<nat>): string {
    ShowNat(start) + (if count.Some? then "," + ShowNat(count.value) else "")
  }

  function HunkHead(h: Hunk): string {
    "@@ -" + (ShowSide(h.oldStart, h.oldCount) + (" +" + (ShowSide(h.start, h.count) + " @@")))
  }

  function EditLine(e: Edit): string {
    match e
    case Removed(text) => "-" + text
    case Added(text) => "+" + text
    case NoNewline => "\\ No newline at end of file"
  }

  function EditLines(edits: seq<Edit>): seq<string> {
    seq(|edits|, i requires 0 <= i < |edits| => EditLine(edits[i]))
  }

  function HunkLines(hunks: seq<Hunk>): seq<string> {
    if hunks == [] then []
    else [HunkHead(hunks[0]) + hunks[0].section] + EditLines(hunks[0].edits) + HunkLines(hunks[1..])
  }

  function FileLines(f: FileDiff): seq<string> {
    f.preamble + ["--- " + f.oldName, "+++ " + f.newName] + HunkLines(f.hunks)
  }

  function DiffLines(files: seq<FileDiff>): seq<string> {
    if files == [] then [] else FileLines(files[0]) + DiffLines(files[1..])
  }

  function Print(d: Diff): string {
    PrintLines(DiffLines(d.files) + d.trailer)
  }

  // ---------- what a reader should find ----------

  /** New-side numbers of the added lines: the counter moves on added lines only. */
  function AddedNumbers(edits: seq<Edit>, next: nat): seq<nat> {
    if edits == [] then []
    else if edits[0].Added? then [next] + AddedNumbers(edits[1..], next + 1)
    else AddedNumbers(edits[1..], next)
  }

  function HunkNumbers(hunks: seq<Hunk>): seq<nat> {
    if hunks == [] then []
    else AddedNumbers(hunks[0].edits, hunks[0].start) + HunkNumbers(hunks[1..])
  }

  /** Adding up numbers file by file: a deleted file adds nothing, a file seen before adds more. */
  function Gather(added: map<string, seq<nat>>, files: seq<FileDiff>, numbers: seq<seq<nat>>, norm: Norm)
    : map<string, seq<nat>>
    requires |numbers| == |files|
    decreases |files|
  {
    if files == [] then added
    else
      var path := PathOf(files[0].newName, norm);
      Gather(if path.None? then added else Extend(added, path.value, numbers[0]), files[1..], numbers[1..], norm)
  }

  function TrueNumbers(files: seq<FileDiff>): (numbers: seq<seq<nat>>)
    ensures |numbers| == |files|
  {
    seq(|files|, i requires 0 <= i < |files| => HunkNumbers(files[i].hunks))
  }

  /** For each new-side path, the numbers of its added lines in order. */
  function Expected(d: Diff, norm: Norm): map<string, seq<nat>> {
    Gather(map[], d.files, TrueNumbers(d.files), norm)
  }
}
