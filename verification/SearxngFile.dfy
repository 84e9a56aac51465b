/** The patch as it acts on the text of the settings file.
 */
module SearxngFile {
  import opened Text
  import opened LineWeaving
  import opened SearxngConfig
  import opened SearxngPatch
  import opened Options

  /** Length of the first line, its newline included. */
  function LineLength(text: string): (n: nat)
    ensures n <= |text| && (text != [] ==> n > 0)
  {
    if text == [] then 0 else if text[0] == '\n' then 1 else 1 + LineLength(text[1..])
  }

  /** The lines of a text, each with its newline. */
  function SplitLines(text: string): seq<string> {
    if text == [] then [] else [text[..LineLength(text)]] + SplitLines(text[LineLength(text)..])
  }

  function Join(lines: seq<string>): string {
    if lines == [] then [] else lines[0] + Join(lines[1..])
  }

  ghost predicate Terminated(line: string) {
    line != [] && line[|line| - 1] == '\n' && '\n' !in line[..|line| - 1]
  }

  ghost predicate AllTerminated(lines: seq<string>) {
    forall i :: 0 <= i < |lines| ==> Terminated(lines[i])
  }

  lemma {:induction false} FirstLine(line: string, rest: string)
    requires Terminated(line)
    ensures LineLength(line + rest) == |line|
  {
    assert (line + rest)[0] == line[0] && (line + rest)[1..] == line[1..] + rest;
    if line[0] != '\n' {
      assert line[1..][..|line[1..]| - 1] == line[..|line| - 1][1..];
      FirstLine(line[1..], rest);
    }
  }

  /** Writing terminated lines and reading them back gives the same lines. */
  lemma {:induction false} SplitJoin(lines: seq<string>)
    requires AllTerminated(lines)
    ensures SplitLines(Join(lines)) == lines
  {
    if lines != [] {
      FirstLine(lines[0], Join(lines[1..]));
      SplitJoin(lines[1..]);
      assert Join(lines)[..|lines[0]|] == lines[0] && Join(lines)[|lines[0]|..] == Join(lines[1..]);
    }
  }

  lemma {:induction false} LineLengthFacts(text: string)
    requires text != []
    ensures '\n' !in text[..LineLength(text) - 1]
    ensures LineLength(text) < |text| || text[|text| - 1] == '\n' ==> text[LineLength(text) - 1] == '\n'
  {
    if text[0] != '\n' && text[1..] != [] {
      LineLengthFacts(text[1..]);
      assert text[..LineLength(text) - 1] == [text[0]] + text[1..][..LineLength(text[1..]) - 1];
    }
  }

  /** The text is empty or ends in a newline. */
  predicate Closed(text: string) {
    text == [] || text[|text| - 1] == '\n'
  }

  /** A text that ends in a newline has only terminated lines. */
  lemma {:induction false} SplitTerminated(text: string)
    requires Closed(text)
    ensures AllTerminated(SplitLines(text))
  {
    if text != [] {
      LineLengthFacts(text);
      var n := LineLength(text);
      assert text[..n][..n - 1] == text[..n - 1];
      SplitTerminated(text[n..]);
    }
  }

  lemma {:induction false} WeaveTerminated(l: seq<string>, at: set<nat>, x: string, i: nat)
    requires i <= |l| && AllTerminated(l) && Terminated(x)
    ensures AllTerminated(Weave(l, at, x, i))
    decreases |l| - i
  {
    if i < |l| {
      WeaveTerminated(l, at, x, i + 1);
    }
  }

  lemma {:induction false} FixedTerminated()
    ensures Terminated(JSON_LINE) && Terminated(TRUE_LINE) && Terminated(FALSE_LINE)
  {
  }

  lemma {:induction false} PatchedTerminated(l: seq<string>, force: set<string>, blocked: set<string>)
    requires AllTerminated(l)
    ensures AllTerminated(Patched(l, force, blocked))
  {
    FixedTerminated();
    if !JsonDone(l) {
      WeaveTerminated(l, {First(l, FORMATS) + 1}, JSON_LINE, 0);
    }
    assert AllTerminated(Enabled(l, force));
    WeaveTerminated(Enabled(l, force), InsertSet(Enabled(l, force), blocked), TRUE_LINE, 0);
  }

  ghost function PatchFile(text: string, force: set<string>, blocked: set<string>): string {
    Join(Patched(SplitLines(text), force, blocked))
  }

  // ---------- files that end in a newline ----------

  lemma {:induction false} PatchedFileLines(text: string, force: set<string>, blocked: set<string>)
    requires Closed(text)
    ensures SplitLines(PatchFile(text, force, blocked)) == Patched(SplitLines(text), force, blocked)
    ensures AllTerminated(Patched(SplitLines(text), force, blocked))
  {
    SplitTerminated(text);
    PatchedTerminated(SplitLines(text), force, blocked);
    SplitJoin(Patched(SplitLines(text), force, blocked));
  }

  ghost predicate DisabledIn(lines: seq<string>, name: string) {
    BlockOf(lines, name).Some? && !NeedsDisabling(lines, name)
  }

  /** Every blocked engine found before is found after, with a `disabled:` line. */
  ghost predicate AllDisabled(before: seq<string>, after: seq<string>, blocked: set<string>) {
    forall n :: n in blocked && BlockOf(before, n).Some? ==> DisabledIn(after, n)
  }

  /** The patch of the lines loses no engine. */
  lemma {:induction false} PatchKeepsEngines(l: seq<string>, force: set<string>, blocked: set<string>, name: string)
    ensures BlockOf(Patched(l, force, blocked), name).Some? <==> BlockOf(l, name).Some?
  {
    InsertedLinesNeutral();
    StagesKeepEngines(l, force, name);
    WeaveMovesBlocks(Enabled(l, force), InsertSet(Enabled(l, force), blocked), TRUE_LINE, name);
  }

  lemma {:induction false} PatchedLinesDisabled(l: seq<string>, force: set<string>, blocked: set<string>)
    ensures AllDisabled(l, Patched(l, force, blocked), blocked)
  {
    forall n | n in blocked && BlockOf(l, n).Some?
      ensures DisabledIn(Patched(l, force, blocked), n)
    {
      PatchKeepsEngines(l, force, blocked, n);
      BlockedEnginesDisabled(l, force, blocked, n);
    }
  }

  // ---------- files without a final newline ----------

  /** All lines but the last end in a newline. */
  ghost predicate OpenEnd(l: seq<string>) {
    && l != [] && l[|l| - 1] != [] && '\n' !in l[|l| - 1]
    && forall i :: 0 <= i < |l| - 1 ==> Terminated(l[i])
  }

  lemma {:induction false} SplitOpen(text: string)
    requires !Closed(text)
    ensures OpenEnd(SplitLines(text))
  {
    var n := LineLength(text);
    LineLengthFacts(text);
    assert text == text[..n] + text[n..];
    if n == |text| {
      assert text[..n] == text && text[n..] == [];
      assert SplitLines(text) == [text] + SplitLines([]);
      assert text == text[..n - 1] + [text[n - 1]];
    } else {
      assert text[..n][..n - 1] == text[..n - 1];
      var rest := SplitLines(text[n..]);
      SplitOpen(text[n..]);
      assert SplitLines(text) == [text[..n]] + rest;
    }
  }

  lemma {:induction false} JoinAppend(a: seq<string>, b: seq<string>)
    ensures Join(a + b) == Join(a) + Join(b)
  {
    if a == [] {
      assert a + b == b;
    } else {
      assert (a + b)[0] == a[0] && (a + b)[1..] == a[1..] + b;
      JoinAppend(a[1..], b);
    }
  }

  lemma {:induction false} LongLine(text: string)
    requires '\n' !in text
    ensures LineLength(text) == |text|
  {
    if text != [] {
      LongLine(text[1..]);
    }
  }

  lemma {:induction false} SplitJoinOpen(l: seq<string>)
    requires OpenEnd(l)
    ensures SplitLines(Join(l)) == l
  {
    if |l| == 1 {
      LongLine(l[0]);
      assert Join(l) == l[0] + Join(l[1..]) && l[1..] == [];
      assert l[0] + "" == l[0] && l[0][..|l[0]|] == l[0];
    } else {
      FirstLine(l[0], Join(l[1..]));
      SplitJoinOpen(l[1..]);
      assert Join(l)[..|l[0]|] == l[0] && Join(l)[|l[0]|..] == Join(l[1..]);
    }
  }

  /** Insertions before the last line leave the end open. */
  lemma {:induction false} WeaveOpen(l: seq<string>, at: set<nat>, x: string, i: nat)
    requires OpenEnd(l) && Terminated(x) && |l| !in at && i < |l|
    ensures OpenEnd(Weave(l, at, x, i))
    decreases |l| - i
  {
    var piece, rest := Piece(l, at, x, i), Weave(l, at, x, i + 1);
    if i == |l| - 1 {
      assert rest == [] && piece + rest == piece;
    } else {
      WeaveOpen(l, at, x, i + 1);
      assert Terminated(l[i]);
    }
  }

  /** The last line is the header that the search finds for the engine. */
  ghost predicate HeaderAtEnd(l: seq<string>, name: string) {
    BlockOf(l, name).Some? && BlockOf(l, name).value.start + 1 == |l|
  }

  /** The last line is the header that the search finds for a blocked engine. */
  ghost predicate EndsInBlockedHeader(l: seq<string>, blocked: set<string>) {
    exists n :: n in blocked && HeaderAtEnd(l, n)
  }

  /** The JSON item goes behind the last line. */
  ghost predicate JsonAtEnd(l: seq<string>) {
    !JsonDone(l) && First(l, FORMATS) + 1 == |l|
  }

  lemma {:induction false} JsonMovesBlocks(l: seq<string>, name: string)
    ensures JsonDone(l) ==> BlockOf(WithJson(l), name) == BlockOf(l, name)
    ensures !JsonDone(l) ==> BlockOf(WithJson(l), name) == MovedBlock({First(l, FORMATS) + 1}, BlockOf(l, name))
  {
    if !JsonDone(l) {
      JsonItemMovesBlocks(l, {First(l, FORMATS) + 1}, name);
    }
  }

  lemma {:induction false} JsonItemMovesBlocks(l: seq<string>, at: set<nat>, name: string)
    ensures BlockOf(Weave(l, at, JSON_LINE, 0), name) == MovedBlock(at, BlockOf(l, name))
  {
    InsertedLinesNeutral();
    WeaveMovesBlocks(l, at, JSON_LINE, name);
  }

  lemma {:induction false} EnablingKeepsBlocks(l: seq<string>, force: set<string>, name: string)
    ensures BlockOf(Enabled(l, force), name) == BlockOf(WithJson(l), name)
  {
    FlipSetTrue(WithJson(l), force);
    FlipKeepsBlocks(WithJson(l), FlipSet(WithJson(l), force), name);
  }

  lemma {:induction false} StagesKeepEngines(l: seq<string>, force: set<string>, name: string)
    ensures BlockOf(Enabled(l, force), name).Some? <==> BlockOf(l, name).Some?
  {
    JsonKeepsEngines(l, name);
    EnablingKeepsBlocks(l, force, name);
  }

  lemma {:induction false} JsonKeepsEngines(l: seq<string>, name: string)
    ensures BlockOf(WithJson(l), name).Some? <==> BlockOf(l, name).Some?
  {
    JsonMovesBlocks(l, name);
  }

  /** One insertion point before the last line moves the last line by one. */
  lemma {:induction false} PosOne(a: nat, i: nat)
    ensures Pos({a}, i) == i + if a <= i then 1 else 0
  {
    if i > 0 {
      PosOne(a, i - 1);
    }
  }

  /** Whether an engine's header is the last line does not change in the first two stages. */
  lemma {:induction false} StagesKeepHeaderLast(l: seq<string>, force: set<string>, name: string)
    requires !JsonAtEnd(l)
    ensures HeaderAtEnd(Enabled(l, force), name) <==> HeaderAtEnd(l, name)
  {
    JsonKeepsHeaderLast(l, name);
    EnablingKeepsBlocks(l, force, name);
  }

  lemma {:induction false} JsonKeepsHeaderLast(l: seq<string>, name: string)
    requires !JsonAtEnd(l)
    ensures HeaderAtEnd(WithJson(l), name) <==> HeaderAtEnd(l, name)
  {
    JsonMovesBlocks(l, name);
    if !JsonDone(l) {
      var f := First(l, FORMATS);
      WeaveOne(l, JSON_LINE, f + 1);
      assert |WithJson(l)| == |l| + 1;
      BlockMovesOne(l, f + 1, name);
    }
  }

  lemma {:induction false} BlockMovesOne(l: seq<string>, a: nat, name: string)
    requires a < |l|
    ensures BlockOf(l, name).Some? ==>
              (MovedBlock({a}, BlockOf(l, name)).value.start == |l| <==> HeaderAtEnd(l, name))
  {
    if BlockOf(l, name).Some? {
      BlockFacts(l, name);
      PosOne(a, BlockOf(l, name).value.start);
    }
  }

  /** Nothing is inserted behind the last line. */
  lemma {:induction false} NothingAtEnd(l: seq<string>, force: set<string>, blocked: set<string>)
    requires !EndsInBlockedHeader(l, blocked) && !JsonAtEnd(l)
    ensures |Enabled(l, force)| !in InsertSet(Enabled(l, force), blocked)
  {
    forall n | n in blocked
      ensures !HeaderAtEnd(Enabled(l, force), n)
    {
      assert !HeaderAtEnd(l, n);
      StagesKeepHeaderLast(l, force, n);
    }
    OnlyHeadersAtEnd(Enabled(l, force), blocked);
  }

  lemma {:induction false} OnlyHeadersAtEnd(e: seq<string>, blocked: set<string>)
    requires forall n :: n in blocked ==> !HeaderAtEnd(e, n)
    ensures |e| !in InsertSet(e, blocked)
  {
  }

  /** The last line was rewritten, which ends it. */
  ghost predicate EndsInFalse(l: seq<string>) {
    AllTerminated(l) && l != [] && l[|l| - 1] == FALSE_LINE
  }

  lemma {:induction false} FlipOpen(l: seq<string>, at: set<nat>)
    requires OpenEnd(l)
    ensures OpenEnd(Flip(l, at)) || EndsInFalse(Flip(l, at))
  {
    var r := Flip(l, at);
    assert Terminated(FALSE_LINE);
    forall i | 0 <= i < |l| - 1
      ensures Terminated(r[i])
    {
      assert Terminated(l[i]);
    }
  }

  lemma {:induction false} WithJsonOpen(l: seq<string>)
    requires OpenEnd(l) && !JsonAtEnd(l)
    ensures OpenEnd(WithJson(l))
  {
    FixedTerminated();
    if !JsonDone(l) {
      WeaveOpen(l, {First(l, FORMATS) + 1}, JSON_LINE, 0);
    }
  }

  lemma {:induction false} EnabledOpen(l: seq<string>, force: set<string>)
    requires OpenEnd(l) && !JsonAtEnd(l)
    ensures OpenEnd(Enabled(l, force)) || EndsInFalse(Enabled(l, force))
  {
    WithJsonOpen(l);
    FlipOpen(WithJson(l), FlipSet(WithJson(l), force));
  }

  /** With nothing behind the last line the patched lines are read back as they were written. */
  lemma {:induction false} OpenFileLines(text: string, force: set<string>, blocked: set<string>)
    requires OpenEnd(SplitLines(text))
    requires !EndsInBlockedHeader(SplitLines(text), blocked) && !JsonAtEnd(SplitLines(text))
    ensures SplitLines(PatchFile(text, force, blocked)) == Patched(SplitLines(text), force, blocked)
  {
    var l := SplitLines(text);
    NothingAtEnd(l, force, blocked);
    EnabledOpen(l, force);
    WovenReadsBack(Enabled(l, force), InsertSet(Enabled(l, force), blocked));
  }

  lemma {:induction false} WovenReadsBack(l: seq<string>, at: set<nat>)
    requires AllTerminated(l) || (OpenEnd(l) && |l| !in at)
    ensures SplitLines(Join(Weave(l, at, TRUE_LINE, 0))) == Weave(l, at, TRUE_LINE, 0)
  {
    assert Terminated(TRUE_LINE);
    if AllTerminated(l) {
      WeaveTerminated(l, at, TRUE_LINE, 0);
      SplitJoin(Weave(l, at, TRUE_LINE, 0));
    } else {
      WeaveOpen(l, at, TRUE_LINE, 0);
      SplitJoinOpen(Weave(l, at, TRUE_LINE, 0));
    }
  }

  // ---------- a line glued to the last one ----------

  /** Nothing is inserted in a tail behind all insertion points. */
  lemma {:induction false} WeaveTail(a: seq<string>, tail: seq<string>, at: set<nat>, x: string, i: nat)
    requires i <= |a| && forall k :: k in at ==> k <= |a|
    ensures Weave(a + tail, at, x, i) == Weave(a, at, x, i) + tail
    decreases |a| - i
  {
    if i == |a| {
      if tail != [] {
        WeaveAgrees(a + tail, at, {}, x, i + 1);
        WeaveNothing(a + tail, x, i + 1);
        assert (a + tail)[i + 1..] == tail[1..] && (a + tail)[i] == tail[0];
        assert [tail[0]] + tail[1..] == tail;
      }
    } else {
      WeaveTail(a, tail, at, x, i + 1);
      assert Piece(a + tail, at, x, i) == Piece(a, at, x, i);
    }
  }

  /** The last insertion comes behind everything. */
  lemma {:induction false} WeaveLast(l: seq<string>, at: set<nat>, x: string, i: nat)
    requires i <= |l| && |l| in at
    ensures Weave(l, at, x, i) == Weave(l, at - {|l|}, x, i) + [x]
    decreases |l| - i
  {
    if i < |l| {
      WeaveLast(l, at, x, i + 1);
      assert Piece(l, at - {|l|}, x, i) == Piece(l, at, x, i);
    }
  }

  lemma {:induction false} JoinTwo(a: string, b: string)
    ensures Join([a, b]) == a + b == Join([a + b])
  {
    assert [a, b][1..] == [b] && [b][1..] == [] && [a + b][1..] == [];
    assert Join([b]) == b + [] == b;
    assert Join([a + b]) == a + b + [];
  }

  /** A line behind an unterminated one is read back as part of that line. */
  lemma {:induction false} GluedReadsBack(x: seq<string>, u: string, v: string)
    requires AllTerminated(x) && '\n' !in u && Terminated(v)
    ensures SplitLines(Join(x + [u, v])) == x + [u + v]
  {
    JoinTwo(u, v);
    JoinAppend(x, [u, v]);
    JoinAppend(x, [u + v]);
    assert Terminated(u + v);
    SplitJoin(x + [u + v]);
  }

  // ---------- the last line is the header of a blocked engine ----------

  lemma {:induction false} GluedIsNoHeader(u: string, name: string)
    requires IsHeader(u, name) && '\n' !in u
    ensures !IsHeader(u + TRUE_LINE, name) && Terminated(u + TRUE_LINE)
  {
    var n := |"  - name: " + name|;
    assert (u + TRUE_LINE)[n..][|u| - n + 4] == 'd';
  }

  lemma {:induction false} HeaderNotFormats(l: seq<string>, name: string)
    requires HeaderAtEnd(l, name)
    ensures !JsonAtEnd(l)
  {
    BlockFacts(l, name);
    HeaderIsBlockEnd(l[|l| - 1], name);
    FirstFacts(l, FORMATS);
  }

  lemma {:induction false} LastHeader(l: seq<string>, name: string)
    requires HeaderAtEnd(l, name)
    ensures IsHeader(l[|l| - 1], name) && NeedsDisabling(l, name)
  {
    BlockFacts(l, name);
  }

  /** The header stays the last line, unterminated, when the other stages have run. */
  lemma {:induction false} HeaderStaysLast(l: seq<string>, force: set<string>, name: string)
    requires OpenEnd(l) && HeaderAtEnd(l, name)
    ensures OpenEnd(Enabled(l, force)) && HeaderAtEnd(Enabled(l, force), name)
  {
    HeaderNotFormats(l, name);
    StagesKeepHeaderLast(l, force, name);
    EnabledOpen(l, force);
    HeaderNotFalse(Enabled(l, force), name);
  }

  lemma {:induction false} HeaderNotFalse(e: seq<string>, name: string)
    requires HeaderAtEnd(e, name)
    ensures !EndsInFalse(e)
  {
    LastHeader(e, name);
    FalseLine();
    DisabledIsNothingElse(FALSE_LINE, name);
  }

  /** The patched lines of a file whose unterminated last line is the header found for a blocked
      engine: the inserted line comes last. */
  lemma {:induction false} HeaderPatched(l: seq<string>, force: set<string>, blocked: set<string>, name: string)
    returns (x: seq<string>, u: string)
    requires OpenEnd(l) && HeaderAtEnd(l, name) && name in blocked
    ensures Patched(l, force, blocked) == x + [u, TRUE_LINE] && AllTerminated(x)
    ensures IsHeader(u, name) && '\n' !in u && BlockOf(x, name).None?
  {
    var e := Enabled(l, force);
    HeaderStaysLast(l, force, name);
    x, u := HeaderWoven(e, InsertSet(e, blocked), name) by {
      LastHeader(e, name);
      InsertedWithin(e, blocked);
    }
  }

  lemma {:induction false} InsertedWithin(e: seq<string>, blocked: set<string>)
    ensures forall a :: a in InsertSet(e, blocked) ==> 0 < a <= |e|
  {
    InsertSetAfterHeaders(e, blocked);
    forall a | a in InsertSet(e, blocked)
      ensures 0 < a <= |e|
    {
      assert AfterHeader(e, a, blocked);
    }
  }

  lemma {:induction false} HeaderWoven(e: seq<string>, at: set<nat>, name: string) returns (x: seq<string>, u: string)
    requires OpenEnd(e) && HeaderAtEnd(e, name) && IsHeader(e[|e| - 1], name)
    requires |e| in at && forall a :: a in at ==> a <= |e|
    ensures Weave(e, at, TRUE_LINE, 0) == x + [u, TRUE_LINE] && AllTerminated(x)
    ensures IsHeader(u, name) && '\n' !in u && BlockOf(x, name).None?
  {
    var e0 := e[..|e| - 1];
    u := e[|e| - 1];
    assert e == e0 + [u];
    WeaveLast(e, at, TRUE_LINE, 0);
    WeaveTail(e0, [u], at - {|e|}, TRUE_LINE, 0);
    x := Weave(e0, at - {|e|}, TRUE_LINE, 0);
    assert x + [u] + [TRUE_LINE] == x + [u, TRUE_LINE];
    FixedTerminated();
    WeaveTerminated(e0, at - {|e|}, TRUE_LINE, 0);
    NoHeaderBefore(e0, u, name);
    InsertedLinesNeutral();
    WeaveMovesBlocks(e0, at - {|e|}, TRUE_LINE, name);
  }

  lemma {:induction false} NoHeaderBefore(e0: seq<string>, u: string, name: string)
    requires HeaderAtEnd(e0 + [u], name)
    ensures BlockOf(e0, name).None?
  {
    var e := e0 + [u];
    FirstFacts(e, HeaderOf(name));
    assert forall i :: 0 <= i < |e0| ==> e[i] == e0[i] && !HeaderOf(name)(e[i]);
    FirstIs(e0, HeaderOf(name), |e0|);
  }

  /** A blocked engine whose header is an unterminated last line is lost: the inserted line is
      glued to the header, and the engine is not found again. */
  lemma {:induction false} UnterminatedHeaderIsLost(text: string, force: set<string>, blocked: set<string>,
                                                    name: string)
    requires OpenEnd(SplitLines(text)) && name in blocked && HeaderAtEnd(SplitLines(text), name)
    ensures BlockOf(SplitLines(PatchFile(text, force, blocked)), name).None?
  {
    var x, u := HeaderPatched(SplitLines(text), force, blocked, name);
    GluedIsNoHeader(u, name);
    FixedTerminated();
    GluedReadsBack(x, u, TRUE_LINE);
    FirstBeforeTail(x, [u + TRUE_LINE], HeaderOf(name));
  }

  // ---------- the last line is the formats line ----------

  /** Lines that neither head nor end a block nor disable an engine. */
  ghost predicate Quiet(tail: seq<string>) {
    forall i :: 0 <= i < |tail| ==> !IsBlockEnd(tail[i]) && !IsDisabled(tail[i])
  }

  lemma {:induction false} FirstBeforeTail(l: seq<string>, tail: seq<string>, p: string -> bool)
    requires forall i :: 0 <= i < |tail| ==> !p(tail[i])
    ensures First(l + tail, p) == if First(l, p) < |l| then First(l, p) else |l| + |tail|
  {
    FirstFacts(l, p);
    FirstIs(l + tail, p, if First(l, p) < |l| then First(l, p) else |l| + |tail|);
  }

  lemma {:induction false} QuietHeaders(tail: seq<string>, name: string)
    requires Quiet(tail)
    ensures forall i :: 0 <= i < |tail| ==> !HeaderOf(name)(tail[i])
  {
    forall i | 0 <= i < |tail|
      ensures !IsHeader(tail[i], name)
    {
      if IsHeader(tail[i], name) { HeaderIsBlockEnd(tail[i], name); }
    }
  }

  /** Quiet lines at the end change neither which engines are found nor which need disabling. */
  lemma {:induction false} QuietTail(l: seq<string>, tail: seq<string>, name: string)
    requires Quiet(tail)
    ensures BlockOf(l + tail, name).Some? <==> BlockOf(l, name).Some?
    ensures BlockOf(l, name).Some? ==> BlockOf(l + tail, name).value.start == BlockOf(l, name).value.start
    ensures NeedsDisabling(l + tail, name) <==> NeedsDisabling(l, name)
  {
    QuietHeaders(tail, name);
    FirstBeforeTail(l, tail, HeaderOf(name));
    var s := First(l, HeaderOf(name));
    if s < |l| {
      assert (l + tail)[s + 1..] == l[s + 1..] + tail;
      FirstBeforeTail(l[s + 1..], tail, BLOCK_END);
      QuietNeeds(l, tail, name);
    }
  }

  lemma {:induction false} QuietNeeds(l: seq<string>, tail: seq<string>, name: string)
    requires Quiet(tail) && BlockOf(l, name).Some? && BlockOf(l + tail, name).Some?
    requires BlockOf(l + tail, name).value.start == BlockOf(l, name).value.start
    requires var e, e' := BlockOf(l, name).value.end, BlockOf(l + tail, name).value.end;
             e <= |l| && e' <= |l| + |tail| && e' == if e < |l| then e else |l| + |tail|
    ensures NeedsDisabling(l + tail, name) <==> NeedsDisabling(l, name)
  {
    var b, b' := BlockOf(l, name).value, BlockOf(l + tail, name).value;
    BlockFacts(l, name);
    BlockFacts(l + tail, name);
    if NeedsDisabling(l + tail, name) {
      forall i | b.start < i < b.end
        ensures !IsDisabled(l[i])
      {
        assert (l + tail)[i] == l[i];
      }
    }
    if NeedsDisabling(l, name) {
      forall i | b.start < i < b'.end
        ensures !IsDisabled((l + tail)[i])
      {
        assert (l + tail)[i] == if i < |l| then l[i] else tail[i - |l|];
      }
    }
  }

  lemma {:induction false} FormatsQuiet(u: string)
    requires IsFormats(u)
    ensures Quiet([u, JSON_LINE]) && Quiet([u + JSON_LINE]) && !IsDisabledTrue(u) && !IsDisabledTrue(JSON_LINE)
  {
    assert u[0] == ' ' && u[2] == 'f' && "  - name: "[2] == '-' && "    disabled:"[2] == ' ';
    FixedLines();
    ItemIsNothingElse(JSON_LINE, "");
  }

  lemma {:induction false} FlipPrefix(a: seq<string>, b: seq<string>, at: set<nat>)
    requires forall i :: i in at ==> i < |a|
    ensures Flip(a + b, at) == Flip(a, at) + b
  {
  }

  lemma {:induction false} FlipTerminated(l: seq<string>, at: set<nat>)
    requires AllTerminated(l)
    ensures AllTerminated(Flip(l, at))
  {
    assert Terminated(FALSE_LINE);
  }

  lemma {:induction false} FlippedBefore(a: seq<string>, tail: seq<string>, force: set<string>)
    requires forall i :: 0 <= i < |tail| ==> !IsDisabledTrue(tail[i])
    ensures forall i :: i in FlipSet(a + tail, force) ==> i < |a|
  {
    FlipSetTrue(a + tail, force);
    forall i | |a| <= i < |a + tail|
      ensures !IsDisabledTrue((a + tail)[i])
    {
      assert (a + tail)[i] == tail[i - |a|];
    }
  }

  /** Enabling rewrites nothing in such a tail. */
  lemma {:induction false} FlippedBeforeTail(a: seq<string>, tail: seq<string>, force: set<string>)
    requires forall i :: 0 <= i < |tail| ==> !IsDisabledTrue(tail[i])
    ensures var at := FlipSet(a + tail, force); Flip(a + tail, at) == Flip(a, at) + tail
  {
    FlippedBefore(a, tail, force);
    FlipPrefix(a, tail, FlipSet(a + tail, force));
  }

  lemma {:induction false} JsonBehindFormats(l: seq<string>)
    requires OpenEnd(l) && JsonAtEnd(l)
    ensures IsFormats(l[|l| - 1]) && WithJson(l) == l[..|l| - 1] + [l[|l| - 1], JSON_LINE]
  {
    FirstFacts(l, FORMATS);
    WeaveOne(l, JSON_LINE, |l|);
    LastMoved(l, JSON_LINE);
  }

  lemma {:induction false} LastMoved(l: seq<string>, x: string)
    requires l != []
    ensures l[..|l|] + [x] + l[|l|..] == l[..|l| - 1] + [l[|l| - 1], x]
  {
  }

  /** The first two stages on a file whose unterminated last line is the formats line. */
  lemma {:induction false} FormatsAtEnd(l: seq<string>, force: set<string>) returns (e0: seq<string>, u: string)
    requires OpenEnd(l) && JsonAtEnd(l)
    ensures AllTerminated(e0) && IsFormats(u) && '\n' !in u && First(e0, FORMATS) == |e0|
    ensures Enabled(l, force) == e0 + [u, JSON_LINE]
  {
    var a := l[..|l| - 1];
    u := l[|l| - 1];
    JsonBehindFormats(l);
    FormatsQuiet(u);
    FlippedBeforeTail(a, [u, JSON_LINE], force);
    e0 := Flip(a, FlipSet(a + [u, JSON_LINE], force));
    FlipTerminated(a, FlipSet(a + [u, JSON_LINE], force));
    FirstFacts(l, FORMATS);
    NoFormatsFlipped(a, FlipSet(a + [u, JSON_LINE], force));
  }

  lemma {:induction false} NoFormatsFlipped(a: seq<string>, at: set<nat>)
    requires forall i :: 0 <= i < |a| ==> !FORMATS(a[i])
    ensures First(Flip(a, at), FORMATS) == |a|
  {
    InsertedLinesNeutral();
    FirstIs(Flip(a, at), FORMATS, |a|);
  }

  /** The patched lines of such a file: the JSON item comes last. */
  lemma {:induction false} FormatsPatched(l: seq<string>, force: set<string>, blocked: set<string>)
    returns (x: seq<string>, u: string)
    requires OpenEnd(l) && JsonAtEnd(l)
    ensures Patched(l, force, blocked) == x + [u, JSON_LINE] && AllTerminated(x)
    ensures IsFormats(u) && '\n' !in u && First(x, FORMATS) == |x|
  {
    var e0;
    e0, u := FormatsAtEnd(l, force);
    FormatsQuiet(u);
    NoneInQuietTail(e0, [u, JSON_LINE], blocked);
    x := FormatsWoven(e0, u, InsertSet(e0 + [u, JSON_LINE], blocked));
  }

  lemma {:induction false} FormatsWoven(e0: seq<string>, u: string, at: set<nat>) returns (x: seq<string>)
    requires AllTerminated(e0) && First(e0, FORMATS) == |e0| && forall a :: a in at ==> a <= |e0|
    ensures Weave(e0 + [u, JSON_LINE], at, TRUE_LINE, 0) == x + [u, JSON_LINE]
    ensures AllTerminated(x) && First(x, FORMATS) == |x|
  {
    x := Weave(e0, at, TRUE_LINE, 0);
    WeaveTail(e0, [u, JSON_LINE], at, TRUE_LINE, 0);
    FixedTerminated();
    WeaveTerminated(e0, at, TRUE_LINE, 0);
    InsertedLinesNeutral();
    assert e0[0..] == e0;
    FirstWeave(e0, at, TRUE_LINE, FORMATS, 0);
    WeaveLength(e0, at, TRUE_LINE, 0);
  }

  /** Nothing is inserted behind quiet lines. */
  lemma {:induction false} NoneInQuietTail(l: seq<string>, tail: seq<string>, blocked: set<string>)
    requires Quiet(tail)
    ensures forall a :: a in InsertSet(l + tail, blocked) ==> a <= |l|
  {
    InsertSetAfterHeaders(l + tail, blocked);
    forall i | |l| <= i < |l + tail|
      ensures !IsBlockEnd((l + tail)[i])
    {
      assert (l + tail)[i] == tail[i - |l|];
    }
    forall a | a in InsertSet(l + tail, blocked)
      ensures a <= |l|
    {
      assert AfterHeader(l + tail, a, blocked);
      var n :| n in blocked && IsHeader((l + tail)[a - 1], n);
      HeaderIsBlockEnd((l + tail)[a - 1], n);
    }
  }

  /** The JSON item is glued to the formats line; all blocked engines are disabled. */
  lemma {:induction false} GluedFormatsDisabled(l: seq<string>, force: set<string>, blocked: set<string>, name: string)
    requires OpenEnd(l) && JsonAtEnd(l) && name in blocked && BlockOf(l, name).Some?
    ensures DisabledIn(SplitLines(Join(Patched(l, force, blocked))), name)
  {
    var x, u := FormatsPatched(l, force, blocked);
    PatchedLinesDisabled(l, force, blocked);
    assert DisabledIn(x + [u, JSON_LINE], name);
    FormatsQuiet(u);
    FixedTerminated();
    GluedReadsBack(x, u, JSON_LINE);
    QuietTail(x, [u, JSON_LINE], name);
    QuietTail(x, [u + JSON_LINE], name);
  }

  // ---------- the guarantee on files, exactly ----------

  lemma {:induction false} ClosedFileDisabled(text: string, force: set<string>, blocked: set<string>)
    requires Closed(text)
    ensures AllDisabled(SplitLines(text), SplitLines(PatchFile(text, force, blocked)), blocked)
  {
    PatchedFileLines(text, force, blocked);
    PatchedLinesDisabled(SplitLines(text), force, blocked);
  }

  lemma {:induction false} OpenFileDisabled(text: string, force: set<string>, blocked: set<string>)
    requires OpenEnd(SplitLines(text)) && !EndsInBlockedHeader(SplitLines(text), blocked)
    ensures AllDisabled(SplitLines(text), SplitLines(PatchFile(text, force, blocked)), blocked)
  {
    var l := SplitLines(text);
    if JsonAtEnd(l) {
      forall n | n in blocked && BlockOf(l, n).Some?
        ensures DisabledIn(SplitLines(PatchFile(text, force, blocked)), n)
      {
        GluedFormatsDisabled(l, force, blocked, n);
      }
    } else {
      OpenFileLines(text, force, blocked);
      PatchedLinesDisabled(l, force, blocked);
    }
  }

  lemma {:induction false} BlockedHeaderLost(text: string, force: set<string>, blocked: set<string>)
    requires OpenEnd(SplitLines(text)) && EndsInBlockedHeader(SplitLines(text), blocked)
    ensures !AllDisabled(SplitLines(text), SplitLines(PatchFile(text, force, blocked)), blocked)
  {
    var n :| n in blocked && HeaderAtEnd(SplitLines(text), n);
    UnterminatedHeaderIsLost(text, force, blocked, n);
    assert !DisabledIn(SplitLines(PatchFile(text, force, blocked)), n);
  }

  /** Every blocked engine found in a file is found with a `disabled:` line in the patched file,
      if and only if the file is empty, ends in a newline, or its last line is not the header
      that the search finds for a blocked engine. */
  lemma {:induction false} FileDisabledIff(text: string, force: set<string>, blocked: set<string>)
    ensures AllDisabled(SplitLines(text), SplitLines(PatchFile(text, force, blocked)), blocked)
            <==> Closed(text) || !EndsInBlockedHeader(SplitLines(text), blocked)
  {
    if Closed(text) {
      ClosedFileDisabled(text, force, blocked);
    } else {
      SplitOpen(text);
      if EndsInBlockedHeader(SplitLines(text), blocked) {
        BlockedHeaderLost(text, force, blocked);
      } else {
        OpenFileDisabled(text, force, blocked);
      }
    }
  }
}
