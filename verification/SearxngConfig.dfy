/** The line patcher for the search engine's settings file: add the JSON format, enable the
    reachable engines, disable the blocked ones.
 */
module SearxngConfig {
  import opened Text
  import opened LineWeaving
  import opened Options

  /** Lines [start, end) of an engine, start being its `- name:` line. */
  datatype Block = Block(start: nat, end: nat)

  const JSON_LINE := "    - json\n"
  const TRUE_LINE := "    disabled: true\n"
  const FALSE_LINE := "    disabled: false\n"

  // ---------- what a line is ----------

  predicate IsHeader(line: string, name: string) {
    var p := "  - name: " + name;
    p <= line && Blank(line[|p|..])
  }

  predicate IsBlockEnd(line: string) {
    "  - name: " <= line || (line != [] && ('a' <= line[0] <= 'z' || 'A' <= line[0] <= 'Z' || line[0] == '#'))
  }

  predicate IsFormats(line: string) {
    var p := "  formats:";
    p <= line && Blank(line[|p|..])
  }

  predicate IsItem(line: string) {
    "    - " <= line
  }

  predicate IsJsonItem(line: string) {
    IsItem(line) && Strip(line) == "- json"
  }

  predicate IsDisabled(line: string) {
    "    disabled:" <= line
  }

  predicate IsDisabledTrue(line: string) {
    IsDisabled(line) && Strip(line[|"    disabled:"|..]) == "true"
  }

  function HeaderOf(name: string): string -> bool {
    (line: string) => IsHeader(line, name)
  }

  const BLOCK_END: string -> bool := line => IsBlockEnd(line)
  const FORMATS: string -> bool := line => IsFormats(line)
  const DISABLED_TRUE: string -> bool := line => IsDisabledTrue(line)

  lemma {:induction false} DisabledIsNothingElse(line: string, name: string)
    requires IsDisabled(line)
    ensures !IsHeader(line, name) && !IsBlockEnd(line) && !IsFormats(line) && !IsItem(line)
  {
    assert line[2] == ' ' && line[4] == 'd' && line[0] == ' ';
    assert "  - name: "[2] == '-' && ("  - name: " + name)[2] == '-' && "  formats:"[2] == 'f' && "    - "[4] == '-';
  }

  lemma {:induction false} ItemIsNothingElse(line: string, name: string)
    requires IsItem(line)
    ensures !IsHeader(line, name) && !IsBlockEnd(line) && !IsFormats(line) && !IsDisabled(line)
  {
    assert line[2] == ' ' && line[4] == '-' && line[0] == ' ';
    assert "  - name: "[2] == '-' && ("  - name: " + name)[2] == '-';
    assert "  formats:"[2] == 'f' && "    disabled:"[4] == 'd';
  }

  lemma {:induction false} HeaderIsBlockEnd(line: string, name: string)
    requires IsHeader(line, name)
    ensures IsBlockEnd(line) && !IsFormats(line) && !IsItem(line) && !IsDisabled(line)
  {
    assert ("  - name: " + name)[..10] == "  - name: ";
    assert "  - name: " <= line;
    assert line[2] == '-' && "  formats:"[2] == 'f' && "    - "[2] == ' ' && "    disabled:"[2] == ' ';
  }

  lemma {:induction false} FixedLines()
    ensures IsJsonItem(JSON_LINE) && IsDisabledTrue(TRUE_LINE) && IsDisabled(FALSE_LINE) && !IsDisabledTrue(FALSE_LINE)
  {
    JsonLine();
    TrueLine();
    FalseLine();
  }

  lemma {:induction false} JsonLine()
    ensures IsJsonItem(JSON_LINE)
  {
    assert JSON_LINE == "    " + "- json" + "\n";
    StripCore("    ", "- json", "\n");
  }

  lemma {:induction false} TrueLine()
    ensures IsDisabledTrue(TRUE_LINE)
  {
    assert TRUE_LINE[13..] == " " + "true" + "\n";
    StripCore(" ", "true", "\n");
  }

  lemma {:induction false} FalseLine()
    ensures IsDisabled(FALSE_LINE) && !IsDisabledTrue(FALSE_LINE)
  {
    assert FALSE_LINE[13..] == " " + "false" + "\n";
    StripCore(" ", "false", "\n");
  }

  /** A name without white space at its end. */
  predicate PlainName(name: string) {
    name == [] || !IsSpace(name[|name| - 1])
  }

  /** A line is the header of at most one engine. */
  lemma {:induction false} HeaderNamesOne(line: string, n: string, m: string)
    requires IsHeader(line, n) && IsHeader(line, m) && PlainName(n) && PlainName(m)
    ensures n == m
  {
    if |n| < |m| {
      LongerHeader(line, n, m);
    } else if |m| < |n| {
      LongerHeader(line, m, n);
    } else {
      assert n == line[10..][..|n|] == m;
    }
  }

  lemma {:induction false} LongerHeader(line: string, n: string, m: string)
    requires IsHeader(line, n) && IsHeader(line, m) && |n| < |m|
    ensures !PlainName(m)
  {
    var p := "  - name: " + n;
    assert m == line[10..][..|m|];
    assert m[|m| - 1] == line[|p|..][|m| - 1 - |n|];
  }

  // ---------- blocks ----------

  /** The block of the first engine line with the given name. */
  function BlockOf(lines: seq<string>, name: string): Option<Block> {
    var s := First(lines, HeaderOf(name));
    if s == |lines| then None else Some(Block(s, s + 1 + First(lines[s + 1..], BLOCK_END)))
  }

  lemma {:induction false} BlockFacts(lines: seq<string>, name: string)
    requires BlockOf(lines, name).Some?
    ensures var b := BlockOf(lines, name).value;
            && b.start < b.end <= |lines| && IsHeader(lines[b.start], name)
            && (forall i :: b.start < i < b.end ==> !IsBlockEnd(lines[i]))
            && (b.end < |lines| ==> IsBlockEnd(lines[b.end]))
  {
    var b := BlockOf(lines, name).value;
    var rest := lines[b.start + 1..];
    FirstFacts(lines, HeaderOf(name));
    FirstFacts(rest, BLOCK_END);
    assert b.end < |lines| ==> lines[b.end] == rest[b.end - b.start - 1];
    forall i | b.start < i < b.end
      ensures !IsBlockEnd(lines[i])
    {
      assert lines[i] == rest[i - b.start - 1];
      assert !BLOCK_END(rest[i - b.start - 1]);
    }
  }

  /** Blocks of different engines do not overlap. */
  lemma {:induction false} BlocksDisjoint(lines: seq<string>, n: string, m: string)
    requires PlainName(n) && PlainName(m) && n != m
    requires BlockOf(lines, n).Some? && BlockOf(lines, m).Some?
    ensures var b, c := BlockOf(lines, n).value, BlockOf(lines, m).value;
            b.end <= c.start || c.end <= b.start
  {
    BlockFacts(lines, n);
    BlockFacts(lines, m);
    var b, c := BlockOf(lines, n).value, BlockOf(lines, m).value;
    HeaderIsBlockEnd(lines[b.start], n);
    HeaderIsBlockEnd(lines[c.start], m);
    if b.start == c.start {
      HeaderNamesOne(lines[b.start], n, m);
    }
  }

  /** Finds the block of an engine line by line. */
  method FindEngineBlock(lines: seq<string>, name: string) returns (loc: Option<Block>)
    ensures loc == BlockOf(lines, name)
  {
    var start := 0;
    while start < |lines| && !IsHeader(lines[start], name)
      invariant start <= |lines|
      invariant forall i :: 0 <= i < start ==> !HeaderOf(name)(lines[i])
    {
      start := start + 1;
    }
    FirstIs(lines, HeaderOf(name), start);
    if start == |lines| {
      return None;
    }
    ghost var rest := lines[start + 1..];
    var end := start + 1;
    while end < |lines| && !IsBlockEnd(lines[end])
      invariant start < end <= |lines|
      invariant forall i :: 0 <= i < end - start - 1 ==> !BLOCK_END(rest[i])
    {
      assert lines[end] == rest[end - start - 1];
      end := end + 1;
    }
    assert end < |lines| ==> lines[end] == rest[end - start - 1];
    FirstIs(rest, BLOCK_END, end - start - 1);
    return Some(Block(start, end));
  }

  /** Block boundaries depend only on which lines are headers and block ends. */
  lemma {:induction false} SameBlocks(l: seq<string>, l': seq<string>, name: string)
    requires |l| == |l'|
    requires forall i :: 0 <= i < |l| ==> (IsHeader(l[i], name) <==> IsHeader(l'[i], name))
    requires forall i :: 0 <= i < |l| ==> (IsBlockEnd(l[i]) <==> IsBlockEnd(l'[i]))
    ensures BlockOf(l, name) == BlockOf(l', name)
  {
    var s := First(l, HeaderOf(name));
    SameFirst(l, l', HeaderOf(name));
    if s < |l| {
      var r, r' := l[s + 1..], l'[s + 1..];
      forall i | 0 <= i < |r|
        ensures BLOCK_END(r[i]) == BLOCK_END(r'[i])
      {
        assert r[i] == l[s + 1 + i] && r'[i] == l'[s + 1 + i];
      }
      SameFirst(r, r', BLOCK_END);
    }
  }

  lemma {:induction false} SameFirst(l: seq<string>, l': seq<string>, p: string -> bool)
    requires |l| == |l'| && forall i :: 0 <= i < |l| ==> p(l[i]) == p(l'[i])
    ensures First(l, p) == First(l', p)
  {
    FirstFacts(l, p);
    FirstIs(l', p, First(l, p));
  }

  ghost predicate Neutral(x: string) {
    !IsBlockEnd(x) && !IsFormats(x) && forall name :: !IsHeader(x, name)
  }

  lemma {:induction false} InsertedLinesNeutral()
    ensures Neutral(JSON_LINE) && Neutral(TRUE_LINE) && Neutral(FALSE_LINE)
  {
    FixedLines();
    forall name
      ensures !IsHeader(JSON_LINE, name) && !IsHeader(TRUE_LINE, name) && !IsHeader(FALSE_LINE, name)
    {
      ItemIsNothingElse(JSON_LINE, name);
      DisabledIsNothingElse(TRUE_LINE, name);
      DisabledIsNothingElse(FALSE_LINE, name);
    }
    ItemIsNothingElse(JSON_LINE, "");
    DisabledIsNothingElse(TRUE_LINE, "");
    DisabledIsNothingElse(FALSE_LINE, "");
  }

  ghost function MovedBlock(at: set<nat>, b: Option<Block>): Option<Block> {
    if b.None? then None else Some(Block(Pos(at, b.value.start), Pos(at, b.value.end)))
  }

  lemma {:induction false} HeaderMoves(l: seq<string>, at: set<nat>, x: string, name: string)
    requires Neutral(x)
    ensures First(Weave(l, at, x, 0), HeaderOf(name)) == Pos(at, First(l, HeaderOf(name)))
    ensures |Weave(l, at, x, 0)| == Pos(at, |l|)
  {
    assert l[0..] == l;
    FirstWeave(l, at, x, HeaderOf(name), 0);
    WeaveLength(l, at, x, 0);
  }

  lemma {:induction false} EndMoves(l: seq<string>, at: set<nat>, x: string, s: nat)
    requires Neutral(x) && s < |l|
    ensures var w := Weave(l, at, x, 0);
            Pos(at, s) < |w| &&
            Pos(at, s) + 1 + First(w[Pos(at, s) + 1..], BLOCK_END) == Pos(at, s + 1 + First(l[s + 1..], BLOCK_END))
  {
    WeaveSuffix(l, at, x, 0, s);
    BeginNext(at, s);
    FirstWeave(l, at, x, BLOCK_END, s + 1);
  }

  /** Inserting neutral lines moves a block's boundaries along with its lines. */
  lemma {:induction false} WeaveMovesBlocks(l: seq<string>, at: set<nat>, x: string, name: string)
    requires Neutral(x)
    ensures BlockOf(Weave(l, at, x, 0), name) == MovedBlock(at, BlockOf(l, name))
  {
    var s := First(l, HeaderOf(name));
    HeaderMoves(l, at, x, name);
    if s < |l| {
      var e := s + 1 + First(l[s + 1..], BLOCK_END);
      EndMoves(l, at, x, s);
      BlockIs(Weave(l, at, x, 0), name, Pos(at, s), Pos(at, e));
      BlockIs(l, name, s, e);
    }
  }

  lemma {:induction false} BlockIs(l: seq<string>, name: string, s: nat, e: nat)
    requires First(l, HeaderOf(name)) == s < |l| && s + 1 + First(l[s + 1..], BLOCK_END) == e
    ensures BlockOf(l, name) == Some(Block(s, e))
  {
    assert BlockOf(l, name).value.start == s;
    assert BlockOf(l, name).value.end == e;
  }

  // ---------- enabling ----------

  function Flip(l: seq<string>, at: set<nat>): (r: seq<string>)
    ensures |r| == |l|
    ensures forall i :: 0 <= i < |l| ==> r[i] == if i in at then FALSE_LINE else l[i]
  {
    seq(|l|, i requires 0 <= i < |l| => if i in at then FALSE_LINE else l[i])
  }

  /** The line that enabling an engine rewrites: the first `disabled: true` of its block. */
  function FlipTarget(l: seq<string>, name: string): Option<nat> {
    match BlockOf(l, name)
    case None => None
    case Some(b) =>
      BlockFacts(l, name);
      var k := b.start + 1 + First(l[b.start + 1..b.end], DISABLED_TRUE);
      if k < b.end then Some(k) else None
  }

  lemma {:induction false} TargetFacts(l: seq<string>, name: string)
    requires BlockOf(l, name).Some?
    ensures var b, k := BlockOf(l, name).value, FlipTarget(l, name);
            && b.end <= |l|
            && (k.Some? ==> b.start < k.value < b.end && IsDisabledTrue(l[k.value])
                            && forall i :: b.start < i < k.value ==> !IsDisabledTrue(l[i]))
            && (k.None? ==> forall i :: b.start < i < b.end ==> !IsDisabledTrue(l[i]))
  {
    BlockFacts(l, name);
    var b := BlockOf(l, name).value;
    var body := l[b.start + 1..b.end];
    var n := First(body, DISABLED_TRUE);
    FirstFacts(body, DISABLED_TRUE);
    assert n < |body| ==> l[b.start + 1 + n] == body[n];
    forall i | b.start < i < b.start + 1 + n
      ensures !IsDisabledTrue(l[i])
    {
      assert l[i] == body[i - b.start - 1] && !DISABLED_TRUE(body[i - b.start - 1]);
    }
  }

  ghost function FlipSet(l: seq<string>, names: set<string>): set<nat> {
    set n | n in names && FlipTarget(l, n).Some? :: FlipTarget(l, n).value
  }

  lemma {:induction false} FlipSetTrue(l: seq<string>, names: set<string>)
    ensures forall i :: i in FlipSet(l, names) ==> i < |l| && IsDisabledTrue(l[i])
  {
    forall n | n in names && FlipTarget(l, n).Some?
      ensures FlipTarget(l, n).value < |l| && IsDisabledTrue(l[FlipTarget(l, n).value])
    {
      TargetFacts(l, n);
    }
  }

  lemma {:induction false} FlipKeepsBlocks(l: seq<string>, at: set<nat>, name: string)
    requires forall i :: i in at ==> i < |l| && IsDisabledTrue(l[i])
    ensures BlockOf(Flip(l, at), name) == BlockOf(l, name)
  {
    FixedLines();
    var l' := Flip(l, at);
    forall i | 0 <= i < |l|
      ensures IsHeader(l[i], name) <==> IsHeader(l'[i], name)
      ensures IsBlockEnd(l[i]) <==> IsBlockEnd(l'[i])
    {
      if i in at {
        DisabledIsNothingElse(l[i], name);
        DisabledIsNothingElse(FALSE_LINE, name);
      }
    }
    SameBlocks(l, l', name);
  }

  lemma {:induction false} SameTarget(l: seq<string>, l': seq<string>, name: string)
    requires |l| == |l'| && BlockOf(l, name) == BlockOf(l', name)
    requires BlockOf(l, name).Some? ==>
               var b := BlockOf(l, name).value; forall i :: b.start < i < b.end && i < |l| ==> l[i] == l'[i]
    ensures FlipTarget(l, name) == FlipTarget(l', name)
  {
    if BlockOf(l, name).Some? {
      BlockFacts(l, name);
      var b := BlockOf(l, name).value;
      assert l[b.start + 1..b.end] == l'[b.start + 1..b.end];
    }
  }

  /** The targets of other engines lie outside an engine's block. */
  lemma {:induction false} TargetsOutside(l: seq<string>, names: set<string>, name: string, i: nat)
    requires name !in names && PlainName(name) && forall n :: n in names ==> PlainName(n)
    requires BlockOf(l, name).Some? && i in FlipSet(l, names)
    ensures var b := BlockOf(l, name).value; i <= b.start || b.end <= i
  {
    var n :| n in names && FlipTarget(l, n) == Some(i);
    BlocksDisjoint(l, n, name);
    TargetFacts(l, n);
  }

  /** Enabling other engines leaves an engine's target alone. */
  lemma {:induction false} FlipKeepsTarget(l: seq<string>, names: set<string>, name: string)
    requires name !in names && PlainName(name) && forall n :: n in names ==> PlainName(n)
    ensures FlipTarget(Flip(l, FlipSet(l, names)), name) == FlipTarget(l, name)
  {
    var at := FlipSet(l, names);
    FlipSetTrue(l, names);
    FlipKeepsBlocks(l, at, name);
    if BlockOf(l, name).Some? {
      var b := BlockOf(l, name).value;
      forall i: nat | i in at
        ensures i <= b.start || b.end <= i
      {
        TargetsOutside(l, names, name, i);
      }
    }
    SameTarget(l, Flip(l, at), name);
  }

  /** Enables one engine: rewrites its first `disabled: true` line, if any. */
  method EnableEngine(lines: seq<string>, name: string) returns (r: seq<string>)
    ensures r == match FlipTarget(lines, name) case None => lines case Some(k) => lines[k := FALSE_LINE]
  {
    var loc := FindEngineBlock(lines, name);
    if loc.None? {
      return lines;
    }
    BlockFacts(lines, name);
    TargetFacts(lines, name);
    var j := loc.value.start + 1;
    while j < loc.value.end
      invariant loc.value.start < j <= loc.value.end
      invariant forall i :: loc.value.start < i < j ==> !IsDisabledTrue(lines[i])
    {
      if IsDisabledTrue(lines[j]) {
        return lines[j := FALSE_LINE];
      }
      j := j + 1;
    }
    return lines;
  }

  function NameSet(order: seq<string>): set<string> {
    set n | n in order
  }

  /** Enables the engines in any order: the result is the simultaneous rewriting of their
      targets in the original lines. */
  method ForceEnable(lines: seq<string>, order: seq<string>) returns (r: seq<string>)
    requires forall i, j :: 0 <= i < j < |order| ==> order[i] != order[j]
    requires forall n :: n in order ==> PlainName(n)
    ensures r == Flip(lines, FlipSet(lines, NameSet(order)))
  {
    r := lines;
    ghost var names: set<string> := {};
    assert Flip(lines, FlipSet(lines, names)) == lines;
    for k := 0 to |order|
      invariant names == NameSet(order[..k])
      invariant r == Flip(lines, FlipSet(lines, names))
    {
      FlipKeepsTarget(lines, names, order[k]);
      FlipSetGrows(lines, names, order[k]);
      r := EnableEngine(r, order[k]);
      names := names + {order[k]};
    }
    assert order[..|order|] == order;
  }

  lemma {:induction false} FlipSetGrows(l: seq<string>, names: set<string>, name: string)
    ensures var more := FlipSet(l, names + {name});
            match FlipTarget(l, name)
            case None => more == FlipSet(l, names)
            case Some(k) => k < |l| && Flip(l, more) == Flip(l, FlipSet(l, names))[k := FALSE_LINE]
  {
    FlipSetPlus(l, names, name);
    var k := FlipTarget(l, name);
    if k.Some? {
      TargetFacts(l, name);
      FlipPlus(l, FlipSet(l, names), k.value);
    } else {
      assert FlipSet(l, names) + {} == FlipSet(l, names);
    }
  }

  lemma {:induction false} FlipPlus(l: seq<string>, at: set<nat>, k: nat)
    requires k < |l|
    ensures Flip(l, at + {k}) == Flip(l, at)[k := FALSE_LINE]
  {
  }

  lemma {:induction false} FlipSetPlus(l: seq<string>, names: set<string>, name: string)
    ensures FlipSet(l, names + {name})
            == FlipSet(l, names) + match FlipTarget(l, name) case None => {} case Some(k) => {k}
  {
    var more, few := FlipSet(l, names + {name}), FlipSet(l, names);
    forall i | i in more
      ensures i in few || FlipTarget(l, name) == Some(i)
    {
      var n :| n in names + {name} && FlipTarget(l, n) == Some(i);
    }
    forall n | n in names && FlipTarget(l, n).Some?
      ensures FlipTarget(l, n).value in more
    {
      assert n in names + {name};
    }
    assert name in names + {name};
  }
}
