/** The settings patch in terms of the text: what counts as the block of an engine, which lines are
    rewritten and where lines are added.
 */
module SearxngText {
  import opened LineWeaving
  import opened Options
  import opened SearxngConfig
  import opened SearxngPatch
  import opened Text

  // ---------- what the lines say ----------

  predicate SpacesFrom(line: string, n: nat) {
    forall i :: n <= i < |line| ==> IsSpace(line[i])
  }

  predicate HeadsEngine(line: string, name: string) {
    && |line| >= 10 + |name| && line[..10] == "  - name: " && line[10..10 + |name|] == name
    && SpacesFrom(line, 10 + |name|)
  }

  /** The next engine, or a line that starts with a letter or a hash sign. */
  predicate EndsBlock(line: string) {
    || (|line| >= 10 && line[..10] == "  - name: ")
    || (|line| >= 1 && (line[0] == '#' || 'a' <= line[0] <= 'z' || 'A' <= line[0] <= 'Z'))
  }

  predicate SaysDisabled(line: string) {
    |line| >= 13 && line[..13] == "    disabled:"
  }

  predicate SaysDisabledTrue(line: string) {
    SaysDisabled(line) && Strip(line[13..]) == "true"
  }

  /** The first line that heads the engine, and the lines below it up to the next block. */
  ghost predicate EngineBlock(l: seq<string>, name: string, s: nat, e: nat) {
    && s < e <= |l| && HeadsEngine(l[s], name) && (forall i :: 0 <= i < s ==> !HeadsEngine(l[i], name))
    && (forall i :: s < i < e ==> !EndsBlock(l[i])) && (e < |l| ==> EndsBlock(l[e]))
  }

  /** Line i is the first one of an engine's block that says `disabled: true`. */
  ghost predicate EnablingLine(l: seq<string>, force: set<string>, i: nat) {
    i < |l| && exists n, s: nat, e: nat :: n in force && EngineBlock(l, n, s, e) && FirstTrue(l, s, e, i)
  }

  predicate FirstTrue(l: seq<string>, s: nat, e: nat, i: nat)
    requires e <= |l|
  {
    s < i < e && SaysDisabledTrue(l[i]) && forall j :: s < j < i ==> !SaysDisabledTrue(l[j])
  }

  /** Place a is right below the header of an engine whose block does not say `disabled:`. */
  ghost predicate DisablingPlace(l: seq<string>, blocked: set<string>, a: nat) {
    exists n, s: nat, e: nat :: n in blocked && EngineBlock(l, n, s, e) && a == s + 1 && NoneSays(l, s, e)
  }

  predicate NoneSays(l: seq<string>, s: nat, e: nat)
    requires e <= |l|
  {
    forall j :: s < j < e ==> !SaysDisabled(l[j])
  }

  // ---------- the same as the model's lines and blocks ----------

  lemma {:induction false} HeaderMeaning(line: string, name: string)
    ensures IsHeader(line, name) <==> HeadsEngine(line, name)
  {
    var p := "  - name: " + name;
    if |line| >= |p| {
      assert p[..10] == "  - name: " && p[10..] == name;
      assert line[..|p|] == line[..10] + line[10..|p|];
      assert forall i :: 0 <= i < |line[|p|..]| ==> line[|p|..][i] == line[|p| + i];
      assert forall i :: |p| <= i < |line| ==> line[|p|..][i - |p|] == line[i];
    }
  }

  lemma {:induction false} LineMeanings(line: string)
    ensures IsBlockEnd(line) <==> EndsBlock(line)
    ensures IsDisabled(line) <==> SaysDisabled(line)
    ensures IsDisabledTrue(line) <==> SaysDisabledTrue(line)
  {
  }

  lemma {:induction false} BlockMeaning(l: seq<string>, name: string, s: nat, e: nat)
    ensures BlockOf(l, name) == Some(Block(s, e)) <==> EngineBlock(l, name, s, e)
  {
    forall i | 0 <= i < |l|
      ensures IsHeader(l[i], name) <==> HeadsEngine(l[i], name)
      ensures IsBlockEnd(l[i]) <==> EndsBlock(l[i])
    {
      HeaderMeaning(l[i], name);
      LineMeanings(l[i]);
    }
    if BlockOf(l, name) == Some(Block(s, e)) {
      BlockFacts(l, name);
      FirstFacts(l, HeaderOf(name));
    }
    if EngineBlock(l, name, s, e) {
      BlockFound(l, name, s, e);
    }
  }

  lemma {:induction false} BlockFound(l: seq<string>, name: string, s: nat, e: nat)
    requires s < e <= |l| && IsHeader(l[s], name) && forall i :: 0 <= i < s ==> !IsHeader(l[i], name)
    requires (forall i :: s < i < e ==> !IsBlockEnd(l[i])) && (e < |l| ==> IsBlockEnd(l[e]))
    ensures BlockOf(l, name) == Some(Block(s, e))
  {
    FirstIs(l, HeaderOf(name), s);
    var rest := l[s + 1..];
    assert forall i :: 0 <= i < |rest| ==> rest[i] == l[s + 1 + i];
    FirstIs(rest, BLOCK_END, e - s - 1);
  }

  lemma {:induction false} TargetMeaning(l: seq<string>, name: string, s: nat, e: nat, i: nat)
    requires EngineBlock(l, name, s, e)
    ensures FlipTarget(l, name) == Some(i) <==> FirstTrue(l, s, e, i)
  {
    BlockMeaning(l, name, s, e);
    TargetFacts(l, name);
    forall j | 0 <= j < |l|
      ensures IsDisabledTrue(l[j]) <==> SaysDisabledTrue(l[j])
    {
      LineMeanings(l[j]);
    }
  }

  lemma {:induction false} EnabledMeaning(l: seq<string>, force: set<string>, i: nat)
    ensures i in FlipSet(l, force) <==> EnablingLine(l, force, i)
  {
    if i in FlipSet(l, force) {
      var n :| n in force && FlipTarget(l, n) == Some(i);
      var b := BlockOf(l, n).value;
      BlockMeaning(l, n, b.start, b.end);
      TargetMeaning(l, n, b.start, b.end, i);
    }
    if EnablingLine(l, force, i) {
      var n, s: nat, e: nat :| n in force && EngineBlock(l, n, s, e) && FirstTrue(l, s, e, i);
      TargetMeaning(l, n, s, e, i);
    }
  }

  lemma {:induction false} NeedMeaning(l: seq<string>, name: string, s: nat, e: nat)
    requires EngineBlock(l, name, s, e)
    ensures NeedsDisabling(l, name) <==> NoneSays(l, s, e)
  {
    BlockMeaning(l, name, s, e);
    forall j | 0 <= j < |l|
      ensures IsDisabled(l[j]) <==> SaysDisabled(l[j])
    {
      LineMeanings(l[j]);
    }
  }

  lemma {:induction false} DisabledMeaning(l: seq<string>, blocked: set<string>, a: nat)
    ensures a in InsertSet(l, blocked) <==> DisablingPlace(l, blocked, a)
  {
    if a in InsertSet(l, blocked) {
      var n :| n in blocked && NeedsDisabling(l, n) && BlockOf(l, n).value.start + 1 == a;
      var b := BlockOf(l, n).value;
      BlockMeaning(l, n, b.start, b.end);
      NeedMeaning(l, n, b.start, b.end);
    }
    if DisablingPlace(l, blocked, a) {
      var n, s: nat, e: nat :| n in blocked && EngineBlock(l, n, s, e) && a == s + 1 && NoneSays(l, s, e);
      BlockMeaning(l, n, s, e);
      NeedMeaning(l, n, s, e);
    }
  }

  // ---------- the patch ----------

  /** What the patch does to the engines, in terms of the text: of every engine to enable the first
      line that says `disabled: true` becomes `disabled: false`; then, below the header of every
      engine to block whose block does not say `disabled:`, comes a line that says so.  Nothing
      else changes. */
  lemma {:induction false} PatchInText(l: seq<string>, force: set<string>, blocked: set<string>)
    ensures
      var l1, e := WithJson(l), Enabled(l, force);
      && |e| == |l1|
      && (forall i :: 0 <= i < |l1| ==> e[i] == if EnablingLine(l1, force, i) then "    disabled: false\n" else l1[i])
      && Patched(l, force, blocked) == Weave(e, InsertSet(e, blocked), "    disabled: true\n", 0)
      && (forall a :: a in InsertSet(e, blocked) <==> DisablingPlace(e, blocked, a))
  {
    var l1, e := WithJson(l), Enabled(l, force);
    forall i | 0 <= i < |l1|
      ensures e[i] == if EnablingLine(l1, force, i) then "    disabled: false\n" else l1[i]
    {
      EnabledMeaning(l1, force, i);
    }
    forall a: nat
      ensures a in InsertSet(e, blocked) <==> DisablingPlace(e, blocked, a)
    {
      DisabledMeaning(e, blocked, a);
    }
  }

  /** Afterwards the block of every blocked engine says `disabled:`. */
  lemma {:induction false} BlockedSayDisabled(l: seq<string>, force: set<string>, blocked: set<string>, name: string,
                                              s: nat, e: nat)
    requires name in blocked && EngineBlock(Patched(l, force, blocked), name, s, e)
    ensures exists i :: s < i < e && SaysDisabled(Patched(l, force, blocked)[i])
  {
    var out := Patched(l, force, blocked);
    BlockedEnginesDisabled(l, force, blocked, name);
    BlockMeaning(out, name, s, e);
    NeedMeaning(out, name, s, e);
    var i :| s < i < e && SaysDisabled(out[i]);
  }
}
