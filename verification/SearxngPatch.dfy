/** The whole patch of the settings file: its stages, what it keeps, and when running it
    again changes nothing.
 */
module SearxngPatch {
  import opened Text
  import opened LineWeaving
  import opened SearxngConfig
  import opened Options

  const BLOCKED_ENGINES := {
    "duckduckgo", "duckduckgo images", "duckduckgo videos", "duckduckgo news", "duckduckgo weather",
    "ddg definitions", "wikipedia", "startpage", "startpage news", "startpage images", "aol", "aol images",
    "aol videos", "brave", "brave.images", "brave.videos", "brave.news", "braveapi", "karmasearch",
    "karmasearch images", "karmasearch videos", "karmasearch news", "google", "google images", "google news",
    "google videos", "google scholar", "google play apps", "google play movies"}

  const FORCE_ENABLE_ENGINES := {"baidu", "bing", "sogou"}

  /** Engine names are plain, and no engine is both enabled and blocked. */
  ghost predicate EngineSets(force: set<string>, blocked: set<string>) {
    force !! blocked && forall n :: n in force + blocked ==> PlainName(n)
  }

  // ---------- stage 1: the JSON format ----------

  ghost predicate HasJson(l: seq<string>, f: nat) {
    exists j :: f < j < |l| && IsJsonItem(l[j]) && AllItems(l, f, j)
  }

  ghost predicate AllItems(l: seq<string>, f: nat, j: nat)
    requires j < |l|
  {
    forall k :: f < k <= j ==> IsItem(l[k])
  }

  ghost predicate JsonDone(l: seq<string>) {
    First(l, FORMATS) == |l| || HasJson(l, First(l, FORMATS))
  }

  ghost function WithJson(l: seq<string>): seq<string> {
    if JsonDone(l) then l else Weave(l, {First(l, FORMATS) + 1}, JSON_LINE, 0)
  }

  lemma {:induction false} WeaveNothing(l: seq<string>, x: string, i: nat)
    requires i <= |l|
    ensures Weave(l, {}, x, i) == l[i..]
    decreases |l| - i
  {
    if i < |l| {
      WeaveNothing(l, x, i + 1);
    }
  }

  lemma {:induction false} WeaveOne(l: seq<string>, x: string, idx: nat)
    requires idx <= |l|
    ensures Weave(l, {idx}, x, 0) == l[..idx] + [x] + l[idx..]
  {
    InsertBelow(l, {}, x, idx, 0);
    WeaveNothing(l, x, 0);
    assert {} + {idx} == {idx};
  }

  /** Whether the run of list items after line f contains the JSON item. */
  method ListsJson(lines: seq<string>, f: nat) returns (hasJson: bool)
    requires f < |lines|
    ensures hasJson <==> HasJson(lines, f)
  {
    var blockEnd := f + 1;
    hasJson := false;
    while blockEnd < |lines| && IsItem(lines[blockEnd])
      invariant f < blockEnd <= |lines|
      invariant AllItems(lines, f, blockEnd - 1)
      invariant hasJson <==> exists j :: f < j < blockEnd && IsJsonItem(lines[j])
    {
      hasJson := hasJson || IsJsonItem(lines[blockEnd]);
      blockEnd := blockEnd + 1;
    }
    if hasJson {
      var j :| f < j < blockEnd && IsJsonItem(lines[j]);
      assert AllItems(lines, f, j);
    } else {
      forall j | f < j < |lines| && AllItems(lines, f, j)
        ensures j < blockEnd
      {
      }
    }
  }

  /** The line is the key of the formats list. */
  predicate KeysFormats(line: string) {
    |line| >= 10 && line[..10] == "  formats:" && forall i :: 10 <= i < |line| ==> IsSpace(line[i])
  }

  /** The list items below line f include one that reads "- json". */
  ghost predicate ListsJsonBelow(l: seq<string>, f: nat) {
    exists j :: f < j < |l| && Strip(l[j]) == "- json" && ItemsUpTo(l, f, j)
  }

  ghost predicate ItemsUpTo(l: seq<string>, f: nat, j: nat)
    requires j < |l|
  {
    forall k :: f < k <= j ==> |l[k]| >= 6 && l[k][..6] == "    - "
  }

  /** The JSON format in terms of the text: below the first formats key, unless its list has the
      item, comes the line of the item; without such a key nothing changes. */
  lemma {:induction false} JsonAddedIff(l: seq<string>, f: nat)
    requires f <= |l| && (f < |l| ==> KeysFormats(l[f])) && forall i :: 0 <= i < f ==> !KeysFormats(l[i])
    ensures WithJson(l) == if f == |l| || ListsJsonBelow(l, f) then l
                           else l[..f + 1] + ["    - json\n"] + l[f + 1..]
  {
    forall i | 0 <= i < |l|
      ensures IsFormats(l[i]) <==> KeysFormats(l[i])
    {
      FormatsKey(l[i]);
    }
    FirstIs(l, FORMATS, f);
    if f < |l| {
      JsonListed(l, f);
      WeaveOne(l, JSON_LINE, f + 1);
    }
  }

  lemma {:induction false} JsonListed(l: seq<string>, f: nat)
    ensures HasJson(l, f) <==> ListsJsonBelow(l, f)
  {
    forall j | f < j < |l|
      ensures IsJsonItem(l[j]) && AllItems(l, f, j) <==> Strip(l[j]) == "- json" && ItemsUpTo(l, f, j)
    {
      ItemsMeaning(l, f, j);
    }
  }

  lemma {:induction false} ItemsMeaning(l: seq<string>, f: nat, j: nat)
    requires j < |l|
    ensures AllItems(l, f, j) <==> ItemsUpTo(l, f, j)
  {
    assert forall k :: f < k <= j ==> (IsItem(l[k]) <==> |l[k]| >= 6 && l[k][..6] == "    - ");
  }

  lemma {:induction false} FormatsKey(line: string)
    ensures IsFormats(line) <==> KeysFormats(line)
  {
    if |line| >= 10 {
      assert forall i :: 0 <= i < |line[10..]| ==> line[10..][i] == line[i + 10];
      assert forall i :: 10 <= i < |line| ==> line[10..][i - 10] == line[i];
    }
  }

  method AddJson(lines: seq<string>) returns (r: seq<string>)
    ensures r == WithJson(lines)
  {
    var f := 0;
    while f < |lines| && !IsFormats(lines[f])
      invariant f <= |lines|
      invariant forall i :: 0 <= i < f ==> !FORMATS(lines[i])
    {
      f := f + 1;
    }
    FirstIs(lines, FORMATS, f);
    if f == |lines| {
      return lines;
    }
    var hasJson := ListsJson(lines, f);
    if hasJson {
      return lines;
    }
    WeaveOne(lines, JSON_LINE, f + 1);
    return lines[..f + 1] + [JSON_LINE] + lines[f + 1..];
  }

  // ---------- stage 3: disabling ----------

  /** The engine is present and its block has no `disabled:` line. */
  predicate NeedsDisabling(l: seq<string>, name: string) {
    match BlockOf(l, name)
    case None => false
    case Some(b) =>
      BlockFacts(l, name);
      forall i :: b.start < i < b.end ==> !IsDisabled(l[i])
  }

  ghost function InsertSet(l: seq<string>, names: set<string>): set<nat> {
    set n | n in names && NeedsDisabling(l, n) :: BlockOf(l, n).value.start + 1
  }

  /** Every insertion point comes right after the header of a named engine. */
  ghost predicate AfterHeaders(l: seq<string>, at: set<nat>, names: set<string>) {
    forall a :: a in at ==> AfterHeader(l, a, names)
  }

  ghost predicate AfterHeader(l: seq<string>, a: nat, names: set<string>) {
    0 < a <= |l| && exists n :: n in names && IsHeader(l[a - 1], n)
  }

  lemma {:induction false} InsertSetAfterHeaders(l: seq<string>, names: set<string>)
    ensures AfterHeaders(l, InsertSet(l, names), names)
  {
    forall a | a in InsertSet(l, names)
      ensures AfterHeader(l, a, names)
    {
      var n :| n in names && NeedsDisabling(l, n) && a == BlockOf(l, n).value.start + 1;
      BlockFacts(l, n);
    }
  }

  /** Collects the insertion points of the blocked engines. */
  method CollectInsertions(lines: seq<string>, order: seq<string>) returns (at: set<nat>)
    ensures at == InsertSet(lines, NameSet(order))
  {
    at := {};
    for k := 0 to |order|
      invariant at == InsertSet(lines, NameSet(order[..k]))
    {
      var name := order[k];
      InsertSetPlus(lines, NameSet(order[..k]), name);
      assert NameSet(order[..k + 1]) == NameSet(order[..k]) + {name};
      var loc := FindEngineBlock(lines, name);
      if loc.Some? && NeedsDisabling(lines, name) {
        at := at + {loc.value.start + 1};
      }
    }
    assert order[..|order|] == order;
  }

  lemma {:induction false} InsertSetPlus(l: seq<string>, names: set<string>, name: string)
    ensures InsertSet(l, names + {name})
            == InsertSet(l, names) + if NeedsDisabling(l, name) then {BlockOf(l, name).value.start + 1} else {}
  {
    var more, few := InsertSet(l, names + {name}), InsertSet(l, names);
    forall n | n in names && NeedsDisabling(l, n)
      ensures BlockOf(l, n).value.start + 1 in more
    {
      assert n in names + {name};
    }
    assert name in names + {name};
  }

  lemma {:induction false} Greatest(s: set<nat>) returns (g: nat)
    requires s != {}
    ensures g in s && forall t :: t in s ==> t <= g
    decreases |s|
  {
    var x :| x in s;
    if s == {x} {
      g := x;
    } else {
      assert s == (s - {x}) + {x};
      var h := Greatest(s - {x});
      g := if h < x then x else h;
    }
  }

  /** Inserts from the last position to the first, so that earlier numbers stay valid: the
      result is the simultaneous insertion at the original positions. */
  method InsertAll(lines: seq<string>, at: set<nat>) returns (r: seq<string>)
    requires forall a :: a in at ==> a <= |lines|
    ensures r == Weave(lines, at, TRUE_LINE, 0)
  {
    r := lines;
    var todo := at;
    WeaveNothing(lines, TRUE_LINE, 0);
    assert at - todo == {};
    while todo != {}
      invariant todo <= at
      invariant forall d, t :: d in at - todo && t in todo ==> t < d
      invariant r == Weave(lines, at - todo, TRUE_LINE, 0)
      decreases todo
    {
      ghost var g := Greatest(todo);
      var idx :| idx in todo && forall t :: t in todo ==> t <= idx;
      InsertBelow(lines, at - todo, TRUE_LINE, idx, 0);
      r := r[..idx] + [TRUE_LINE] + r[idx..];
      assert at - (todo - {idx}) == (at - todo) + {idx};
      todo := todo - {idx};
    }
    assert at - todo == at;
  }

  // ---------- the patch ----------

  ghost function Enabled(l: seq<string>, force: set<string>): seq<string> {
    Flip(WithJson(l), FlipSet(WithJson(l), force))
  }

  ghost function Patched(l: seq<string>, force: set<string>, blocked: set<string>): seq<string> {
    Weave(Enabled(l, force), InsertSet(Enabled(l, force), blocked), TRUE_LINE, 0)
  }

  ghost predicate Enumerates(order: seq<string>, names: set<string>) {
    (forall i, j :: 0 <= i < j < |order| ==> order[i] != order[j]) && names == NameSet(order)
  }

  /** The three stages in source order.  The engine sets may be traversed in any order: the
      result does not depend on it. */
  method PatchConfig(lines: seq<string>, forceOrder: seq<string>, blockedOrder: seq<string>,
                     ghost force: set<string>, ghost blocked: set<string>)
    returns (r: seq<string>)
    requires EngineSets(force, blocked) && Enumerates(forceOrder, force) && Enumerates(blockedOrder, blocked)
    ensures r == Patched(lines, force, blocked)
  {
    var withJson := AddJson(lines);
    var enabled := ForceEnable(withJson, forceOrder);
    var at := CollectInsertions(enabled, blockedOrder);
    InsertSetAfterHeaders(enabled, blocked);
    assert forall a :: a in at ==> AfterHeader(enabled, a, blocked);
    r := InsertAll(enabled, at);
  }

  // ---------- the lines survive ----------

  /** l with some `disabled: true` lines rewritten. */
  ghost predicate Rewritten(l: seq<string>, l': seq<string>) {
    |l| == |l'| && forall i :: 0 <= i < |l| ==> l'[i] == l[i] || (IsDisabledTrue(l[i]) && l'[i] == FALSE_LINE)
  }

  /** The input lines occur in the output in order, except that `disabled: true` lines may
      have been switched to false: first the format line is added, then the blocked lines. */
  lemma {:induction false} LinesSurvive(l: seq<string>, force: set<string>, blocked: set<string>)
    ensures exists l' :: Rewritten(l, l') && Subsequence(l', Patched(l, force, blocked))
    ensures Subsequence(l, WithJson(l))
    ensures Rewritten(WithJson(l), Enabled(l, force))
    ensures Subsequence(Enabled(l, force), Patched(l, force, blocked))
  {
    JsonKeepsLines(l);
    FlipSetTrue(WithJson(l), force);
    var e := Enabled(l, force);
    assert e[0..] == e;
    WeaveKeepsLines(e, InsertSet(e, blocked), TRUE_LINE, 0);
    var l' := RewrittenLines(l, force);
    SubsequenceTransitive(l', e, Patched(l, force, blocked));
  }

  lemma {:induction false} JsonKeepsLines(l: seq<string>)
    ensures Subsequence(l, WithJson(l))
  {
    if JsonDone(l) {
      SubsequenceReflexive(l);
    } else {
      assert l[0..] == l;
      WeaveKeepsLines(l, {First(l, FORMATS) + 1}, JSON_LINE, 0);
    }
  }

  /** The input lines as the enabled lines contain them. */
  lemma {:induction false} RewrittenLines(l: seq<string>, force: set<string>) returns (l': seq<string>)
    ensures Rewritten(l, l') && Subsequence(l', Enabled(l, force))
  {
    var at := FlipSet(WithJson(l), force);
    FlipSetTrue(WithJson(l), force);
    if JsonDone(l) {
      l' := Flip(l, at);
      SubsequenceReflexive(l');
    } else {
      WeaveOne(l, JSON_LINE, First(l, FORMATS) + 1);
      JsonLine();
      ItemIsNothingElse(JSON_LINE, "");
      l' := FlippedAround(l, JSON_LINE, First(l, FORMATS) + 1, at);
    }
  }

  /** Switching lines before and behind an inserted line that stays as it is. */
  lemma {:induction false} FlippedAround(l: seq<string>, x: string, idx: nat, at: set<nat>) returns (l': seq<string>)
    requires idx <= |l| && !IsDisabledTrue(x)
    requires forall i :: i in at ==> i < |l| + 1 && IsDisabledTrue((l[..idx] + [x] + l[idx..])[i])
    ensures Rewritten(l, l') && Subsequence(l', Flip(l[..idx] + [x] + l[idx..], at))
  {
    var w := l[..idx] + [x] + l[idx..];
    var e := Flip(w, at);
    assert w[idx] == x;
    l' := e[..idx] + e[idx + 1..];
    forall i | 0 <= i < |l|
      ensures l'[i] == l[i] || (IsDisabledTrue(l[i]) && l'[i] == FALSE_LINE)
    {
      var k := if i < idx then i else i + 1;
      assert w[k] == l[i] && l'[i] == e[k];
    }
    WeaveOne(l', x, idx);
    assert e == l'[..idx] + [x] + l'[idx..];
    assert l'[0..] == l';
    WeaveKeepsLines(l', {idx}, x, 0);
  }

  lemma {:induction false} SubsequenceTransitive(a: seq<string>, b: seq<string>, c: seq<string>)
    requires Subsequence(a, b) && Subsequence(b, c)
    ensures Subsequence(a, c)
    decreases |c|
  {
    if a != [] {
      if Subsequence(b, c[1..]) {
        SubsequenceTransitive(a, b, c[1..]);
      } else if a[0] == b[0] && Subsequence(a[1..], b[1..]) {
        SubsequenceTransitive(a[1..], b[1..], c[1..]);
      } else {
        SubsequenceTransitive(a, b[1..], c[1..]);
      }
    }
  }

  lemma {:induction false} SubsequenceReflexive(l: seq<string>)
    ensures Subsequence(l, l)
  {
    if l != [] {
      SubsequenceReflexive(l[1..]);
    }
  }

  // ---------- the JSON stage is done after one run ----------

  lemma {:induction false} WithJsonDone(l: seq<string>)
    ensures JsonDone(WithJson(l))
  {
    if !JsonDone(l) {
      WeaveOne(l, JSON_LINE, First(l, FORMATS) + 1);
      JsonLine();
      ItemAfterFormats(l, JSON_LINE, First(l, FORMATS));
    }
  }

  lemma {:induction false} ItemAfterFormats(l: seq<string>, x: string, f: nat)
    requires First(l, FORMATS) == f < |l| && IsJsonItem(x)
    ensures JsonDone(l[..f + 1] + [x] + l[f + 1..])
  {
    var w := l[..f + 1] + [x] + l[f + 1..];
    SameStart(l, w, f);
    assert w[f + 1] == x;
    JsonFirstItem(w, f);
  }

  lemma {:induction false} SameStart(l: seq<string>, w: seq<string>, f: nat)
    requires First(l, FORMATS) == f < |l| && f < |w| && l[..f + 1] <= w
    ensures First(w, FORMATS) == f
  {
    FirstFacts(l, FORMATS);
    assert forall i :: 0 <= i <= f ==> w[i] == l[..f + 1][i] == l[i];
    FirstIs(w, FORMATS, f);
  }

  lemma {:induction false} JsonFirstItem(w: seq<string>, f: nat)
    requires f + 1 < |w| && IsJsonItem(w[f + 1])
    ensures HasJson(w, f)
  {
    assert AllItems(w, f, f + 1);
  }

  lemma {:induction false} FlipKeepsJson(l: seq<string>, at: set<nat>)
    requires JsonDone(l) && forall i :: i in at ==> i < |l| && IsDisabledTrue(l[i])
    ensures JsonDone(Flip(l, at))
  {
    var l' := Flip(l, at);
    InsertedLinesNeutral();
    forall i | 0 <= i < |l|
      ensures FORMATS(l[i]) == FORMATS(l'[i]) && (IsItem(l[i]) ==> l'[i] == l[i])
    {
      if i in at {
        DisabledIsNothingElse(l[i], "");
      }
    }
    SameFirst(l, l', FORMATS);
    var f := First(l, FORMATS);
    if f < |l| {
      var j :| f < j < |l| && IsJsonItem(l[j]) && AllItems(l, f, j);
      assert AllItems(l', f, j);
    }
  }

  /** Insertions come after headers only, so never inside the list of formats. */
  lemma {:induction false} NoneAmongItems(l: seq<string>, at: set<nat>, names: set<string>, f: nat, k: nat)
    requires AfterHeaders(l, at, names) && f < k < |l| && IsFormats(l[f]) && AllItems(l, f, k)
    ensures k !in at
  {
    if k in at {
      assert AfterHeader(l, k, names);
      var n :| n in names && IsHeader(l[k - 1], n);
      HeaderIsBlockEnd(l[k - 1], n);
    }
  }

  lemma {:induction false} WeaveKeepsJson(l: seq<string>, at: set<nat>, x: string, names: set<string>)
    requires JsonDone(l) && Neutral(x) && AfterHeaders(l, at, names)
    ensures JsonDone(Weave(l, at, x, 0))
  {
    var f := First(l, FORMATS);
    assert l[0..] == l;
    FirstWeave(l, at, x, FORMATS, 0);
    WeaveLength(l, at, x, 0);
    if f < |l| {
      FirstFacts(l, FORMATS);
      var j :| f < j < |l| && IsJsonItem(l[j]) && AllItems(l, f, j);
      forall k | f < k <= j
        ensures k !in at
      {
        assert AllItems(l, f, k);
        NoneAmongItems(l, at, names, f, k);
      }
      FormatsInPlace(l, at, x, f, j);
    }
  }

  lemma {:induction false} FormatsInPlace(l: seq<string>, at: set<nat>, x: string, f: nat, j: nat)
    requires f < j < |l| && IsJsonItem(l[j]) && AllItems(l, f, j)
    requires forall k :: f < k <= j ==> k !in at
    ensures HasJson(Weave(l, at, x, 0), Pos(at, f))
  {
    var w := Weave(l, at, x, 0);
    forall k | f < k <= j
      ensures Pos(at, f) + (k - f) < |w| && w[Pos(at, f) + (k - f)] == l[k]
    {
      PosRigid(at, f, k);
      WeaveSuffix(l, at, x, 0, k);
    }
    var j' := Pos(at, f) + (j - f);
    assert w[j'] == l[j];
    forall k' | Pos(at, f) < k' <= j'
      ensures IsItem(w[k'])
    {
      var k := k' - Pos(at, f) + f;
      assert w[Pos(at, f) + (k - f)] == l[k];
    }
    assert AllItems(w, Pos(at, f), j');
  }

  // ---------- every blocked engine present ends up with a disabled line ----------

  ghost predicate HasDisabled(l: seq<string>, name: string) {
    BlockOf(l, name).Some? ==> !NeedsDisabling(l, name)
  }

  lemma {:induction false} InsertedAt(l: seq<string>, at: set<nat>, x: string, s: nat, e: nat)
    requires s < e <= |l| && s + 1 in at
    ensures var w := Weave(l, at, x, 0);
            Pos(at, s) + 1 < |w| && w[Pos(at, s) + 1] == x && Pos(at, s) + 1 < Pos(at, e)
  {
    WeaveSuffix(l, at, x, 0, s);
    WeaveLength(l, at, x, 0);
    PosMonotone(at, s + 1, e);
    PosMonotone(at, e, |l|);
    BeginNext(at, s);
    var w := Weave(l, at, x, 0);
    assert Weave(l, at, x, s + 1)[0] == x;
    assert w[Pos(at, s) + 1] == w[Pos(at, s) + 1..][0];
  }

  lemma {:induction false} MovedBlockHas(l: seq<string>, at: set<nat>, name: string, k: nat)
    requires BlockOf(l, name).Some?
    requires Pos(at, BlockOf(l, name).value.start) < k < Pos(at, BlockOf(l, name).value.end)
    requires k < |Weave(l, at, TRUE_LINE, 0)| && IsDisabled(Weave(l, at, TRUE_LINE, 0)[k])
    ensures HasDisabled(Weave(l, at, TRUE_LINE, 0), name)
  {
    InsertedLinesNeutral();
    WeaveMovesBlocks(l, at, TRUE_LINE, name);
  }

  /** An insertion right after the header lands inside the moved block. */
  lemma {:induction false} InsertedInBlock(l: seq<string>, at: set<nat>, name: string)
    requires BlockOf(l, name).Some? && BlockOf(l, name).value.start + 1 in at
    ensures HasDisabled(Weave(l, at, TRUE_LINE, 0), name)
  {
    var b := BlockOf(l, name).value;
    TrueLine();
    BlockFacts(l, name);
    InsertedAt(l, at, TRUE_LINE, b.start, b.end);
    MovedBlockHas(l, at, name, Pos(at, b.start) + 1);
  }

  /** A `disabled:` line stays in its block. */
  lemma {:induction false} KeptInBlock(l: seq<string>, at: set<nat>, name: string, i: nat)
    requires BlockOf(l, name).Some? && BlockOf(l, name).value.start < i < BlockOf(l, name).value.end
    requires i < |l| && IsDisabled(l[i])
    ensures HasDisabled(Weave(l, at, TRUE_LINE, 0), name)
  {
    var b := BlockOf(l, name).value;
    WeaveSuffix(l, at, TRUE_LINE, 0, i);
    PosMonotone(at, b.start, i);
    PosMonotone(at, i, b.end);
    MovedBlockHas(l, at, name, Pos(at, i));
  }

  lemma {:induction false} WeaveDisables(l: seq<string>, names: set<string>, name: string)
    requires name in names
    ensures HasDisabled(Weave(l, InsertSet(l, names), TRUE_LINE, 0), name)
  {
    var at := InsertSet(l, names);
    match BlockOf(l, name)
    case None =>
      InsertedLinesNeutral();
      WeaveMovesBlocks(l, at, TRUE_LINE, name);
    case Some(b) =>
      BlockFacts(l, name);
      if NeedsDisabling(l, name) {
        InsertedInBlock(l, at, name);
      } else {
        var i :| b.start < i < b.end && IsDisabled(l[i]);
        KeptInBlock(l, at, name, i);
      }
  }

  lemma {:induction false} FlipKeepsDisabled(l: seq<string>, at: set<nat>, name: string)
    requires HasDisabled(l, name) && forall i :: i in at ==> i < |l| && IsDisabledTrue(l[i])
    ensures HasDisabled(Flip(l, at), name)
  {
    FlipKeepsBlocks(l, at, name);
    if BlockOf(l, name).Some? {
      var b := BlockOf(l, name).value;
      BlockFacts(l, name);
      var i :| b.start < i < b.end && IsDisabled(l[i]);
      FixedLines();
    }
  }

  /** After the patch every blocked engine that is present has a `disabled:` line. */
  lemma {:induction false} BlockedEnginesDisabled(l: seq<string>, force: set<string>, blocked: set<string>,
                                                  name: string)
    requires name in blocked
    ensures HasDisabled(Patched(l, force, blocked), name)
  {
    WeaveDisables(Enabled(l, force), blocked, name);
  }

  lemma {:induction false} NothingToDisable(l: seq<string>, blocked: set<string>)
    requires forall n :: n in blocked ==> HasDisabled(l, n)
    ensures InsertSet(l, blocked) == {}
  {
  }

  // ---------- running the patch again ----------

  ghost predicate AtMostOneTrue(l: seq<string>, b: Block) {
    forall i, j :: b.start < i < j < b.end && j < |l| && IsDisabledTrue(l[i]) ==> !IsDisabledTrue(l[j])
  }

  /** Every engine to be enabled has at most one `disabled: true` line in its block. */
  ghost predicate OneTrueEach(l: seq<string>, force: set<string>) {
    forall n :: n in force && BlockOf(l, n).Some? ==> AtMostOneTrue(l, BlockOf(l, n).value)
  }

  /** Inserting other lines moves the `disabled: true` lines of a block with the block. */
  lemma {:induction false} AtMostOneMoves(l: seq<string>, at: set<nat>, x: string, b: Block)
    requires b.start <= b.end <= |l| && !IsDisabledTrue(x)
    ensures AtMostOneTrue(Weave(l, at, x, 0), Block(Pos(at, b.start), Pos(at, b.end))) <==> AtMostOneTrue(l, b)
  {
    if !AtMostOneTrue(l, b) {
      PairMovesOut(l, at, x, b);
    } else if !AtMostOneTrue(Weave(l, at, x, 0), Block(Pos(at, b.start), Pos(at, b.end))) {
      PairCameFrom(l, at, x, b);
    }
  }

  lemma {:induction false} PairMovesOut(l: seq<string>, at: set<nat>, x: string, b: Block)
    requires b.start <= b.end <= |l| && !AtMostOneTrue(l, b)
    ensures !AtMostOneTrue(Weave(l, at, x, 0), Block(Pos(at, b.start), Pos(at, b.end)))
  {
    var i, j :| b.start < i < j < b.end && j < |l| && IsDisabledTrue(l[i]) && IsDisabledTrue(l[j]);
    WeaveSuffix(l, at, x, 0, i);
    WeaveSuffix(l, at, x, 0, j);
    PosMonotone(at, b.start, i);
    PosMonotone(at, i, j);
    PosMonotone(at, j, b.end);
    assert IsDisabledTrue(Weave(l, at, x, 0)[Pos(at, i)]);
  }

  lemma {:induction false} PairCameFrom(l: seq<string>, at: set<nat>, x: string, b: Block)
    requires b.start <= b.end <= |l| && !IsDisabledTrue(x)
    requires !AtMostOneTrue(Weave(l, at, x, 0), Block(Pos(at, b.start), Pos(at, b.end)))
    ensures !AtMostOneTrue(l, b)
  {
    var w, c := Weave(l, at, x, 0), Block(Pos(at, b.start), Pos(at, b.end));
    var i', j' :| c.start < i' < j' < c.end && j' < |w| && IsDisabledTrue(w[i']) && IsDisabledTrue(w[j']);
    var i := WeaveCovers(l, at, x, 0, i');
    var j := WeaveCovers(l, at, x, 0, j');
    Ordered(at, b.start, i);
    Ordered(at, i, j);
    Ordered(at, j, b.end);
  }

  lemma {:induction false} Ordered(at: set<nat>, i: nat, j: nat)
    requires Pos(at, i) < Pos(at, j)
    ensures i < j
  {
    if j <= i {
      PosMonotone(at, j, i);
    }
  }

  lemma {:induction false} JsonKeepsOneTrue(l: seq<string>, force: set<string>)
    ensures OneTrueEach(WithJson(l), force) <==> OneTrueEach(l, force)
  {
    if !JsonDone(l) {
      var at := {First(l, FORMATS) + 1};
      InsertedLinesNeutral();
      FixedLines();
      ItemIsNothingElse(JSON_LINE, "");
      forall n | n in force
        ensures BlockOf(WithJson(l), n) == MovedBlock(at, BlockOf(l, n))
        ensures BlockOf(l, n).Some? ==>
                  (AtMostOneTrue(WithJson(l), BlockOf(WithJson(l), n).value) <==> AtMostOneTrue(l, BlockOf(l, n).value))
      {
        WeaveMovesBlocks(l, at, JSON_LINE, n);
        if BlockOf(l, n).Some? {
          BlockFacts(l, n);
          AtMostOneMoves(l, at, JSON_LINE, BlockOf(l, n).value);
        }
      }
    }
  }

  /** Inside the block, l' is l with the engine's target rewritten. */
  ghost predicate TargetRewritten(l: seq<string>, l': seq<string>, name: string, b: Block) {
    && |l| == |l'| && BlockOf(l, name) == BlockOf(l', name) == Some(b)
    && forall i :: b.start < i < b.end && i < |l| ==>
         l'[i] == if FlipTarget(l, name) == Some(i) then FALSE_LINE else l[i]
  }

  /** With the first `disabled: true` line of a block rewritten, one is left if there were two. */
  lemma {:induction false} AfterRewriting(l: seq<string>, l': seq<string>, name: string, b: Block)
    requires TargetRewritten(l, l', name, b)
    ensures FlipTarget(l', name).None? <==> AtMostOneTrue(l, b)
  {
    if FlipTarget(l', name).Some? {
      var k' := SecondLine(l, l', name, b);
      TwoLines(l, name, k');
    } else {
      NoSecondLine(l, l', name, b);
    }
  }

  lemma {:induction false} SecondLine(l: seq<string>, l': seq<string>, name: string, b: Block) returns (k': nat)
    requires TargetRewritten(l, l', name, b) && FlipTarget(l', name).Some?
    ensures b.start < k' < b.end <= |l| && IsDisabledTrue(l[k']) && FlipTarget(l, name) != Some(k')
  {
    FalseLine();
    TargetFacts(l', name);
    k' := FlipTarget(l', name).value;
    assert l'[k'] != FALSE_LINE;
  }

  lemma {:induction false} TwoLines(l: seq<string>, name: string, k': nat)
    requires BlockOf(l, name).Some? && BlockOf(l, name).value.end <= |l|
    requires BlockOf(l, name).value.start < k' < BlockOf(l, name).value.end
    requires IsDisabledTrue(l[k']) && FlipTarget(l, name) != Some(k')
    ensures !AtMostOneTrue(l, BlockOf(l, name).value)
  {
    TargetFacts(l, name);
    assert IsDisabledTrue(l[FlipTarget(l, name).value]) && FlipTarget(l, name).value < k';
  }

  lemma {:induction false} NoSecondLine(l: seq<string>, l': seq<string>, name: string, b: Block)
    requires TargetRewritten(l, l', name, b) && FlipTarget(l', name).None?
    ensures AtMostOneTrue(l, b)
  {
    TargetFacts(l', name);
    forall i, j | b.start < i < j < b.end && j < |l| && IsDisabledTrue(l[i])
      ensures !IsDisabledTrue(l[j])
    {
      assert !IsDisabledTrue(l'[i]) && !IsDisabledTrue(l'[j]);
    }
  }

  /** After enabling, an engine still has a line to rewrite exactly when it had two. */
  lemma {:induction false} SecondTarget(l: seq<string>, force: set<string>, name: string)
    requires name in force && forall n :: n in force ==> PlainName(n)
    requires BlockOf(l, name).Some?
    ensures FlipTarget(Flip(l, FlipSet(l, force)), name).None? <==> AtMostOneTrue(l, BlockOf(l, name).value)
  {
    var at := FlipSet(l, force);
    var b := BlockOf(l, name).value;
    FlipSetTrue(l, force);
    FlipKeepsBlocks(l, at, name);
    forall i: nat | b.start < i < b.end
      ensures i in at <==> FlipTarget(l, name) == Some(i)
    {
      if i in at {
        OnlyOwnTarget(l, force, name, i);
      }
    }
    AfterRewriting(l, Flip(l, at), name, b);
  }

  lemma {:induction false} OnlyOwnTarget(l: seq<string>, force: set<string>, name: string, i: nat)
    requires name in force && (forall n :: n in force ==> PlainName(n)) && BlockOf(l, name).Some?
    requires BlockOf(l, name).value.start < i < BlockOf(l, name).value.end && i in FlipSet(l, force)
    ensures FlipTarget(l, name) == Some(i)
  {
    var n :| n in force && FlipTarget(l, n) == Some(i);
    if n != name {
      BlocksDisjoint(l, n, name);
      TargetFacts(l, n);
    }
  }

  /** Line i reappears in w, shifted by d. */
  ghost predicate SameLine(l: seq<string>, w: seq<string>, i: nat, d: nat) {
    i < |l| && i + d < |w| && w[i + d] == l[i]
  }

  /** The lines strictly between s and e reappear in w, shifted by d. */
  ghost predicate SameStretch(l: seq<string>, w: seq<string>, s: nat, e: nat, d: nat) {
    forall i: nat :: s < i < e ==> SameLine(l, w, i, d)
  }

  /** A stretch of lines without insertion points is moved as a whole. */
  lemma {:induction false} StretchMoves(l: seq<string>, at: set<nat>, x: string, s: nat, e: nat)
    requires s < e <= |l| && forall a :: s < a <= e ==> a !in at
    ensures Pos(at, e) == Pos(at, s) + (e - s)
    ensures SameStretch(l, Weave(l, at, x, 0), s, e, Pos(at, s) - s)
  {
    PosRigid(at, s, e);
    var w, d := Weave(l, at, x, 0), Pos(at, s) - s;
    forall i: nat | s < i < e
      ensures SameLine(l, w, i, d)
    {
      PosRigid(at, s, i);
      WeaveSuffix(l, at, x, 0, i);
    }
  }

  /** Disabling blocked engines touches no line inside the block of another engine. */
  lemma {:induction false} WeaveKeepsTarget(l: seq<string>, blocked: set<string>, name: string)
    requires name !in blocked && PlainName(name) && forall n :: n in blocked ==> PlainName(n)
    ensures FlipTarget(Weave(l, InsertSet(l, blocked), TRUE_LINE, 0), name).None? <==> FlipTarget(l, name).None?
  {
    var at := InsertSet(l, blocked);
    var w := Weave(l, at, TRUE_LINE, 0);
    InsertedLinesNeutral();
    WeaveMovesBlocks(l, at, TRUE_LINE, name);
    if BlockOf(l, name).Some? {
      BlockFacts(l, name);
      forall a: nat | BlockOf(l, name).value.start < a <= BlockOf(l, name).value.end
        ensures a !in at
      {
        NoneInForeignBlock(l, blocked, name, a);
      }
      WeaveKeepsTargetIn(l, at, name);
    }
  }

  lemma {:induction false} WeaveKeepsTargetIn(l: seq<string>, at: set<nat>, name: string)
    requires BlockOf(l, name).Some? && BlockOf(l, name).value.start < BlockOf(l, name).value.end <= |l|
    requires forall a :: BlockOf(l, name).value.start < a <= BlockOf(l, name).value.end ==> a !in at
    requires BlockOf(Weave(l, at, TRUE_LINE, 0), name) == MovedBlock(at, BlockOf(l, name))
    ensures FlipTarget(Weave(l, at, TRUE_LINE, 0), name).None? <==> FlipTarget(l, name).None?
  {
    var b, w := BlockOf(l, name).value, Weave(l, at, TRUE_LINE, 0);
    StretchMoves(l, at, TRUE_LINE, b.start, b.end);
    BlockFacts(w, name);
    SameTrueLines(l, w, name, Pos(at, b.start) - b.start);
  }

  lemma {:induction false} NoneInForeignBlock(l: seq<string>, blocked: set<string>, name: string, a: nat)
    requires name !in blocked && PlainName(name) && forall n :: n in blocked ==> PlainName(n)
    requires BlockOf(l, name).Some? && BlockOf(l, name).value.start < a <= BlockOf(l, name).value.end
    ensures a !in InsertSet(l, blocked)
  {
    if a in InsertSet(l, blocked) {
      var n :| n in blocked && NeedsDisabling(l, n) && a == BlockOf(l, n).value.start + 1;
      BlocksDisjoint(l, n, name);
      BlockFacts(l, n);
    }
  }

  /** Two blocks with the same lines have a line to rewrite in the same cases. */
  lemma {:induction false} SameTrueLines(l: seq<string>, w: seq<string>, name: string, d: nat)
    requires BlockOf(l, name).Some? && BlockOf(w, name).Some?
    requires var b, c := BlockOf(l, name).value, BlockOf(w, name).value;
             && c.start == b.start + d && c.end == b.end + d && b.end <= |l| && c.end <= |w|
             && SameStretch(l, w, b.start, b.end, d)
    ensures FlipTarget(w, name).None? <==> FlipTarget(l, name).None?
  {
    TargetFacts(l, name);
    TargetFacts(w, name);
    var b := BlockOf(l, name).value;
    if FlipTarget(l, name).Some? {
      assert SameLine(l, w, FlipTarget(l, name).value, d);
    }
    if FlipTarget(w, name).Some? {
      assert SameLine(l, w, FlipTarget(w, name).value - d, d);
    }
  }

  /** The patched lines still offer an engine to enable exactly when some block had two
      `disabled: true` lines. */
  lemma {:induction false} NothingToEnableIff(l: seq<string>, force: set<string>, blocked: set<string>)
    requires EngineSets(force, blocked)
    ensures FlipSet(Patched(l, force, blocked), force) == {} <==> OneTrueEach(l, force)
  {
    var l1, out := WithJson(l), Patched(l, force, blocked);
    JsonKeepsOneTrue(l, force);
    FlipSetTrue(l1, force);
    forall n | n in force
      ensures FlipTarget(out, n).None? <==> (BlockOf(l1, n).Some? ==> AtMostOneTrue(l1, BlockOf(l1, n).value))
    {
      WeaveKeepsTarget(Enabled(l, force), blocked, n);
      FlipKeepsBlocks(l1, FlipSet(l1, force), n);
      if BlockOf(l1, n).Some? {
        SecondTarget(l1, force, n);
      }
    }
    forall n | n in force && FlipTarget(out, n).Some?
      ensures FlipTarget(out, n).value in FlipSet(out, force)
    {
    }
  }

  lemma {:induction false} PatchedJsonDone(l: seq<string>, force: set<string>, blocked: set<string>)
    ensures JsonDone(Patched(l, force, blocked))
  {
    WithJsonDone(l);
    FlipSetTrue(WithJson(l), force);
    FlipKeepsJson(WithJson(l), FlipSet(WithJson(l), force));
    InsertedLinesNeutral();
    InsertSetAfterHeaders(Enabled(l, force), blocked);
    WeaveKeepsJson(Enabled(l, force), InsertSet(Enabled(l, force), blocked), TRUE_LINE, blocked);
  }

  /** Lines that have the JSON format, if any, and a `disabled:` line for every blocked engine. */
  ghost predicate Settled(l: seq<string>, blocked: set<string>) {
    JsonDone(l) && forall n :: n in blocked ==> HasDisabled(l, n)
  }

  /** A run on such lines only switches `disabled: true` lines. */
  lemma {:induction false} SettledRun(l: seq<string>, force: set<string>, blocked: set<string>)
    requires Settled(l, blocked)
    ensures Patched(l, force, blocked) == Flip(l, FlipSet(l, force))
  {
    FlipSetTrue(l, force);
    var again := Flip(l, FlipSet(l, force));
    forall n | n in blocked
      ensures HasDisabled(again, n)
    {
      FlipKeepsDisabled(l, FlipSet(l, force), n);
    }
    NothingToDisable(again, blocked);
    WeaveNothing(again, TRUE_LINE, 0);
  }

  lemma {:induction false} FlipChangesNothingIff(l: seq<string>, force: set<string>)
    ensures Flip(l, FlipSet(l, force)) == l <==> FlipSet(l, force) == {}
  {
    FlipSetTrue(l, force);
    FalseLine();
    if FlipSet(l, force) == {} {
      assert Flip(l, {}) == l;
    } else {
      var k :| k in FlipSet(l, force);
      assert Flip(l, FlipSet(l, force))[k] == FALSE_LINE;
    }
  }

  lemma {:induction false} PatchedSettled(l: seq<string>, force: set<string>, blocked: set<string>)
    ensures Settled(Patched(l, force, blocked), blocked)
  {
    PatchedJsonDone(l, force, blocked);
    forall n | n in blocked
      ensures HasDisabled(Patched(l, force, blocked), n)
    {
      BlockedEnginesDisabled(l, force, blocked, n);
    }
  }

  /** A second run only switches remaining `disabled: true` lines. */
  lemma {:induction false} SecondRun(l: seq<string>, force: set<string>, blocked: set<string>)
    ensures var out := Patched(l, force, blocked);
            Patched(out, force, blocked) == Flip(out, FlipSet(out, force))
  {
    PatchedSettled(l, force, blocked);
    SettledRun(Patched(l, force, blocked), force, blocked);
  }

  /** Idempotence, exactly: a second run changes nothing if and only if no engine to be
      enabled has two `disabled: true` lines in its block. */
  lemma {:induction false} SecondRunChangesNothingIff(l: seq<string>, force: set<string>, blocked: set<string>)
    requires EngineSets(force, blocked)
    ensures Patched(Patched(l, force, blocked), force, blocked) == Patched(l, force, blocked) <==> OneTrueEach(l, force)
  {
    SecondRun(l, force, blocked);
    NothingToEnableIff(l, force, blocked);
    FlipChangesNothingIff(Patched(l, force, blocked), force);
  }

  /** The name ends as an inserted line does. */
  predicate LikeInsertion(name: string) {
    |name| >= 14 && name[|name| - 14..] == "disabled: true"
  }

  /** The engine lists of the source meet the requirement. */
  lemma {:induction false} EngineListsFit()
    ensures EngineSets(FORCE_ENABLE_ENGINES, BLOCKED_ENGINES)
    ensures forall n :: n in FORCE_ENABLE_ENGINES + BLOCKED_ENGINES ==> !LikeInsertion(n)
  {
    assert "baidu" !in BLOCKED_ENGINES && "bing" !in BLOCKED_ENGINES && "sogou" !in BLOCKED_ENGINES;
    AllPlain();
    forall n | n in FORCE_ENABLE_ENGINES + BLOCKED_ENGINES
      ensures !LikeInsertion(n)
    {
      NoneLikeInsertion(n);
    }
  }

  lemma {:induction false} NoneLikeInsertion(n: string)
    requires n in FORCE_ENABLE_ENGINES + BLOCKED_ENGINES
    ensures !LikeInsertion(n)
  {
    if LikeInsertion(n) { InsertionEnd(n); }
  }

  lemma {:induction false} InsertionEnd(n: string)
    requires LikeInsertion(n)
    ensures |n| >= 2 && n[|n| - 1] == 'e' && n[|n| - 2] == 'u'
  {
    assert n[|n| - 1] == n[|n| - 14..][13] && n[|n| - 2] == n[|n| - 14..][12];
  }

  lemma {:induction false} AllPlain()
    ensures forall n :: n in FORCE_ENABLE_ENGINES + BLOCKED_ENGINES ==> PlainName(n)
  {
  }
}
