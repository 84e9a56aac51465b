/** The patch run again on the file it wrote, and its JSON format on the file, for every file.
 */
module SearxngRerun {
  import opened LineWeaving
  import opened Options
  import opened SearxngConfig
  import opened SearxngFile
  import opened SearxngPatch
  import opened Text

  // ---------- reading what was written ----------

  lemma {:induction false} JoinSplit(text: string)
    ensures Join(SplitLines(text)) == text
  {
    if text != [] {
      var n := LineLength(text);
      JoinSplit(text[n..]);
      assert SplitLines(text)[1..] == SplitLines(text[n..]);
      assert text == text[..n] + text[n..];
    }
  }

  ghost predicate ReadsBack(l: seq<string>) {
    SplitLines(Join(l)) == l
  }

  lemma {:induction false} FlippedReadsBack(text: string, at: set<nat>)
    ensures ReadsBack(Flip(SplitLines(text), at))
  {
    var l := SplitLines(text);
    if Closed(text) {
      SplitTerminated(text);
      FlipTerminated(l, at);
      SplitJoin(Flip(l, at));
    } else {
      SplitOpen(text);
      FlipOpen(l, at);
      if OpenEnd(Flip(l, at)) {
        SplitJoinOpen(Flip(l, at));
      } else {
        SplitJoin(Flip(l, at));
      }
    }
  }

  /** On the text of settled lines a run changes nothing exactly when it has nothing to enable. */
  lemma {:induction false} SettledFileRun(text: string, force: set<string>, blocked: set<string>)
    requires Settled(SplitLines(text), blocked)
    ensures PatchFile(text, force, blocked) == text <==> FlipSet(SplitLines(text), force) == {}
  {
    var l := SplitLines(text);
    SettledRun(l, force, blocked);
    JoinSplit(text);
    FlippedReadsBack(text, FlipSet(l, force));
    FlipChangesNothingIff(l, force);
  }

  // ---------- lines behind a block end ----------

  /** Lines that end every block before them and head none of the engine. */
  ghost predicate Stops(tail: seq<string>, name: string) {
    tail != [] && IsBlockEnd(tail[0]) && forall i :: 0 <= i < |tail| ==> !IsHeader(tail[i], name)
  }

  lemma {:induction false} FirstStop(l: seq<string>, tail: seq<string>, p: string -> bool)
    requires tail != [] && p(tail[0])
    ensures First(l + tail, p) == First(l, p)
  {
    FirstFacts(l, p);
    assert (l + tail)[|l|] == tail[0];
    FirstIs(l + tail, p, First(l, p));
  }

  lemma {:induction false} StopKeepsBlock(l: seq<string>, tail: seq<string>, name: string)
    requires Stops(tail, name)
    ensures BlockOf(l + tail, name) == BlockOf(l, name)
  {
    FirstBeforeTail(l, tail, HeaderOf(name));
    var s := First(l, HeaderOf(name));
    if s < |l| {
      assert (l + tail)[s + 1..] == l[s + 1..] + tail;
      FirstStop(l[s + 1..], tail, BLOCK_END);
    }
  }

  /** Such lines change nothing for the engine. */
  lemma {:induction false} StopTail(l: seq<string>, tail: seq<string>, name: string)
    requires Stops(tail, name)
    ensures HasDisabled(l + tail, name) <==> HasDisabled(l, name)
    ensures FlipTarget(l + tail, name) == FlipTarget(l, name)
  {
    StopKeepsBlock(l, tail, name);
    if BlockOf(l, name).Some? {
      BlockFacts(l, name);
      StopNeeds(l, tail, name);
      StopTarget(l, tail, name);
    }
  }

  lemma {:induction false} StopTarget(l: seq<string>, tail: seq<string>, name: string)
    requires BlockOf(l, name).Some? && BlockOf(l + tail, name) == BlockOf(l, name)
    ensures FlipTarget(l + tail, name) == FlipTarget(l, name)
  {
    BlockFacts(l, name);
    var b := BlockOf(l, name).value;
    assert (l + tail)[b.start + 1..b.end] == l[b.start + 1..b.end];
  }

  lemma {:induction false} StopNeeds(l: seq<string>, tail: seq<string>, name: string)
    requires BlockOf(l, name).Some? && BlockOf(l + tail, name) == BlockOf(l, name)
    requires BlockOf(l, name).value.end <= |l|
    ensures NeedsDisabling(l + tail, name) <==> NeedsDisabling(l, name)
  {
    var b := BlockOf(l, name).value;
    assert forall i :: b.start < i < b.end ==> (l + tail)[i] == l[i];
  }

  /** Quiet lines give an engine no line to enable. */
  lemma {:induction false} QuietTargets(l: seq<string>, tail: seq<string>, name: string)
    requires Quiet(tail)
    ensures FlipTarget(l + tail, name).None? <==> FlipTarget(l, name).None?
  {
    QuietTail(l, tail, name);
    if BlockOf(l, name).Some? {
      QuietBlock(l, tail, name);
      TargetFacts(l, name);
      TargetFacts(l + tail, name);
      QuietTargetsIn(l, tail, name);
    }
  }

  lemma {:induction false} QuietBlock(l: seq<string>, tail: seq<string>, name: string)
    requires Quiet(tail) && BlockOf(l, name).Some? && BlockOf(l + tail, name).Some?
    requires BlockOf(l + tail, name).value.start == BlockOf(l, name).value.start
    ensures var e, e' := BlockOf(l, name).value.end, BlockOf(l + tail, name).value.end;
            e <= |l| && e' == if e < |l| then e else |l| + |tail|
  {
    var s := BlockOf(l, name).value.start;
    BlockFacts(l, name);
    assert (l + tail)[s + 1..] == l[s + 1..] + tail;
    FirstBeforeTail(l[s + 1..], tail, BLOCK_END);
  }

  lemma {:induction false} QuietTargetsIn(l: seq<string>, tail: seq<string>, name: string)
    requires Quiet(tail) && BlockOf(l, name).Some? && BlockOf(l + tail, name).Some?
    requires BlockOf(l + tail, name).value.start == BlockOf(l, name).value.start
    requires var e, e' := BlockOf(l, name).value.end, BlockOf(l + tail, name).value.end;
             e <= |l| && e' == if e < |l| then e else |l| + |tail|
    ensures FlipTarget(l + tail, name).None? <==> FlipTarget(l, name).None?
  {
    TargetFacts(l, name);
    TargetFacts(l + tail, name);
    if FlipTarget(l, name).Some? {
      assert IsDisabledTrue((l + tail)[FlipTarget(l, name).value]);
    }
    if FlipTarget(l + tail, name).Some? {
      forall i | |l| <= i < |l + tail|
        ensures !IsDisabledTrue((l + tail)[i])
      {
        assert (l + tail)[i] == tail[i - |l|];
      }
      assert IsDisabledTrue(l[FlipTarget(l + tail, name).value]);
    }
  }

  lemma {:induction false} SameFlips(l: seq<string>, l': seq<string>, force: set<string>)
    requires forall n :: n in force ==> (FlipTarget(l, n).None? <==> FlipTarget(l', n).None?)
    ensures FlipSet(l, force) == {} <==> FlipSet(l', force) == {}
  {
    NoFlips(l, force);
    NoFlips(l', force);
  }

  lemma {:induction false} NoFlips(l: seq<string>, force: set<string>)
    ensures FlipSet(l, force) == {} <==> forall n :: n in force ==> FlipTarget(l, n).None?
  {
    forall n | n in force && FlipTarget(l, n).Some?
      ensures FlipTarget(l, n).value in FlipSet(l, force)
    {
    }
  }

  // ---------- the JSON format ----------

  /** Lines behind that are neither formats lines nor continue a list do not matter. */
  lemma {:induction false} JsonBefore(l: seq<string>, tail: seq<string>)
    requires tail != [] && !IsItem(tail[0]) && forall i :: 0 <= i < |tail| ==> !FORMATS(tail[i])
    ensures JsonDone(l + tail) <==> JsonDone(l)
    ensures First(l + tail, FORMATS) < |l + tail| <==> First(l, FORMATS) < |l|
  {
    var f := First(l, FORMATS);
    FirstBeforeTail(l, tail, FORMATS);
    if f < |l| {
      if HasJson(l, f) {
        var j :| f < j < |l| && IsJsonItem(l[j]) && AllItems(l, f, j);
        assert (l + tail)[j] == l[j] && AllItems(l + tail, f, j);
      }
      if HasJson(l + tail, f) {
        var j :| f < j < |l + tail| && IsJsonItem((l + tail)[j]) && AllItems(l + tail, f, j);
        assert (l + tail)[|l|] == tail[0];
        assert j < |l|;
        assert AllItems(l, f, j) by {
          assert forall k :: f < k <= j ==> (l + tail)[k] == l[k];
        }
      }
    }
  }

  /** The formats line survives the patch of the lines. */
  lemma {:induction false} FormatsStay(l: seq<string>, force: set<string>, blocked: set<string>)
    ensures First(Patched(l, force, blocked), FORMATS) < |Patched(l, force, blocked)| <==> First(l, FORMATS) < |l|
  {
    var j, e := WithJson(l), Enabled(l, force);
    InsertedLinesNeutral();
    if !JsonDone(l) {
      FormatsWeave(l, {First(l, FORMATS) + 1}, JSON_LINE);
    }
    FlipSetTrue(j, force);
    FlipKeepsFormats(j, FlipSet(j, force));
    FormatsWeave(e, InsertSet(e, blocked), TRUE_LINE);
  }

  lemma {:induction false} FormatsWeave(l: seq<string>, at: set<nat>, x: string)
    requires Neutral(x)
    ensures var w := Weave(l, at, x, 0); First(w, FORMATS) < |w| <==> First(l, FORMATS) < |l|
  {
    assert l[0..] == l;
    FirstWeave(l, at, x, FORMATS, 0);
    WeaveLength(l, at, x, 0);
    PosMonotone(at, First(l, FORMATS), |l|);
  }

  lemma {:induction false} FlipKeepsFormats(l: seq<string>, at: set<nat>)
    requires forall i :: i in at ==> i < |l| && IsDisabledTrue(l[i])
    ensures First(Flip(l, at), FORMATS) == First(l, FORMATS)
  {
    InsertedLinesNeutral();
    forall i | 0 <= i < |l|
      ensures FORMATS(l[i]) == FORMATS(Flip(l, at)[i])
    {
      if i in at { DisabledIsNothingElse(l[i], ""); }
    }
    SameFirst(l, Flip(l, at), FORMATS);
  }

  // ---------- the two glued cases ----------

  lemma {:induction false} GluedFormatsLine(u: string)
    requires IsFormats(u)
    ensures !IsFormats(u + JSON_LINE) && !IsItem(u)
  {
    var n := |"  formats:"|;
    assert (u + JSON_LINE)[n..][|u| - n + 4] == '-';
    assert u[2] == 'f';
  }

  /** The formats line and the JSON item are one line, which is no formats line. */
  lemma {:induction false} GluedFormatsFile(text: string, force: set<string>, blocked: set<string>)
    requires OpenEnd(SplitLines(text)) && JsonAtEnd(SplitLines(text))
    ensures var l, w := SplitLines(text), SplitLines(PatchFile(text, force, blocked));
            && Settled(w, blocked) && First(w, FORMATS) == |w|
            && (FlipSet(w, force) == {} <==> FlipSet(Patched(l, force, blocked), force) == {})
  {
    var x, u := FormatsPatched(SplitLines(text), force, blocked);
    FixedTerminated();
    GluedReadsBack(x, u, JSON_LINE);
    PatchedSettled(SplitLines(text), force, blocked);
    GluedFormatsLines(x, u, force, blocked);
  }

  lemma {:induction false} GluedFormatsLines(x: seq<string>, u: string, force: set<string>, blocked: set<string>)
    requires IsFormats(u) && First(x, FORMATS) == |x| && Settled(x + [u, JSON_LINE], blocked)
    ensures var w := x + [u + JSON_LINE];
            && Settled(w, blocked) && First(w, FORMATS) == |w|
            && (FlipSet(w, force) == {} <==> FlipSet(x + [u, JSON_LINE], force) == {})
  {
    FormatsQuiet(u);
    GluedFormatsLine(u);
    FirstBeforeTail(x, [u + JSON_LINE], FORMATS);
    forall n
      ensures HasDisabled(x + [u + JSON_LINE], n) <==> HasDisabled(x + [u, JSON_LINE], n)
      ensures FlipTarget(x + [u + JSON_LINE], n).None? <==> FlipTarget(x + [u, JSON_LINE], n).None?
    {
      QuietTail(x, [u, JSON_LINE], n);
      QuietTail(x, [u + JSON_LINE], n);
      QuietTargets(x, [u, JSON_LINE], n);
      QuietTargets(x, [u + JSON_LINE], n);
    }
    SameFlips(x + [u + JSON_LINE], x + [u, JSON_LINE], force);
  }

  lemma {:induction false} BlankAt(s: string, n: nat, i: nat)
    requires n <= i < |s| && Blank(s[n..])
    ensures IsSpace(s[i])
  {
    assert s[n..][i - n] == s[i];
  }

  lemma {:induction false} PlainEnd(prefix: string, name: string)
    requires PlainName(name) && name != []
    ensures !IsSpace((prefix + name)[|prefix + name| - 1])
  {
  }

  /** Only a name that ends as the inserted line does is named by the glued line. */
  lemma {:induction false} GluedNameEnds(u: string, name: string, other: string)
    requires IsHeader(u, name) && IsHeader(u + TRUE_LINE, other) && PlainName(other)
    ensures LikeInsertion(other)
  {
    var g, p := u + TRUE_LINE, "  - name: " + other;
    assert |u| >= 10 && g[|g| - 2] == 'e' && g[|g| - 1] == '\n';
    if |p| <= |g| - 2 {
      BlankAt(g, |p|, |g| - 2);
    } else if |p| == |g| {
      PlainEnd("  - name: ", other);
    } else {
      assert other == p[10..] == g[10..|g| - 1];
      assert other[|other| - 14..] == g[|u| + 4..|u| + 18] == TRUE_LINE[4..18];
    }
  }

  lemma {:induction false} StopsFor(u: string, name: string, n: string)
    requires IsHeader(u, name) && PlainName(name) && PlainName(n) && n != name && !LikeInsertion(n)
    ensures Stops([u, TRUE_LINE], n) && Stops([u + TRUE_LINE], n)
  {
    HeaderIsBlockEnd(u, name);
    if IsHeader(u + TRUE_LINE, n) { GluedNameEnds(u, name, n); }
    TrueLine();
    DisabledIsNothingElse(TRUE_LINE, n);
    if IsHeader(u, n) { HeaderNamesOne(u, n, name); }
    assert "  - name: " <= u ==> "  - name: " <= u + TRUE_LINE;
  }

  /** Plain names that do not end as an inserted line does. */
  predicate Unglued(names: set<string>) {
    forall n :: n in names ==> PlainName(n) && !LikeInsertion(n)
  }

  /** The header and the inserted line are one line, which heads no engine. */
  lemma {:induction false} GluedHeaderFile(text: string, force: set<string>, blocked: set<string>, name: string)
    requires EngineSets(force, blocked) && Unglued(force + blocked)
    requires OpenEnd(SplitLines(text)) && HeaderAtEnd(SplitLines(text), name) && name in blocked
    ensures var l, w := SplitLines(text), SplitLines(PatchFile(text, force, blocked));
            && Settled(w, blocked)
            && (FlipSet(w, force) == {} <==> FlipSet(Patched(l, force, blocked), force) == {})
  {
    var x, u := HeaderPatched(SplitLines(text), force, blocked, name);
    FixedTerminated();
    GluedReadsBack(x, u, TRUE_LINE);
    PatchedSettled(SplitLines(text), force, blocked);
    GluedHeaderLines(x, u, force, blocked, name);
  }

  lemma {:induction false} GluedHeaderLines(x: seq<string>, u: string, force: set<string>, blocked: set<string>,
                                            name: string)
    requires EngineSets(force, blocked) && Unglued(force + blocked) && name in blocked
    requires IsHeader(u, name) && '\n' !in u && BlockOf(x, name).None? && Settled(x + [u, TRUE_LINE], blocked)
    ensures var w, p := x + [u + TRUE_LINE], x + [u, TRUE_LINE];
            && Settled(w, blocked)
            && (FlipSet(w, force) == {} <==> FlipSet(p, force) == {})
  {
    GluedHeaderJson(x, u, name);
    forall n | n in blocked
      ensures HasDisabled(x + [u + TRUE_LINE], n)
    {
      if n == name {
        GluedIsNoHeader(u, name);
        FirstBeforeTail(x, [u + TRUE_LINE], HeaderOf(name));
      } else {
        StopsFor(u, name, n);
        StopTail(x, [u, TRUE_LINE], n);
        StopTail(x, [u + TRUE_LINE], n);
      }
    }
    forall n | n in force
      ensures FlipTarget(x + [u + TRUE_LINE], n) == FlipTarget(x + [u, TRUE_LINE], n)
    {
      StopsFor(u, name, n);
      StopTail(x, [u, TRUE_LINE], n);
      StopTail(x, [u + TRUE_LINE], n);
    }
    SameFlips(x + [u + TRUE_LINE], x + [u, TRUE_LINE], force);
  }

  lemma {:induction false} GluedHeaderJson(x: seq<string>, u: string, name: string)
    requires IsHeader(u, name)
    ensures var w, p := x + [u + TRUE_LINE], x + [u, TRUE_LINE];
            && (JsonDone(w) <==> JsonDone(p)) && (First(w, FORMATS) < |w| <==> First(p, FORMATS) < |p|)
  {
    HeaderIsBlockEnd(u, name);
    InsertedLinesNeutral();
    assert u[2] == '-' && (u + TRUE_LINE)[2] == '-' && "  formats:"[2] == 'f' && "    - "[2] == ' ';
    JsonBefore(x, [u, TRUE_LINE]);
    JsonBefore(x, [u + TRUE_LINE]);
  }

  // ---------- the two promises on files, exactly ----------

  /** What the patched file reads as, against the patched lines. */
  lemma {:induction false} PatchedFileReads(text: string, force: set<string>, blocked: set<string>)
    requires EngineSets(force, blocked)
    requires Closed(text) || !EndsInBlockedHeader(SplitLines(text), blocked) || Unglued(force + blocked)
    ensures var l, w := SplitLines(text), SplitLines(PatchFile(text, force, blocked));
            Settled(w, blocked) && (FlipSet(w, force) == {} <==> FlipSet(Patched(l, force, blocked), force) == {})
  {
    var l := SplitLines(text);
    PatchedSettled(l, force, blocked);
    if Closed(text) {
      PatchedFileLines(text, force, blocked);
    } else {
      SplitOpen(text);
      if EndsInBlockedHeader(l, blocked) {
        var n :| n in blocked && HeaderAtEnd(l, n);
        GluedHeaderFile(text, force, blocked, n);
      } else if JsonAtEnd(l) {
        GluedFormatsFile(text, force, blocked);
      } else {
        OpenFileLines(text, force, blocked);
      }
    }
  }

  /** A second run on any file, with a final newline or without, changes nothing if and only if no
      engine to be enabled has two `disabled: true` lines in its block.  Only when the header of a
      blocked engine is glued to an inserted line must no engine bear the name this makes. */
  lemma {:induction false} SecondFileRunChangesNothingIff(text: string, force: set<string>, blocked: set<string>)
    requires EngineSets(force, blocked)
    requires Closed(text) || !EndsInBlockedHeader(SplitLines(text), blocked) || Unglued(force + blocked)
    ensures PatchFile(PatchFile(text, force, blocked), force, blocked) == PatchFile(text, force, blocked)
            <==> OneTrueEach(SplitLines(text), force)
  {
    PatchedFileReads(text, force, blocked);
    SettledFileRun(PatchFile(text, force, blocked), force, blocked);
    NothingToEnableIff(SplitLines(text), force, blocked);
  }

  ghost predicate HasFormats(l: seq<string>) {
    First(l, FORMATS) < |l|
  }

  /** The formats line is followed by list items, the JSON item among them. */
  ghost predicate ListsJsonFormat(l: seq<string>) {
    HasFormats(l) && HasJson(l, First(l, FORMATS))
  }

  /** A formats line found in a file is found in the patched file with its JSON item, if and only
      if the file is empty, ends in a newline, or its last line is not the first formats line. */
  lemma {:induction false} FileJsonIff(text: string, force: set<string>, blocked: set<string>)
    ensures (HasFormats(SplitLines(text)) ==> ListsJsonFormat(SplitLines(PatchFile(text, force, blocked))))
            <==> Closed(text) || !JsonAtEnd(SplitLines(text))
  {
    var l := SplitLines(text);
    PatchedJsonDone(l, force, blocked);
    FormatsStay(l, force, blocked);
    if Closed(text) {
      PatchedFileLines(text, force, blocked);
    } else {
      SplitOpen(text);
      if EndsInBlockedHeader(l, blocked) {
        var n :| n in blocked && HeaderAtEnd(l, n);
        HeaderNotFormats(l, n);
        GluedHeaderFormats(text, force, blocked, n);
      } else if JsonAtEnd(l) {
        GluedFormatsFile(text, force, blocked);
      } else {
        OpenFileLines(text, force, blocked);
      }
    }
  }

  lemma {:induction false} GluedHeaderFormats(text: string, force: set<string>, blocked: set<string>, name: string)
    requires OpenEnd(SplitLines(text)) && HeaderAtEnd(SplitLines(text), name) && name in blocked
    ensures var p, w := Patched(SplitLines(text), force, blocked), SplitLines(PatchFile(text, force, blocked));
            (JsonDone(w) <==> JsonDone(p)) && (HasFormats(w) <==> HasFormats(p))
  {
    var x, u := HeaderPatched(SplitLines(text), force, blocked, name);
    FixedTerminated();
    GluedReadsBack(x, u, TRUE_LINE);
    GluedHeaderJson(x, u, name);
  }

  /** The engine lists of the source meet what these theorems ask of them. */
  lemma {:induction false} EngineListsUnglued()
    ensures EngineSets(FORCE_ENABLE_ENGINES, BLOCKED_ENGINES) && Unglued(FORCE_ENABLE_ENGINES + BLOCKED_ENGINES)
  {
    EngineListsFit();
    AllPlain();
  }
}
