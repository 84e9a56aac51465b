/** The verdict on changed lines: which of the added lines are measured, and whether enough of
    them are covered.  Scope, extension and omit filters are one predicate on paths.
 */
module DiffCoverage {
  import opened Options
  import opened Text
  import opened UnifiedDiff
  import opened DiffReading

  /** Measured line numbers of a file, with whether each was covered. */
  type LineMap = map<nat, bool>

  datatype Report = Report(code: int, measured: nat, uncovered: nat, missing: seq<string>)

  /** All paths, each once, in whatever order they are sorted. */
  ghost predicate Lists(paths: seq<string>, added: map<string, seq<nat>>) {
    && (forall p :: p in paths <==> p in added)
    && forall i, j :: 0 <= i < j < |paths| ==> paths[i] != paths[j]
  }

  function MeasuredIn(lines: seq<nat>, m: LineMap): nat {
    if lines == [] then 0
    else (if lines[|lines| - 1] in m then 1 else 0) + MeasuredIn(lines[..|lines| - 1], m)
  }

  function UncoveredIn(lines: seq<nat>, m: LineMap): nat {
    if lines == [] then 0
    else
      var n := lines[|lines| - 1];
      (if n in m && !m[n] then 1 else 0) + UncoveredIn(lines[..|lines| - 1], m)
  }

  predicate Judged(path: string, inScope: string -> bool, coverage: map<string, LineMap>) {
    inScope(path) && path in coverage
  }

  function MeasuredTotal(paths: seq<string>, added: map<string, seq<nat>>, inScope: string -> bool,
                         coverage: map<string, LineMap>): nat
    requires forall p :: p in paths ==> p in added
  {
    if paths == [] then 0
    else
      var p := paths[|paths| - 1];
      (if Judged(p, inScope, coverage) then MeasuredIn(added[p], coverage[p]) else 0)
      + MeasuredTotal(paths[..|paths| - 1], added, inScope, coverage)
  }

  function UncoveredTotal(paths: seq<string>, added: map<string, seq<nat>>, inScope: string -> bool,
                          coverage: map<string, LineMap>): nat
    requires forall p :: p in paths ==> p in added
  {
    if paths == [] then 0
    else
      var p := paths[|paths| - 1];
      (if Judged(p, inScope, coverage) then UncoveredIn(added[p], coverage[p]) else 0)
      + UncoveredTotal(paths[..|paths| - 1], added, inScope, coverage)
  }

  // ---------- the numbers as sets of added lines ----------

  /** The measured lines of one file, by position. */
  ghost function MeasuredAt(lines: seq<nat>, m: LineMap): set<nat> {
    set i | 0 <= i < |lines| && lines[i] in m
  }

  ghost function UncoveredAt(lines: seq<nat>, m: LineMap): set<nat> {
    set i | 0 <= i < |lines| && lines[i] in m && !m[lines[i]]
  }

  lemma {:induction false} MeasuredCount(lines: seq<nat>, m: LineMap)
    ensures MeasuredIn(lines, m) == |MeasuredAt(lines, m)|
  {
    if lines != [] {
      var init, k := lines[..|lines| - 1], |lines| - 1;
      MeasuredCount(init, m);
      var last := if lines[k] in m then {k} else {};
      forall i
        ensures i in MeasuredAt(lines, m) <==> i in MeasuredAt(init, m) + last
      {
        assert 0 <= i < k ==> init[i] == lines[i];
      }
      assert MeasuredAt(lines, m) == MeasuredAt(init, m) + last;
    }
  }

  lemma {:induction false} UncoveredCount(lines: seq<nat>, m: LineMap)
    ensures UncoveredIn(lines, m) == |UncoveredAt(lines, m)|
  {
    if lines != [] {
      var init, k := lines[..|lines| - 1], |lines| - 1;
      UncoveredCount(init, m);
      var last := if lines[k] in m && !m[lines[k]] then {k} else {};
      forall i
        ensures i in UncoveredAt(lines, m) <==> i in UncoveredAt(init, m) + last
      {
        assert 0 <= i < k ==> init[i] == lines[i];
      }
      assert UncoveredAt(lines, m) == UncoveredAt(init, m) + last;
    }
  }

  /** The added lines that count: of a file in scope that is in the coverage data, and measured there. */
  ghost function Measured(paths: set<string>, added: map<string, seq<nat>>, inScope: string -> bool,
                          coverage: map<string, LineMap>): set<(string, nat)> {
    set p, i | p in paths && p in added && inScope(p) && p in coverage
               && 0 <= i < |added[p]| && added[p][i] in coverage[p] :: (p, i)
  }

  /** Those of them that are not covered. */
  ghost function Uncovered(paths: set<string>, added: map<string, seq<nat>>, inScope: string -> bool,
                           coverage: map<string, LineMap>): set<(string, nat)> {
    set p, i | p in paths && p in added && inScope(p) && p in coverage
               && 0 <= i < |added[p]| && added[p][i] in coverage[p] && !coverage[p][added[p][i]] :: (p, i)
  }

  ghost function Pairs(p: string, at: set<nat>): set<(string, nat)> {
    set i | i in at :: (p, i)
  }

  lemma {:induction false} PairsSize(p: string, at: set<nat>)
    ensures |Pairs(p, at)| == |at|
  {
    if at != {} {
      var i :| i in at;
      PairsSize(p, at - {i});
      assert Pairs(p, at) == Pairs(p, at - {i}) + {(p, i)};
      assert (p, i) !in Pairs(p, at - {i});
    }
  }

  ghost function PathSet(paths: seq<string>): set<string> {
    set p | p in paths
  }

  lemma {:induction false} MeasuredSplit(paths: set<string>, p: string, added: map<string, seq<nat>>,
                                         inScope: string -> bool, coverage: map<string, LineMap>)
    requires p !in paths && p in added
    ensures
      |Measured(paths + {p}, added, inScope, coverage)|
      == |Measured(paths, added, inScope, coverage)|
         + if Judged(p, inScope, coverage) then MeasuredIn(added[p], coverage[p]) else 0
  {
    var more := if Judged(p, inScope, coverage) then Pairs(p, MeasuredAt(added[p], coverage[p])) else {};
    var few := Measured(paths, added, inScope, coverage);
    forall x
      ensures x in Measured(paths + {p}, added, inScope, coverage) <==> x in few + more
    {
    }
    assert Measured(paths + {p}, added, inScope, coverage) == few + more && few !! more;
    if Judged(p, inScope, coverage) {
      MeasuredCount(added[p], coverage[p]);
      PairsSize(p, MeasuredAt(added[p], coverage[p]));
    }
  }

  lemma {:induction false} UncoveredSplit(paths: set<string>, p: string, added: map<string, seq<nat>>,
                                          inScope: string -> bool, coverage: map<string, LineMap>)
    requires p !in paths && p in added
    ensures
      |Uncovered(paths + {p}, added, inScope, coverage)|
      == |Uncovered(paths, added, inScope, coverage)|
         + if Judged(p, inScope, coverage) then UncoveredIn(added[p], coverage[p]) else 0
  {
    var more := if Judged(p, inScope, coverage) then Pairs(p, UncoveredAt(added[p], coverage[p])) else {};
    var few := Uncovered(paths, added, inScope, coverage);
    forall x
      ensures x in Uncovered(paths + {p}, added, inScope, coverage) <==> x in few + more
    {
    }
    assert Uncovered(paths + {p}, added, inScope, coverage) == few + more && few !! more;
    if Judged(p, inScope, coverage) {
      UncoveredCount(added[p], coverage[p]);
      PairsSize(p, UncoveredAt(added[p], coverage[p]));
    }
  }

  /** The totals are the numbers of these lines. */
  lemma {:induction false} TotalsCount(paths: seq<string>, added: map<string, seq<nat>>, inScope: string -> bool,
                                       coverage: map<string, LineMap>)
    requires forall p :: p in paths ==> p in added
    requires forall i, j :: 0 <= i < j < |paths| ==> paths[i] != paths[j]
    ensures MeasuredTotal(paths, added, inScope, coverage) == |Measured(PathSet(paths), added, inScope, coverage)|
    ensures UncoveredTotal(paths, added, inScope, coverage) == |Uncovered(PathSet(paths), added, inScope, coverage)|
  {
    if paths == [] {
      assert Measured({}, added, inScope, coverage) == {} && Uncovered({}, added, inScope, coverage) == {};
      assert PathSet(paths) == {};
    } else {
      var init, p := paths[..|paths| - 1], paths[|paths| - 1];
      TotalsCount(init, added, inScope, coverage);
      assert paths == init + [p];
      assert PathSet(paths) == PathSet(init) + {p} && p !in PathSet(init);
      MeasuredSplit(PathSet(init), p, added, inScope, coverage);
      UncoveredSplit(PathSet(init), p, added, inScope, coverage);
    }
  }

  method CountLines(lines: seq<nat>, m: LineMap) returns (measured: nat, uncovered: nat)
    ensures measured == MeasuredIn(lines, m) && uncovered == UncoveredIn(lines, m)
  {
    measured, uncovered := 0, 0;
    var i := 0;
    while i < |lines|
      invariant 0 <= i <= |lines|
      invariant measured == MeasuredIn(lines[..i], m) && uncovered == UncoveredIn(lines[..i], m)
    {
      assert lines[..i + 1][..i] == lines[..i];
      var n := lines[i];
      if n in m {
        measured := measured + 1;
        if !m[n] { uncovered := uncovered + 1; }
      }
      i := i + 1;
    }
    assert lines[..i] == lines;
  }

  /** The pass rule on the totals. */
  predicate Enough(measured: nat, uncovered: nat, failUnder: real) {
    measured == 0 || 100.0 * (measured - uncovered) as real / measured as real >= failUnder
  }

  /** Enough is covered when nothing is measured, or the covered lines are at least the threshold's
      share of the measured ones. */
  lemma {:induction false} EnoughMeaning(measured: nat, uncovered: nat, failUnder: real)
    requires uncovered <= measured
    ensures Enough(measured, uncovered, failUnder) <==>
            measured == 0 || failUnder * measured as real <= 100.0 * (measured - uncovered) as real
  {
    if measured > 0 {
      var m, share := measured as real, 100.0 * (measured - uncovered) as real;
      assert share / m * m == share;
    }
  }

  /** The walk over the changed files: totals, and the files in scope that were not measured. */
  method Tally(paths: seq<string>, added: map<string, seq<nat>>, inScope: string -> bool,
               coverage: map<string, LineMap>)
    returns (measured: nat, uncovered: nat, missing: seq<string>)
    requires Lists(paths, added)
    ensures measured == MeasuredTotal(paths, added, inScope, coverage)
    ensures uncovered == UncoveredTotal(paths, added, inScope, coverage)
    ensures forall p :: p in missing <==> p in added && inScope(p) && p !in coverage
  {
    measured, uncovered, missing := 0, 0, [];
    var i := 0;
    while i < |paths|
      invariant 0 <= i <= |paths|
      invariant measured == MeasuredTotal(paths[..i], added, inScope, coverage)
      invariant uncovered == UncoveredTotal(paths[..i], added, inScope, coverage)
      invariant forall p :: p in missing <==> p in paths[..i] && inScope(p) && p !in coverage
    {
      assert paths[..i + 1][..i] == paths[..i];
      var path := paths[i];
      if inScope(path) {
        if path !in coverage {
          missing := missing + [path];
        } else {
          var m, u := CountLines(added[path], coverage[path]);
          measured, uncovered := measured + m, uncovered + u;
        }
      }
      i := i + 1;
    }
    assert paths[..i] == paths;
  }

  lemma {:induction false} WholeTally(paths: seq<string>, added: map<string, seq<nat>>, inScope: string -> bool,
                                      coverage: map<string, LineMap>)
    requires Lists(paths, added)
    ensures MeasuredTotal(paths, added, inScope, coverage) == |Measured(added.Keys, added, inScope, coverage)|
    ensures UncoveredTotal(paths, added, inScope, coverage) == |Uncovered(added.Keys, added, inScope, coverage)|
    ensures UncoveredTotal(paths, added, inScope, coverage) <= MeasuredTotal(paths, added, inScope, coverage)
  {
    TotalsCount(paths, added, inScope, coverage);
    NoneUncoveredTotalIff(paths, added, inScope, coverage);
    assert PathSet(paths) == added.Keys;
  }

  /** The verdict: the numbers of measured and of uncovered added lines, the files in scope without
      coverage data, and success exactly when there are none of these and nothing is measured or
      the covered share reaches the threshold. */
  method Judge(paths: seq<string>, added: map<string, seq<nat>>, inScope: string -> bool,
               coverage: map<string, LineMap>, failUnder: real)
    returns (r: Report)
    requires Lists(paths, added)
    ensures r.measured == |Measured(added.Keys, added, inScope, coverage)|
    ensures r.uncovered == |Uncovered(added.Keys, added, inScope, coverage)|
    ensures r.measured == MeasuredTotal(paths, added, inScope, coverage)
    ensures r.uncovered == UncoveredTotal(paths, added, inScope, coverage)
    ensures forall p :: p in r.missing <==> p in added && inScope(p) && p !in coverage
    ensures r.code == 0 || r.code == 1
    ensures r.code == 0 <==> r.missing == [] && Enough(r.measured, r.uncovered, failUnder)
  {
    var measured, uncovered, missing := Tally(paths, added, inScope, coverage);
    WholeTally(paths, added, inScope, coverage);
    var code := if missing != [] then 1
                else if measured == 0 then 0
                else if 100.0 * (measured - uncovered) as real / measured as real < failUnder then 1 else 0;
    r := Report(code, measured, uncovered, missing);
  }

  // ---------- what the default threshold means ----------

  lemma {:induction false} NoneUncoveredIff(lines: seq<nat>, m: LineMap)
    ensures UncoveredIn(lines, m) <= MeasuredIn(lines, m)
    ensures UncoveredIn(lines, m) == 0 <==> forall n :: n in lines && n in m ==> m[n]
  {
    if lines != [] {
      NoneUncoveredIff(lines[..|lines| - 1], m);
      assert lines == lines[..|lines| - 1] + [lines[|lines| - 1]];
    }
  }

  /** Every added line of the file that is measured is covered. */
  ghost predicate Covered(lines: seq<nat>, m: LineMap) {
    forall n :: n in lines && n in m ==> m[n]
  }

  lemma {:induction false} NoneUncoveredTotalIff(paths: seq<string>, added: map<string, seq<nat>>,
                                                 inScope: string -> bool, coverage: map<string, LineMap>)
    requires forall p :: p in paths ==> p in added
    ensures UncoveredTotal(paths, added, inScope, coverage) <= MeasuredTotal(paths, added, inScope, coverage)
    ensures UncoveredTotal(paths, added, inScope, coverage) == 0 <==>
            forall p :: p in paths && Judged(p, inScope, coverage) ==> Covered(added[p], coverage[p])
  {
    if paths != [] {
      var p := paths[|paths| - 1];
      NoneUncoveredTotalIff(paths[..|paths| - 1], added, inScope, coverage);
      assert paths == paths[..|paths| - 1] + [p];
      if Judged(p, inScope, coverage) {
        NoneUncoveredIff(added[p], coverage[p]);
      }
    }
  }

  lemma {:induction false} EnoughAtHundred(measured: nat, uncovered: nat)
    requires uncovered <= measured
    ensures Enough(measured, uncovered, 100.0) <==> uncovered == 0
  {
    if measured > 0 {
      var m, u := measured as real, uncovered as real;
      assert (measured - uncovered) as real == m - u;
    }
  }

  /** What the gate asks of the added lines at the default threshold of 100. */
  ghost predicate AllNewLinesCovered(added: map<string, seq<nat>>, inScope: string -> bool,
                                     coverage: map<string, LineMap>) {
    forall p :: p in added && inScope(p) ==> p in coverage && Covered(added[p], coverage[p])
  }

  /** The gate from diff text to exit code, at the default threshold. */
  method JudgeDiff(d: Diff, norm: Norm, paths: seq<string>, inScope: string -> bool, coverage: map<string, LineMap>)
    returns (r: Report)
    requires Printable(d) && !StrayForeignFile(d, norm)
    requires HunksInPlace(d.files, norm) && NoStrayNumbers(d.files, norm)
    requires Lists(paths, Expected(d, norm))
    ensures r.code == 0 <==> AllNewLinesCovered(Expected(d, norm), inScope, coverage)
  {
    var added := ParseUnifiedDiff(Print(d), norm);
    ReadsExactly(d, norm);
    r := Judge(paths, added, inScope, coverage, 100.0);
    HundredIff(paths, added, inScope, coverage, r);
  }

  lemma {:induction false} HundredIff(paths: seq<string>, added: map<string, seq<nat>>, inScope: string -> bool,
                                      coverage: map<string, LineMap>, r: Report)
    requires Lists(paths, added)
    requires r.measured == MeasuredTotal(paths, added, inScope, coverage)
    requires r.uncovered == UncoveredTotal(paths, added, inScope, coverage)
    requires forall p :: p in r.missing <==> p in added && inScope(p) && p !in coverage
    ensures r.missing == [] && Enough(r.measured, r.uncovered, 100.0) <==> AllNewLinesCovered(added, inScope, coverage)
  {
    NoneUncoveredTotalIff(paths, added, inScope, coverage);
    EnoughAtHundred(r.measured, r.uncovered);
    if r.missing != [] {
      assert r.missing[0] in r.missing;
    }
  }
}
