/** The reader on whole diffs: what it credits to each path, and exactly when that is right.
 */
module DiffReading {
  import opened DiffRoundTrip
  import opened Options
  import opened Text
  import opened UnifiedDiff

  // ---------- reading the whole diff ----------

  /** A file's hunks as the reader sees them. */
  function FilePieces(f: FileDiff): seq<string> {
    AllPieces(HunkLines(f.hunks))
  }

  /** What the reader credits to path q over all files. */
  function Credits(files: seq<FileDiff>, q: string, norm: Norm): seq<nat> {
    if files == [] then []
    else Credited(FilePieces(files[0]), PathOf(files[0].newName, norm), q, norm) + Credits(files[1..], q, norm)
  }

  /** What path q has: the numbers of the added lines of its files. */
  function Owed(files: seq<FileDiff>, q: string, norm: Norm): seq<nat> {
    if files == [] then []
    else OwnNumbers(files[0], q, norm) + Owed(files[1..], q, norm)
  }

  function OwnNumbers(f: FileDiff, q: string, norm: Norm): seq<nat> {
    if PathOf(f.newName, norm) == Some(q) then HunkNumbers(f.hunks) else []
  }

  /** The paths of the diff. */
  function Paths(files: seq<FileDiff>, norm: Norm): set<string> {
    if files == [] then {} else OptionSet(PathOf(files[0].newName, norm)) + Paths(files[1..], norm)
  }

  /** The paths that lines inside hunks name. */
  function StrayPaths(files: seq<FileDiff>, norm: Norm): set<string> {
    if files == [] then {} else Named(FilePieces(files[0]), norm) + StrayPaths(files[1..], norm)
  }

  predicate Printable(d: Diff) {
    AllPlain(d.trailer) && forall i :: 0 <= i < |d.files| ==> WellPrinted(d.files[i])
  }

  /** No line inside a hunk, as split by the reader, looks like a file header. */
  predicate NoStrayFileLine(files: seq<FileDiff>) {
    forall i :: 0 <= i < |files| ==> NoFileLine(FileContent(files[i].hunks))
  }

  /** The lines inside a file's hunks that look like file headers name that file or a deleted one. */
  ghost predicate OwnOrDeleted(files: seq<FileDiff>, norm: Norm) {
    forall i :: 0 <= i < |files| ==> Strays(FileContent(files[i].hunks), {PathOf(files[i].newName, norm), None}, norm)
  }

  predicate FileInPlace(f: FileDiff, norm: Norm) {
    InPlace(FilePieces(f), PathOf(f.newName, norm), PathOf(f.newName, norm), norm)
  }

  /** No hunk that adds lines comes behind a line that reads as the header of another or a deleted
      file, unless its own file's header comes in between. */
  predicate HunksInPlace(files: seq<FileDiff>, norm: Norm) {
    forall i :: 0 <= i < |files| ==> FileInPlace(files[i], norm)
  }

  predicate AllWellPrinted(files: seq<FileDiff>) {
    forall i :: 0 <= i < |files| ==> WellPrinted(files[i])
  }

  lemma {:induction false} NoStrayIsHarmless(files: seq<FileDiff>, norm: Norm)
    requires NoStrayFileLine(files)
    ensures HunksInPlace(files, norm) && StrayPaths(files, norm) == {}
  {
    if files != [] {
      var f, own := files[0], PathOf(files[0].newName, norm);
      StraysInHunks(f.hunks, {}, norm);
      QuietInPlace(FilePieces(f), own, own, norm);
      forall q | q in Named(FilePieces(f), norm)
        ensures false
      {
        NamedAt(FilePieces(f), q, norm);
      }
      assert NoStrayFileLine(files[1..]);
      NoStrayIsHarmless(files[1..], norm);
      forall i | 0 <= i < |files|
        ensures FileInPlace(files[i], norm)
      {
        if i > 0 { assert FileInPlace(files[1..][i - 1], norm); }
      }
    }
  }

  /** One printed file: its own header, then whatever its hunks credit. */
  lemma {:induction false} FeedFile(s: State, f: FileDiff, norm: Norm, q: string)
    requires WellPrinted(f) && Ready(s)
    ensures
      var t := Feed(s, AllPieces(FileLines(f)), norm);
      var path := PathOf(f.newName, norm);
      && Ready(t)
      && Gains(Lines(s), Lines(t), q, Credited(FilePieces(f), path, q, norm),
               OptionSet(path) + Named(FilePieces(f), norm))
  {
    var path, pieces := PathOf(f.newName, norm), FilePieces(f);
    var entered := Enter(Flush(s), path);
    FeedFilePieces(s, f, norm);
    GainsNothing(Lines(s), q);
    if path.Some? { ExtendGains(Lines(s), path.value, [], q); }
    assert Gains(Lines(s), Lines(entered), q, [], OptionSet(path));
    FeedCredits(entered, pieces, norm, q);
    var c := Credited(pieces, path, q, norm);
    GainsTwice(Lines(s), Lines(entered), Lines(Feed(entered, pieces, norm)), q, [], c, OptionSet(path),
               Named(pieces, norm));
    assert [] + c == c;
  }

  lemma {:induction false} FeedFilePieces(s: State, f: FileDiff, norm: Norm)
    requires WellPrinted(f) && Ready(s)
    ensures Feed(s, AllPieces(FileLines(f)), norm)
            == Feed(Enter(Flush(s), PathOf(f.newName, norm)), FilePieces(f), norm)
  {
    var head := f.preamble + ["--- " + f.oldName, "+++ " + f.newName];
    FeedFileHeader(s, f, norm);
    AllPiecesAppend(head, HunkLines(f.hunks));
    FeedAppend(s, head, FilePieces(f), norm);
  }

  lemma {:induction false} FeedFiles(s: State, files: seq<FileDiff>, norm: Norm, q: string)
    requires Ready(s) && AllWellPrinted(files)
    ensures Gains(Lines(s), Lines(Feed(s, AllPieces(DiffLines(files)), norm)), q, Credits(files, q, norm),
                  AllNames(files, norm))
    decreases |files|
  {
    if files == [] {
      GainsNothing(Lines(s), q);
    } else {
      var f, rest := files[0], files[1..];
      var t := Feed(s, AllPieces(FileLines(f)), norm);
      FeedFile(s, f, norm, q);
      FeedFiles(t, rest, norm, q);
      AllPiecesAppend(FileLines(f), DiffLines(rest));
      FeedAppend(s, AllPieces(FileLines(f)), AllPieces(DiffLines(rest)), norm);
      GainsTwice(Lines(s), Lines(t), Lines(Feed(t, AllPieces(DiffLines(rest)), norm)), q,
                 Credited(FilePieces(f), PathOf(f.newName, norm), q, norm), Credits(rest, q, norm),
                 OptionSet(PathOf(f.newName, norm)) + Named(FilePieces(f), norm), AllNames(rest, norm));
    }
  }

  /** The paths of the diff and those that lines inside hunks name, file by file. */
  function AllNames(files: seq<FileDiff>, norm: Norm): set<string> {
    if files == [] then {}
    else OptionSet(PathOf(files[0].newName, norm)) + Named(FilePieces(files[0]), norm) + AllNames(files[1..], norm)
  }

  lemma {:induction false} AllNamesIs(files: seq<FileDiff>, norm: Norm)
    ensures AllNames(files, norm) == Paths(files, norm) + StrayPaths(files, norm)
  {
    if files != [] {
      AllNamesIs(files[1..], norm);
    }
  }

  /** The reader's result on any printed diff: the paths of the diff and those that lines inside
      hunks name, each with the numbers credited to it. */
  lemma {:induction false} ParsePrinted(d: Diff, norm: Norm)
    requires Printable(d)
    ensures Parse(Print(d), norm).Keys == Paths(d.files, norm) + StrayPaths(d.files, norm)
    ensures forall q :: ListOf(Parse(Print(d), norm), q) == Credits(d.files, q, norm)
  {
    FeedPrinted(d, norm);
    AllNamesIs(d.files, norm);
    forall q
      ensures Gains(map[], Parse(Print(d), norm), q, Credits(d.files, q, norm), AllNames(d.files, norm))
    {
      FeedFiles(START, d.files, norm, q);
    }
    assert Gains(map[], Parse(Print(d), norm), "", Credits(d.files, "", norm), AllNames(d.files, norm));
    forall q
      ensures ListOf(Parse(Print(d), norm), q) == Credits(d.files, q, norm)
    {
      assert Gains(map[], Parse(Print(d), norm), q, Credits(d.files, q, norm), AllNames(d.files, norm));
    }
  }

  lemma {:induction false} FeedPrinted(d: Diff, norm: Norm)
    requires Printable(d)
    ensures Parse(Print(d), norm) == Lines(Feed(START, AllPieces(DiffLines(d.files)), norm))
  {
    SplitPrinted(DiffLines(d.files) + d.trailer);
    AllPiecesAppend(DiffLines(d.files), d.trailer);
    FeedAppend(START, AllPieces(DiffLines(d.files)), AllPieces(d.trailer), norm);
    FeedPlain(Feed(START, AllPieces(DiffLines(d.files)), norm), d.trailer, norm);
  }

  lemma {:induction false} GatherGains(added: map<string, seq<nat>>, files: seq<FileDiff>, norm: Norm, q: string)
    ensures Gains(added, Gather(added, files, TrueNumbers(files), norm), q, Owed(files, q, norm), Paths(files, norm))
    decreases |files|
  {
    if files == [] {
      GainsNothing(added, q);
    } else {
      var path, own, rest := PathOf(files[0].newName, norm), HunkNumbers(files[0].hunks), files[1..];
      assert TrueNumbers(files)[1..] == TrueNumbers(rest);
      var next := if path.None? then added else Extend(added, path.value, own);
      GainsNothing(added, q);
      if path.Some? { ExtendGains(added, path.value, own, q); }
      GatherGains(next, rest, norm, q);
      GainsTwice(added, next, Gather(next, rest, TrueNumbers(rest), norm), q, OwnNumbers(files[0], q, norm),
                 Owed(rest, q, norm), OptionSet(path), Paths(rest, norm));
    }
  }

  /** What the reader should find. */
  lemma {:induction false} ExpectedLists(d: Diff, norm: Norm)
    ensures Expected(d, norm).Keys == Paths(d.files, norm)
    ensures forall q :: ListOf(Expected(d, norm), q) == Owed(d.files, q, norm)
  {
    forall q
      ensures ListOf(Expected(d, norm), q) == Owed(d.files, q, norm)
    {
      GatherGains(map[], d.files, norm, q);
    }
    GatherGains(map[], d.files, norm, "");
  }

  /** The paths of a diff, spelled out: the stripped and normalised new-side names, "/dev/null" left out. */
  lemma {:induction false} PathsMeaning(files: seq<FileDiff>, norm: Norm, q: string)
    ensures q in Paths(files, norm) <==>
              exists i :: 0 <= i < |files| && Strip(files[i].newName) != "/dev/null"
                          && norm(Strip(files[i].newName)) == q
  {
    if files != [] {
      var rest := files[1..];
      PathsMeaning(rest, norm, q);
      if i :| 0 <= i < |rest| && Strip(rest[i].newName) != "/dev/null" && norm(Strip(rest[i].newName)) == q {
        assert files[i + 1] == rest[i];
      }
      if i :| 0 < i < |files| && Strip(files[i].newName) != "/dev/null" && norm(Strip(files[i].newName)) == q {
        assert rest[i - 1] == files[i];
      }
    }
  }

  /** The printed deletion of files adds no path and no number, unless a line inside it reads as the
      header of another file. */
  lemma {:induction false} DeletionAddsNothing(d: Diff, norm: Norm)
    requires Printable(d) && StrayPaths(d.files, norm) == {}
    requires forall i :: 0 <= i < |d.files| ==> Strip(d.files[i].newName) == "/dev/null"
    ensures Parse(Print(d), norm) == map[] == Expected(d, norm)
  {
    ParsePrinted(d, norm);
    ExpectedLists(d, norm);
    forall q
      ensures q !in Paths(d.files, norm)
    {
      PathsMeaning(d.files, norm, q);
    }
  }

  /** In every file that is not deleted, no line inside a hunk reads as a hunk header that adds lines. */
  ghost predicate NoStrayNumbers(files: seq<FileDiff>, norm: Norm) {
    forall i :: 0 <= i < |files| && PathOf(files[i].newName, norm).Some? ==> NoNumbers(FileContent(files[i].hunks))
  }

  /** Some line inside a hunk reads as a header of a file that the diff does not have. */
  ghost predicate StrayForeignFile(d: Diff, norm: Norm) {
    exists i, j :: 0 <= i < |d.files| && 0 <= j < |FileContent(d.files[i].hunks)|
                   && NamesForeignFile(d, FileContent(d.files[i].hunks)[j], norm)
  }

  ghost predicate NamesForeignFile(d: Diff, piece: string, norm: Norm) {
    IsFileLine(piece) && PathOf(piece[4..], norm).Some? && PathOf(piece[4..], norm).value !in Expected(d, norm)
  }

  lemma {:induction false} FoundInFile(f: FileDiff)
    requires WellPrinted(f)
    ensures |Found(FilePieces(f))| >= |HunkNumbers(f.hunks)|
    ensures NoNumbers(FileContent(f.hunks)) ==> Found(FilePieces(f)) == HunkNumbers(f.hunks)
    ensures !NoNumbers(FileContent(f.hunks)) ==> |Found(FilePieces(f))| > |HunkNumbers(f.hunks)|
  {
    FoundInHunks(f.hunks);
    FoundNothingIff(FileContent(f.hunks));
  }

  /** With every hunk in place and no stray numbers each path is credited with what it has. */
  lemma {:induction false} CreditsOwed(files: seq<FileDiff>, q: string, norm: Norm)
    requires AllWellPrinted(files) && HunksInPlace(files, norm) && NoStrayNumbers(files, norm)
    ensures Credits(files, q, norm) == Owed(files, q, norm)
  {
    if files != [] {
      var f := files[0];
      assert FileInPlace(f, norm);
      FoundInFile(f);
      if PathOf(f.newName, norm) == Some(q) {
        OwnCredit(FilePieces(f), Some(q), q, norm);
      } else {
        ForeignCredit(FilePieces(f), PathOf(f.newName, norm), PathOf(f.newName, norm), q, norm);
      }
      RestInPlace(files, norm);
      CreditsOwed(files[1..], q, norm);
    }
  }

  lemma {:induction false} RestInPlace(files: seq<FileDiff>, norm: Norm)
    requires files != []
    ensures HunksInPlace(files, norm) ==> HunksInPlace(files[1..], norm)
    ensures NoStrayNumbers(files, norm) ==> NoStrayNumbers(files[1..], norm)
    ensures OwnOrDeleted(files, norm) ==> OwnOrDeleted(files[1..], norm)
  {
    assert forall i :: 0 <= i < |files| - 1 ==> files[1..][i] == files[i + 1];
  }

  lemma {:induction false} SameLists(m: map<string, seq<nat>>, n: map<string, seq<nat>>)
    requires m.Keys == n.Keys && forall q :: ListOf(m, q) == ListOf(n, q)
    ensures m == n
  {
    forall q | q in m
      ensures q in n && m[q] == n[q]
    {
      assert ListOf(m, q) == ListOf(n, q) && q in m.Keys;
    }
  }

  /** No line inside a hunk names a path that the diff does not have. */
  lemma {:induction false} NoForeignPaths(d: Diff, norm: Norm)
    ensures !StrayForeignFile(d, norm) ==> StrayPaths(d.files, norm) <= Paths(d.files, norm)
  {
    ExpectedLists(d, norm);
    if !StrayForeignFile(d, norm) {
      forall q | q in StrayPaths(d.files, norm)
        ensures q in Paths(d.files, norm)
      {
        var i := StrayPathAt(d.files, q, norm);
        NamedAt(FileContent(d.files[i].hunks), q, norm);
        var j :| 0 <= j < |FileContent(d.files[i].hunks)| && IsFileLine(FileContent(d.files[i].hunks)[j])
                 && PathOf(FileContent(d.files[i].hunks)[j][4..], norm) == Some(q);
        assert !NamesForeignFile(d, FileContent(d.files[i].hunks)[j], norm);
      }
    }
  }

  /** The hunk headers name no file. */
  lemma {:induction false} NamedInHunks(hunks: seq<Hunk>, norm: Norm)
    ensures Named(AllPieces(HunkLines(hunks)), norm) == Named(FileContent(hunks), norm)
  {
    if hunks != [] {
      var h, rest := hunks[0], hunks[1..];
      NamedInHunks(rest, norm);
      HunkPieces(h);
      MatchPrinted(h, Pieces(h.section)[0]);
      NamedAppend([HunkHead(h) + Pieces(h.section)[0]], Content(h), norm);
      HunkLinesSplit(hunks);
      NamedAppend(HunkPiecesOf(h), AllPieces(HunkLines(rest)), norm);
      NamedAppend(Content(h), FileContent(rest), norm);
      NamedNothing(HunkHead(h) + Pieces(h.section)[0], norm);
    }
  }

  lemma {:induction false} NamedNothing(piece: string, norm: Norm)
    requires !IsFileLine(piece)
    ensures Named([piece], norm) == {}
  {
    assert [piece][1..] == [];
  }

  lemma {:induction false} StrayPathAt(files: seq<FileDiff>, q: string, norm: Norm) returns (i: nat)
    requires q in StrayPaths(files, norm)
    ensures i < |files| && q in Named(FileContent(files[i].hunks), norm)
  {
    if q in Named(FilePieces(files[0]), norm) {
      i := 0;
      NamedInHunks(files[0].hunks, norm);
    } else {
      i := StrayPathAt(files[1..], q, norm);
      i := i + 1;
    }
  }

  /** The reader returns for each new-side path exactly the numbers of its added lines when no stray
      file header names a path outside the diff, no hunk is out of place, and nothing else inside a
      hunk passes for a hunk header. */
  lemma {:induction false} ReadsExactly(d: Diff, norm: Norm)
    requires Printable(d) && !StrayForeignFile(d, norm)
    requires HunksInPlace(d.files, norm) && NoStrayNumbers(d.files, norm)
    ensures Parse(Print(d), norm) == Expected(d, norm)
  {
    ParsePrinted(d, norm);
    ExpectedLists(d, norm);
    NoForeignPaths(d, norm);
    forall q
      ensures ListOf(Parse(Print(d), norm), q) == ListOf(Expected(d, norm), q)
    {
      CreditsOwed(d.files, q, norm);
    }
    SameLists(Parse(Print(d), norm), Expected(d, norm));
  }

  // ---------- what goes wrong otherwise ----------

  /** A path credited with another number of lines than it has makes the result wrong. */
  lemma {:induction false} OtherLength(d: Diff, norm: Norm, q: string)
    requires Printable(d) && |Credits(d.files, q, norm)| != |Owed(d.files, q, norm)|
    ensures Parse(Print(d), norm) != Expected(d, norm)
  {
    ParsePrinted(d, norm);
    ExpectedLists(d, norm);
    assert ListOf(Parse(Print(d), norm), q) != ListOf(Expected(d, norm), q);
  }

  /** File k, of path q, is credited with stray numbers. */
  predicate TakesStray(files: seq<FileDiff>, k: nat, q: string, norm: Norm) {
    k < |files| && PathOf(files[k].newName, norm) == Some(q) && !NoNumbers(FileContent(files[k].hunks))
  }

  lemma {:induction false} FileLonger(f: FileDiff, q: string, norm: Norm)
    requires WellPrinted(f) && FileInPlace(f, norm)
    ensures
      var own, credit := OwnNumbers(f, q, norm), Credited(FilePieces(f), PathOf(f.newName, norm), q, norm);
      && |own| <= |credit|
      && (PathOf(f.newName, norm) == Some(q) && !NoNumbers(FileContent(f.hunks)) ==> |own| < |credit|)
  {
    FoundInFile(f);
    OwnCredit(FilePieces(f), PathOf(f.newName, norm), q, norm);
  }

  lemma {:induction false} CreditsLonger(files: seq<FileDiff>, k: nat, q: string, norm: Norm)
    requires AllWellPrinted(files) && HunksInPlace(files, norm)
    ensures |Owed(files, q, norm)| <= |Credits(files, q, norm)|
    ensures TakesStray(files, k, q, norm) ==> |Owed(files, q, norm)| < |Credits(files, q, norm)|
  {
    if files != [] {
      assert FileInPlace(files[0], norm);
      FileLonger(files[0], q, norm);
      RestInPlace(files, norm);
      CreditsLonger(files[1..], if k == 0 then 0 else k - 1, q, norm);
    }
  }

  /** A line of a kept file that reads as a hunk header adds numbers that are not there. */
  lemma {:induction false} StrayNumbersAdd(d: Diff, norm: Norm)
    requires Printable(d) && HunksInPlace(d.files, norm) && !NoStrayNumbers(d.files, norm)
    ensures Parse(Print(d), norm) != Expected(d, norm)
  {
    var k :| 0 <= k < |d.files| && PathOf(d.files[k].newName, norm).Some? && !NoNumbers(FileContent(d.files[k].hunks));
    var q := PathOf(d.files[k].newName, norm).value;
    CreditsLonger(d.files, k, q, norm);
    OtherLength(d, norm, q);
  }

  /** File k, of path q, misses numbers. */
  predicate Misses(files: seq<FileDiff>, k: nat, q: string, norm: Norm) {
    k < |files| && PathOf(files[k].newName, norm) == Some(q) && !FileInPlace(files[k], norm)
  }

  lemma {:induction false} FileShorter(f: FileDiff, q: string, norm: Norm)
    requires WellPrinted(f) && Strays(FileContent(f.hunks), {PathOf(f.newName, norm), None}, norm)
    requires PathOf(f.newName, norm) == Some(q) ==> NoNumbers(FileContent(f.hunks))
    ensures
      var own, credit := OwnNumbers(f, q, norm), Credited(FilePieces(f), PathOf(f.newName, norm), q, norm);
      && |credit| <= |own|
      && (PathOf(f.newName, norm) == Some(q) && !FileInPlace(f, norm) ==> |credit| < |own|)
  {
    var own := PathOf(f.newName, norm);
    if own == Some(q) {
      FoundInFile(f);
      OwnCredit(FilePieces(f), own, q, norm);
    } else {
      StraysInHunks(f.hunks, {own, None}, norm);
      UnnamedCredit(FilePieces(f), own, {own, None}, q, norm);
    }
  }

  lemma {:induction false} CreditsShorter(files: seq<FileDiff>, k: nat, q: string, norm: Norm)
    requires AllWellPrinted(files) && OwnOrDeleted(files, norm) && NoStrayNumbers(files, norm)
    ensures |Credits(files, q, norm)| <= |Owed(files, q, norm)|
    ensures Misses(files, k, q, norm) ==> |Credits(files, q, norm)| < |Owed(files, q, norm)|
  {
    if files != [] {
      FileShorter(files[0], q, norm);
      RestInPlace(files, norm);
      CreditsShorter(files[1..], if k == 0 then 0 else k - 1, q, norm);
    }
  }

  /** A line that reads as a deleted file's header makes the reader miss the hunks behind it. */
  lemma {:induction false} SkippedHunksMiss(d: Diff, norm: Norm)
    requires Printable(d) && OwnOrDeleted(d.files, norm) && NoStrayNumbers(d.files, norm)
    requires !HunksInPlace(d.files, norm)
    ensures Parse(Print(d), norm) != Expected(d, norm)
  {
    var k :| 0 <= k < |d.files| && !FileInPlace(d.files[k], norm);
    var own := PathOf(d.files[k].newName, norm);
    if own.None? {
      StraysInHunks(d.files[k].hunks, {own, None}, norm);
      DeletedInPlace(FilePieces(d.files[k]), norm);
    } else {
      CreditsShorter(d.files, k, own.value, norm);
      OtherLength(d, norm, own.value);
    }
  }

  lemma {:induction false} DeletedInPlace(pieces: seq<string>, norm: Norm)
    requires Strays(pieces, {None}, norm)
    ensures InPlace(pieces, None, None, norm)
  {
    if pieces != [] {
      assert forall i :: 0 < i < |pieces| ==> pieces[i] == pieces[1..][i - 1];
      DeletedInPlace(pieces[1..], norm);
    }
  }

  lemma {:induction false} PiecesMember(lines: seq<string>, i: nat, p: string)
    requires i < |lines| && p in Pieces(lines[i])
    ensures p in AllPieces(lines)
  {
    if i > 0 {
      PiecesMember(lines[1..], i - 1, p);
    }
  }

  lemma {:induction false} ContentMember(hunks: seq<Hunk>, p: string)
    requires p in FileContent(hunks)
    ensures p in AllPieces(HunkLines(hunks))
  {
    var h, rest := hunks[0], hunks[1..];
    var top := [HunkHead(h) + h.section] + EditLines(h.edits);
    AllPiecesAppend(top, HunkLines(rest));
    HunkPieces(h);
    if p !in Content(h) {
      ContentMember(rest, p);
    }
  }

  lemma {:induction false} FileMember(files: seq<FileDiff>, i: nat, p: string)
    requires i < |files| && p in FileContent(files[i].hunks)
    ensures p in AllPieces(DiffLines(files))
  {
    AllPiecesAppend(FileLines(files[0]), DiffLines(files[1..]));
    if i == 0 {
      ContentMember(files[0].hunks, p);
      var head := files[0].preamble + ["--- " + files[0].oldName, "+++ " + files[0].newName];
      AllPiecesAppend(head, HunkLines(files[0].hunks));
    } else {
      FileMember(files[1..], i - 1, p);
    }
  }

  /** Such a line makes the reader report a file that the diff does not have. */
  lemma {:induction false} StrayFileAddsKey(d: Diff, norm: Norm)
    requires StrayForeignFile(d, norm)
    ensures Parse(Print(d), norm) != Expected(d, norm)
  {
    var i, j :| 0 <= i < |d.files| && 0 <= j < |FileContent(d.files[i].hunks)|
                && NamesForeignFile(d, FileContent(d.files[i].hunks)[j], norm);
    var p := FileContent(d.files[i].hunks)[j];
    FileMember(d.files, i, p);
    SplitPrinted(DiffLines(d.files) + d.trailer);
    AllPiecesAppend(DiffLines(d.files), d.trailer);
    var lines := SplitLines(Print(d));
    assert p in lines;
    var k :| 0 <= k < |lines| && lines[k] == p;
    NamedAt(lines, PathOf(p[4..], norm).value, norm);
    FeedCredits(START, lines, norm, "");
  }

  /** Exactly when the reader is right, whatever lines the text is made of, for diffs in which some
      stray file header names a path outside the diff, or no hunk is out of place, or all stray
      headers name their own or a deleted file and none carries numbers. */
  lemma {:induction false} ReadsExactlyIff(d: Diff, norm: Norm)
    requires Printable(d)
    requires || StrayForeignFile(d, norm) || HunksInPlace(d.files, norm)
             || (OwnOrDeleted(d.files, norm) && NoStrayNumbers(d.files, norm))
    ensures Parse(Print(d), norm) == Expected(d, norm)
            <==> !StrayForeignFile(d, norm) && HunksInPlace(d.files, norm) && NoStrayNumbers(d.files, norm)
  {
    if StrayForeignFile(d, norm) {
      StrayFileAddsKey(d, norm);
    } else if !HunksInPlace(d.files, norm) {
      SkippedHunksMiss(d, norm);
    } else if NoStrayNumbers(d.files, norm) {
      ReadsExactly(d, norm);
    } else {
      StrayNumbersAdd(d, norm);
    }
  }

  // ---------- diffs of single-line text, as git orders them ----------

  predicate Increasing(numbers: seq<nat>) {
    forall i, j :: 0 <= i < j < |numbers| ==> numbers[i] < numbers[j]
  }

  /** Single-line text; one file per new-side path, its hunks in ascending order; deleted files add
      nothing. */
  ghost predicate GitOrdered(files: seq<FileDiff>, norm: Norm) {
    && (forall i :: 0 <= i < |files| ==> GitFile(files[i], norm))
    && (forall i, j :: 0 <= i < j < |files| && PathOf(files[i].newName, norm).Some? ==>
          PathOf(files[i].newName, norm) != PathOf(files[j].newName, norm))
  }

  predicate GitFile(f: FileDiff, norm: Norm) {
    && SingleLines(f.hunks) && Increasing(HunkNumbers(f.hunks))
    && (PathOf(f.newName, norm).None? ==> HunkNumbers(f.hunks) == [])
  }

  lemma {:induction false} CreditsAppend(a: seq<FileDiff>, b: seq<FileDiff>, q: string, norm: Norm)
    ensures Credits(a + b, q, norm) == Credits(a, q, norm) + Credits(b, q, norm)
  {
    if a == [] {
      assert a + b == b;
    } else {
      assert (a + b)[0] == a[0] && (a + b)[1..] == a[1..] + b;
      CreditsAppend(a[1..], b, q, norm);
      Regroup(Credited(FilePieces(a[0]), PathOf(a[0].newName, norm), q, norm), Credits(a[1..], q, norm),
              Credits(b, q, norm));
    }
  }

  lemma {:induction false} OwedAppend(a: seq<FileDiff>, b: seq<FileDiff>, q: string, norm: Norm)
    ensures Owed(a + b, q, norm) == Owed(a, q, norm) + Owed(b, q, norm)
  {
    if a == [] {
      assert a + b == b;
    } else {
      assert (a + b)[0] == a[0] && (a + b)[1..] == a[1..] + b;
      OwedAppend(a[1..], b, q, norm);
      Regroup(OwnNumbers(a[0], q, norm), Owed(a[1..], q, norm), Owed(b, q, norm));
    }
  }

  /** No file of the list has the path. */
  predicate Absent(files: seq<FileDiff>, q: string, norm: Norm) {
    forall i :: 0 <= i < |files| ==> PathOf(files[i].newName, norm) != Some(q)
  }

  lemma {:induction false} AbsentOwed(files: seq<FileDiff>, q: string, norm: Norm)
    requires Absent(files, q, norm)
    ensures Owed(files, q, norm) == []
    ensures HunksInPlace(files, norm) ==> Credits(files, q, norm) == []
  {
    if files != [] {
      var f, own := files[0], PathOf(files[0].newName, norm);
      assert Absent(files[1..], q, norm);
      RestInPlace(files, norm);
      AbsentOwed(files[1..], q, norm);
      if HunksInPlace(files, norm) {
        assert FileInPlace(f, norm);
        ForeignCredit(FilePieces(f), own, own, q, norm);
      }
    }
  }

  /** The last file with a hunk out of place. */
  lemma {:induction false} LastOutOfPlace(files: seq<FileDiff>, norm: Norm) returns (k: nat)
    requires !HunksInPlace(files, norm)
    ensures k < |files| && !FileInPlace(files[k], norm) && HunksInPlace(files[k + 1..], norm)
  {
    if HunksInPlace(files[1..], norm) {
      k := 0;
      assert forall i :: 0 < i < |files| ==> files[i] == files[1..][i - 1];
    } else {
      k := LastOutOfPlace(files[1..], norm);
      assert files[1..][k + 1..] == files[k + 2..];
      k := k + 1;
    }
  }

  /** What the path of that file has, and what it is credited with. */
  lemma {:induction false} AroundFile(files: seq<FileDiff>, k: nat, q: string, norm: Norm)
    requires k < |files| && PathOf(files[k].newName, norm) == Some(q) && HunksInPlace(files[k + 1..], norm)
    requires Absent(files[..k], q, norm) && Absent(files[k + 1..], q, norm)
    ensures Owed(files, q, norm) == HunkNumbers(files[k].hunks)
    ensures Credits(files, q, norm) == Credits(files[..k], q, norm) + Credited(FilePieces(files[k]), Some(q), q, norm)
  {
    var a, b, c := files[..k], [files[k]], files[k + 1..];
    assert files == a + (b + c);
    assert (b + c)[1..] == c && (b + c)[0] == files[k];
    CreditsAppend(a, b + c, q, norm);
    OwedAppend(a, b + c, q, norm);
    AbsentOwed(a, q, norm);
    AbsentOwed(c, q, norm);
  }

  /** The first number of a file is credited to it: no stray header comes before an added line. */
  lemma {:induction false} FirstCredited(hunks: seq<Hunk>, p: string, norm: Norm)
    requires SingleLines(hunks) && CountsAgree(hunks) && HunkNumbers(hunks) != []
    ensures var c := Credited(AllPieces(HunkLines(hunks)), Some(p), p, norm);
            c != [] && c[0] == HunkNumbers(hunks)[0]
  {
    var h, rest := hunks[0], hunks[1..];
    var top := HunkHead(h) + Pieces(h.section)[0];
    HunkLinesSplit(hunks);
    CreditedAppend(HunkPiecesOf(h), AllPieces(HunkLines(rest)), Some(p), p, norm);
    HeadCredit(h, p, norm);
    if Count(h.edits) == 0 {
      NothingAdded(h, p, norm);
      FirstCredited(rest, p, norm);
    }
  }

  lemma {:induction false} HeadCredit(h: Hunk, p: string, norm: Norm)
    requires CountOf(h.count) == Count(h.edits)
    ensures AddedNumbers(h.edits, h.start) <= Credited(HunkPiecesOf(h), Some(p), p, norm)
    ensures |AddedNumbers(h.edits, h.start)| == Count(h.edits)
  {
    HunkPieces(h);
    var top := HunkHead(h) + Pieces(h.section)[0];
    MatchPrinted(h, Pieces(h.section)[0]);
    NumbersOfEdits(h.edits, h.start);
    assert ([top] + Content(h))[1..] == Content(h) && ([top] + Content(h))[0] == top;
  }

  lemma {:induction false} NothingAdded(h: Hunk, p: string, norm: Norm)
    requires SingleLines([h]) && CountOf(h.count) == Count(h.edits) == 0
    ensures CurrentAfter(HunkPiecesOf(h), Some(p), norm) == Some(p) && Credited(HunkPiecesOf(h), Some(p), p, norm) == []
    ensures AddedNumbers(h.edits, h.start) == []
  {
    NumbersOfEdits(h.edits, h.start);
    NoneAdded(h.edits);
    assert [h][0] == h;
    SingleEditPieces(h.edits);
    PiecesOneLine(h.section);
    HunkPieces(h);
    MatchPrinted(h, Pieces(h.section)[0]);
    var top := HunkHead(h) + Pieces(h.section)[0];
    assert Content(h) == AllPieces(EditLines(h.edits));
    assert ([top] + Content(h))[1..] == Content(h) && ([top] + Content(h))[0] == top;
    StaysInFile(Content(h), Some(p), p, norm);
  }

  lemma {:induction false} NoneAdded(edits: seq<Edit>)
    requires Count(edits) == 0
    ensures forall i :: 0 <= i < |edits| ==> !edits[i].Added?
  {
    if edits != [] {
      NoneAdded(edits[1..]);
      assert forall i :: 0 < i < |edits| ==> edits[i] == edits[1..][i - 1];
    }
  }

  /** A strictly increasing list does not become complete by numbers put in front of a rest that
      starts with its first number. */
  lemma {:induction false} NotRegained(all: seq<nat>, regained: seq<nat>, kept: seq<nat>)
    requires Increasing(all) && all != [] && kept != [] && kept[0] == all[0] && |kept| < |all|
    ensures regained + kept != all
  {
    assert (regained + kept)[|regained|] == kept[0];
  }

  /** In a diff of single-line text as git orders it, a hunk out of place makes the result wrong:
      the last file that loses numbers cannot get them back. */
  lemma {:induction false} OutOfPlaceMisread(d: Diff, norm: Norm)
    requires Printable(d) && GitOrdered(d.files, norm) && !HunksInPlace(d.files, norm)
    ensures Parse(Print(d), norm) != Expected(d, norm)
  {
    var k := LastOutOfPlace(d.files, norm);
    var f, own := d.files[k], PathOf(d.files[k].newName, norm);
    assert GitFile(f, norm);
    SingleNoNumbers(f.hunks);
    FoundInFile(f);
    if HunkNumbers(f.hunks) == [] {
      QuietInPlace(FilePieces(f), own, own, norm);
    } else {
      var q := own.value;
      assert Absent(d.files[..k], q, norm) && Absent(d.files[k + 1..], q, norm);
      AroundFile(d.files, k, q, norm);
      FirstCredited(f.hunks, q, norm);
      OwnCredit(FilePieces(f), own, q, norm);
      NotRegained(HunkNumbers(f.hunks), Credits(d.files[..k], q, norm), Credited(FilePieces(f), own, q, norm));
      ParsePrinted(d, norm);
      ExpectedLists(d, norm);
      assert ListOf(Parse(Print(d), norm), q) != ListOf(Expected(d, norm), q);
    }
  }

  /** The stray headers of the diffs that git prints of single-line text are decided exactly: the
      reader is right if and only if none names a path outside the diff, and no hunk that adds lines
      follows one that names another or a deleted file, unless its own file's header comes in
      between. */
  lemma {:induction false} GitDiffReadsExactlyIff(d: Diff, norm: Norm)
    requires Printable(d) && GitOrdered(d.files, norm)
    ensures Parse(Print(d), norm) == Expected(d, norm)
            <==> !StrayForeignFile(d, norm) && HunksInPlace(d.files, norm)
  {
    GitNoStrayNumbers(d.files, norm);
    if StrayForeignFile(d, norm) {
      StrayFileAddsKey(d, norm);
    } else if HunksInPlace(d.files, norm) {
      ReadsExactly(d, norm);
    } else {
      OutOfPlaceMisread(d, norm);
    }
  }

  lemma {:induction false} GitNoStrayNumbers(files: seq<FileDiff>, norm: Norm)
    requires GitOrdered(files, norm)
    ensures NoStrayNumbers(files, norm)
  {
    forall i | 0 <= i < |files|
      ensures NoNumbers(FileContent(files[i].hunks))
    {
      assert GitFile(files[i], norm);
      SingleNoNumbers(files[i].hunks);
    }
  }

  lemma {:induction false} NoStrayNotForeign(d: Diff, norm: Norm)
    requires NoStrayFileLine(d.files)
    ensures !StrayForeignFile(d, norm)
  {
    forall i, j | 0 <= i < |d.files| && 0 <= j < |FileContent(d.files[i].hunks)|
      ensures !NamesForeignFile(d, FileContent(d.files[i].hunks)[j], norm)
    {
      assert NoFileLine(FileContent(d.files[i].hunks));
    }
  }

  /** For every diff of single-line text in which no added line starts with two plus signs and a
      blank, the reader returns exactly the added lines of each file. */
  lemma {:induction false} SingleLineDiffReadsExactly(d: Diff, norm: Norm)
    requires Printable(d)
    requires forall i :: 0 <= i < |d.files| ==> SingleLines(d.files[i].hunks)
    requires forall i, j :: 0 <= i < |d.files| && 0 <= j < |d.files[i].hunks| ==> NoPlusPlus(d.files[i].hunks[j].edits)
    ensures Parse(Print(d), norm) == Expected(d, norm)
  {
    forall i | 0 <= i < |d.files|
      ensures NoFileLine(FileContent(d.files[i].hunks)) && NoNumbers(FileContent(d.files[i].hunks))
    {
      SingleContent(d.files[i].hunks);
    }
    NoStrayIsHarmless(d.files, norm);
    NoStrayNotForeign(d, norm);
    ReadsExactly(d, norm);
  }

  const AFTER_FEED := "\U{0C}+++ b"

  /** A diff that adds one line holding a form feed, after which its text looks like a file header. */
  function FormFeedDiff(): Diff {
    Diff([FileDiff([], "a", "a", [Hunk(0, Some(0), 1, None, "", [Added("x" + AFTER_FEED)])])], [])
  }

  lemma {:induction false} FormFeedPieces()
    ensures Pieces("+" + ("x" + AFTER_FEED)) == ["+x", "+++ b"]
  {
    var rest := AFTER_FEED + "\n";
    assert "+" + ("x" + AFTER_FEED) + "\n" == "+x" + rest;
    CutPrefix("+x", rest);
    assert rest[1..] == "+++ b" + "\n";
    assert Cut(rest) == ("", "+++ b" + "\n");
    assert "+x" + "" == "+x";
    assert SplitLines("+x" + rest) == ["+x"] + SplitLines("+++ b" + "\n");
    PiecesOneLine("+++ b");
  }

  lemma {:induction false} FormFeedContent()
    ensures FileContent(FormFeedDiff().files[0].hunks) == ["+x", "+++ b"]
  {
    var h := FormFeedDiff().files[0].hunks[0];
    var line := "+" + ("x" + AFTER_FEED);
    assert EditLines(h.edits) == [line];
    FormFeedPieces();
    assert AllPieces([line]) == Pieces(line);
    PiecesOneLine("");
    assert Content(h) == Pieces(line);
    assert FormFeedDiff().files[0].hunks == [h];
    assert FileContent([h]) == Content(h) + FileContent([]);
  }

  lemma {:induction false} FormFeedExpected(norm: Norm)
    requires norm("a") == "a"
    ensures "b" !in Expected(FormFeedDiff(), norm)
  {
    var files := FormFeedDiff().files;
    var numbers := TrueNumbers(files);
    assert PathOf("a", norm) == Some("a");
    assert Gather(map[], files, numbers, norm)
           == Gather(Extend(map[], "a", numbers[0]), files[1..], numbers[1..], norm);
  }

  /** That line does not start with plus signs, and still the reader reports a file "b". */
  lemma {:induction false} FormFeedMisread(norm: Norm)
    requires norm("a") == "a" && norm("b") == "b"
    ensures NoPlusPlus(FormFeedDiff().files[0].hunks[0].edits)
    ensures Parse(Print(FormFeedDiff()), norm) != Expected(FormFeedDiff(), norm)
  {
    var d := FormFeedDiff();
    FormFeedContent();
    FormFeedExpected(norm);
    var text := "x" + AFTER_FEED;
    assert text[0] == 'x' && !("++ " <= text);
    var piece := "+++ b";
    assert FileContent(d.files[0].hunks)[1] == piece;
    assert piece[4..] == "b" && PathOf("b", norm) == Some("b");
    assert NamesForeignFile(d, piece, norm);
    StrayFileAddsKey(d, norm);
  }

  // ---------- why line breaks inside source lines leave no such condition ----------

  /** Path `own` has line 5, and the reader credits it to the other path. */
  ghost predicate GivesAway(f: FileDiff, own: string, other: string, norm: Norm) {
    && WellPrinted(f) && PathOf(f.newName, norm) == Some(own) && HunkNumbers(f.hunks) == [5]
    && !FileInPlace(f, norm) && Named(FilePieces(f), norm) == {other}
    && forall q :: Credited(FilePieces(f), Some(own), q, norm) == if q == other then [5] else []
  }

  lemma {:induction false} PairCredits(f: FileDiff, g: FileDiff, q: string, norm: Norm)
    ensures Credits([f, g], q, norm) == Credited(FilePieces(f), PathOf(f.newName, norm), q, norm)
                                        + Credited(FilePieces(g), PathOf(g.newName, norm), q, norm)
    ensures Owed([f, g], q, norm) == OwnNumbers(f, q, norm) + OwnNumbers(g, q, norm)
  {
    assert [f, g][1..] == [g] && [g][1..] == [];
    var c := Credited(FilePieces(g), PathOf(g.newName, norm), q, norm);
    assert Credits([g], q, norm) == c + [] == c;
    assert Owed([g], q, norm) == OwnNumbers(g, q, norm) + [] == OwnNumbers(g, q, norm);
  }

  lemma {:induction false} PairNames(f: FileDiff, g: FileDiff, norm: Norm)
    ensures AllNames([f, g], norm) == OptionSet(PathOf(f.newName, norm)) + Named(FilePieces(f), norm)
                                      + (OptionSet(PathOf(g.newName, norm)) + Named(FilePieces(g), norm))
    ensures Paths([f, g], norm) == OptionSet(PathOf(f.newName, norm)) + OptionSet(PathOf(g.newName, norm))
  {
    assert [f, g][1..] == [g] && [g][1..] == [];
    assert AllNames([g], norm) == OptionSet(PathOf(g.newName, norm)) + Named(FilePieces(g), norm);
    assert Paths([g], norm) == OptionSet(PathOf(g.newName, norm));
  }

  lemma {:induction false} SwapCredits(f: FileDiff, g: FileDiff, a: string, b: string, q: string, norm: Norm)
    requires GivesAway(f, a, b, norm) && GivesAway(g, b, a, norm) && a != b
    ensures Credits([f, g], q, norm) == Owed([f, g], q, norm)
  {
    PairCredits(f, g, q, norm);
  }

  /** Two files that give each other line 5 are read right by coincidence. */
  lemma {:induction false} SwapReadRight(f: FileDiff, g: FileDiff, a: string, b: string, norm: Norm)
    requires GivesAway(f, a, b, norm) && GivesAway(g, b, a, norm) && a != b
    ensures var d := Diff([f, g], []);
            Printable(d) && !HunksInPlace(d.files, norm) && Parse(Print(d), norm) == Expected(d, norm)
  {
    var d := Diff([f, g], []);
    assert d.files[0] == f;
    ParsePrinted(d, norm);
    ExpectedLists(d, norm);
    AllNamesIs(d.files, norm);
    PairNames(f, g, norm);
    forall q
      ensures ListOf(Parse(Print(d), norm), q) == ListOf(Expected(d, norm), q)
    {
      SwapCredits(f, g, a, b, q, norm);
    }
    SameLists(Parse(Print(d), norm), Expected(d, norm));
  }

  /** One piece in front of others. */
  lemma {:induction false} PieceFirst(piece: string, rest: seq<string>, current: Option<string>, own: Option<string>,
                                      q: string, norm: Norm)
    ensures
      var pieces, next := [piece] + rest, Next(piece, current, norm);
      && Credited(pieces, current, q, norm) == CreditOf(piece, current, q) + Credited(rest, next, q, norm)
      && Named(pieces, norm) == NameIn(piece, norm) + Named(rest, norm)
      && (InPlace(pieces, current, own, norm) <==>
            (CarriesNumbers(piece) ==> current == own) && InPlace(rest, next, own, norm))
  {
    assert ([piece] + rest)[1..] == rest;
  }

  /** A piece that is neither kind of header. */
  predicate NoHeader(piece: string) {
    !IsFileLine(piece) && FoundIn(piece) == []
  }

  /** Pieces of a hunk that adds nothing and names another file, and of one that adds line 5. */
  lemma {:induction false} SwappedCredits(h: string, x: string, plus: string, k: string, y: string, own: string,
                                          other: string, q: string, norm: Norm)
    requires NoHeader(h) && NoHeader(x) && NoHeader(y) && !IsFileLine(k) && FoundIn(k) == [5]
    requires IsFileLine(plus) && PathOf(plus[4..], norm) == Some(other) && own != other
    ensures var pieces := [h] + ([x] + ([plus] + ([k] + [y])));
            && Credited(pieces, Some(own), q, norm) == (if q == other then [5] else [])
            && Named(pieces, norm) == {other} && !InPlace(pieces, Some(own), Some(own), norm)
  {
    var last := [k] + [y];
    SkipPiece(h, [x] + ([plus] + last), Some(own), Some(own), q, norm);
    SkipPiece(x, [plus] + last, Some(own), Some(own), q, norm);
    FoundInIff(plus);
    PieceFirst(plus, last, Some(own), Some(own), q, norm);
    LastCredits(k, y, own, other, q, norm);
  }

  lemma {:induction false} FivePieces(h: string, x: string, plus: string, k: string, y: string)
    ensures [h, x, plus, k, y] == [h] + ([x] + ([plus] + ([k] + [y])))
  {
  }

  lemma {:induction false} SkipPiece(piece: string, rest: seq<string>, current: Option<string>, own: Option<string>,
                                     q: string, norm: Norm)
    requires NoHeader(piece)
    ensures
      var pieces := [piece] + rest;
      && Credited(pieces, current, q, norm) == Credited(rest, current, q, norm)
      && Named(pieces, norm) == Named(rest, norm)
      && (InPlace(pieces, current, own, norm) <==> InPlace(rest, current, own, norm))
  {
    FoundInIff(piece);
    PieceFirst(piece, rest, current, own, q, norm);
    assert [] + Credited(rest, current, q, norm) == Credited(rest, current, q, norm);
  }

  lemma {:induction false} LastCredits(k: string, y: string, own: string, other: string, q: string, norm: Norm)
    requires NoHeader(y) && !IsFileLine(k) && FoundIn(k) == [5] && own != other
    ensures Credited([k] + [y], Some(other), q, norm) == (if q == other then [5] else [])
    ensures Named([k] + [y], norm) == {} && !InPlace([k] + [y], Some(other), Some(own), norm)
  {
    assert [y] == [y] + [];
    FoundInIff(k);
    PieceFirst(k, [y], Some(other), Some(own), q, norm);
    PieceFirst(y, [], Some(other), Some(own), q, norm);
  }

  lemma {:induction false} HeadAlone(h: Hunk)
    ensures !IsFileLine(HunkHead(h)) && FoundIn(HunkHead(h)) == Numbers(Span(h.start, CountOf(h.count)))
  {
    MatchPrinted(h, "");
    assert HunkHead(h) + "" == HunkHead(h);
  }

  /** The hunk removes the line `x`, form feed, header of the other file. */
  function Misleading(other: string): Hunk {
    Hunk(1, None, 0, Some(0), "", [Removed("x\U{0C}+++ " + other)])
  }

  /** The hunk adds line 5. */
  const ADDS_FIVE := Hunk(3, Some(0), 5, None, "", [Added("y")])

  function Swapped(own: string, other: string): FileDiff {
    FileDiff([], own, own, [Misleading(other), ADDS_FIVE])
  }

  lemma {:induction false} RemovedPieces(other: string)
    requires OneLine(other)
    ensures Pieces("-" + ("x\U{0C}+++ " + other)) == ["-x", "+++ " + other]
  {
    var rest := "\U{0C}+++ " + other + "\n";
    assert "-" + ("x\U{0C}+++ " + other) + "\n" == "-x" + rest;
    CutPrefix("-x", rest);
    assert rest[1..] == "+++ " + other + "\n";
    assert Cut(rest) == ("", rest[1..]);
    assert "-x" + "" == "-x";
    assert SplitLines("-x" + rest) == ["-x"] + SplitLines("+++ " + other + "\n");
    PiecesOneLine("+++ " + other);
  }

  /** A hunk of one line and no section text. */
  lemma {:induction false} OneLineHunk(h: Hunk)
    requires h.section == "" && |h.edits| == 1
    ensures HunkPiecesOf(h) == [HunkHead(h)] + Pieces(EditLine(h.edits[0]))
  {
    HunkPieces(h);
    PiecesOneLine("");
    assert HunkHead(h) + "" == HunkHead(h);
    OnePiece(EditLine(h.edits[0]));
    assert EditLines(h.edits) == [EditLine(h.edits[0])];
    assert Content(h) == [""][1..] + Pieces(EditLine(h.edits[0])) == Pieces(EditLine(h.edits[0]));
  }

  lemma {:induction false} OnePiece(line: string)
    ensures AllPieces([line]) == Pieces(line)
  {
    assert [line][1..] == [] && Pieces(line) + [] == Pieces(line);
  }

  lemma {:induction false} SwappedRead(own: string, other: string)
    requires OneLine(other)
    ensures FilePieces(Swapped(own, other))
            == [HunkHead(Misleading(other)), "-x", "+++ " + other, HunkHead(ADDS_FIVE), "+y"]
  {
    var hunks := [Misleading(other), ADDS_FIVE];
    HunkLinesSplit(hunks);
    assert hunks[1..] == [ADDS_FIVE] && [ADDS_FIVE][1..] == [];
    HunkLinesSplit([ADDS_FIVE]);
    OneLineHunk(Misleading(other));
    OneLineHunk(ADDS_FIVE);
    RemovedPieces(other);
    PiecesOneLine("+y");
    assert EditLine(ADDS_FIVE.edits[0]) == "+" + "y" == "+y";
  }

  lemma {:induction false} SwappedNumbers(own: string, other: string)
    requires OneLine(own)
    ensures WellPrinted(Swapped(own, other)) && HunkNumbers(Swapped(own, other).hunks) == [5]
  {
    var h := Misleading(other);
    assert h.edits[1..] == [] && ADDS_FIVE.edits[1..] == [];
    assert Count(h.edits) == 0 && Count(ADDS_FIVE.edits) == 1;
    NumbersOfEdits(h.edits, 0);
    NumbersOfEdits(ADDS_FIVE.edits, 5);
    assert Numbers(Span(0, 0)) == [] && Numbers(Span(5, 1)) == [5];
    assert [h, ADDS_FIVE][1..] == [ADDS_FIVE] && [ADDS_FIVE][1..] == [];
    assert HunkNumbers([ADDS_FIVE]) == [5] + [];
  }

  lemma {:induction false} SwappedGivesAway(own: string, other: string, norm: Norm)
    requires OneLine(own) && OneLine(other) && own != other
    requires PathOf(own, norm) == Some(own) && PathOf(other, norm) == Some(other)
    ensures GivesAway(Swapped(own, other), own, other, norm)
  {
    SwappedRead(own, other);
    SwappedNumbers(own, other);
    assert ("+++ " + other)[4..] == other;
    HunksGiveAway(Swapped(own, other), Misleading(other), "+++ " + other, ADDS_FIVE, own, other, norm);
  }

  lemma {:induction false} HunksGiveAway(f: FileDiff, h: Hunk, plus: string, k: Hunk, own: string, other: string,
                                         norm: Norm)
    requires WellPrinted(f) && PathOf(f.newName, norm) == Some(own) && HunkNumbers(f.hunks) == [5]
    requires FilePieces(f) == [HunkHead(h), "-x", plus, HunkHead(k), "+y"]
    requires CountOf(h.count) == 0 && CountOf(k.count) == 1 && k.start == 5
    requires IsFileLine(plus) && PathOf(plus[4..], norm) == Some(other) && own != other
    ensures GivesAway(f, own, other, norm)
  {
    HeadAlone(h);
    HeadAlone(k);
    assert Numbers(Span(h.start, 0)) == [] && Numbers(Span(5, 1)) == [5];
    PiecesGiveAway(f, HunkHead(h), plus, HunkHead(k), own, other, norm);
  }

  lemma {:induction false} PiecesGiveAway(f: FileDiff, h: string, plus: string, k: string, own: string, other: string,
                                          norm: Norm)
    requires WellPrinted(f) && PathOf(f.newName, norm) == Some(own) && HunkNumbers(f.hunks) == [5]
    requires FilePieces(f) == [h, "-x", plus, k, "+y"]
    requires NoHeader(h) && !IsFileLine(k) && FoundIn(k) == [5]
    requires IsFileLine(plus) && PathOf(plus[4..], norm) == Some(other) && own != other
    ensures GivesAway(f, own, other, norm)
  {
    assert NoHeader("-x") && NoHeader("+y");
    FivePieces(h, "-x", plus, k, "+y");
    forall q
      ensures Credited(FilePieces(f), Some(own), q, norm) == if q == other then [5] else []
    {
      SwappedCredits(h, "-x", plus, k, "+y", own, other, q, norm);
    }
    SwappedCredits(h, "-x", plus, k, "+y", own, other, "", norm);
  }

  /** With line breaks inside source lines, hunks in place are not necessary: here two files swap
      their lines 5, and the result is right by coincidence. */
  lemma {:induction false} InPlaceNotNecessary(norm: Norm)
    requires norm("a") == "a" && norm("b") == "b"
    ensures var d := Diff([Swapped("a", "b"), Swapped("b", "a")], []);
            Printable(d) && !HunksInPlace(d.files, norm) && Parse(Print(d), norm) == Expected(d, norm)
  {
    assert PathOf("a", norm) == Some("a") && PathOf("b", norm) == Some("b");
    SwappedGivesAway("a", "b", norm);
    SwappedGivesAway("b", "a", norm);
    SwapReadRight(Swapped("a", "b"), Swapped("b", "a"), "a", "b", norm);
  }
}
