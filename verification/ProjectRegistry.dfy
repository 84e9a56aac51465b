/** The ledger of project folders: registration by path, once per folder and without nesting.

    Resolving a path against the file system is a parameter: `canon` gives the segments of
    the canonical path, `resolve` the path that is stored.  Paths are in POSIX form.
 */
module ProjectRegistry {
  import opened Options

  // ---------- canonical paths ----------

  type Path = seq<string>

  predicate Segment(s: string) {
    s != [] && '/' !in s
  }

  predicate Canonical(p: Path) {
    forall i :: 0 <= i < |p| ==> Segment(p[i])
  }

  function Below(p: Path): string {
    if p == [] then [] else "/" + p[0] + Below(p[1..])
  }

  /** The canonical path as the code compares it. */
  function Show(p: Path): string {
    if p == [] then "/" else Below(p)
  }

  /** The code's test for "strictly inside". */
  predicate Inside(target: Path, root: Path) {
    Show(root) + "/" <= Show(target)
  }

  predicate Overlaps(a: Path, b: Path) {
    a <= b || b <= a
  }

  // ---------- rows ----------

  datatype FileSystem = FileSystem(canon: string -> Path, resolve: string -> string)

  /** Canonical paths are canonical, and storing the resolved path does not change them. */
  ghost predicate Stable(fs: FileSystem) {
    forall p: string :: Canonical(fs.canon(p)) && fs.resolve(p) != "" && fs.canon(fs.resolve(p)) == fs.canon(p)
  }

  datatype Project = Project(id: string, path: string, title: string, createdAt: int, autoExecute: bool,
                             submittedBy: string, sessionId: string)

  /** A call, with what it finds outside: the whitelist and workspace root, the folder it would use
      for a title, whether creating the folder works, and the id and time of a new row. */
  datatype Request = Request(explicitPath: string, entries: seq<string>, workspace: string,
                             defaultFolder: string, folderWorks: bool, row: Project)

  datatype Outcome =
    | Existing(project: Project)
    | Created(project: Project)
    | OutsideScope
    | Overlapping(project: Project)
    | FolderFailed

  /** Newest first, rows of equal time in ledger order. */
  function Insert(p: Project, rows: seq<Project>): seq<Project> {
    if rows == [] || rows[0].createdAt <= p.createdAt then [p] + rows else [rows[0]] + Insert(p, rows[1..])
  }

  function ListRows(rows: seq<Project>): seq<Project> {
    if rows == [] then [] else Insert(rows[0], ListRows(rows[1..]))
  }

  function FirstAt(rows: seq<Project>, want: Path, fs: FileSystem): Option<Project> {
    if rows == [] then None
    else if rows[0].path != "" && fs.canon(rows[0].path) == want then Some(rows[0])
    else FirstAt(rows[1..], want, fs)
  }

  function FirstOverlap(rows: seq<Project>, want: Path, fs: FileSystem): Option<Project> {
    if rows == [] then None
    else if rows[0].path != "" && (Inside(want, fs.canon(rows[0].path)) || Inside(fs.canon(rows[0].path), want))
    then Some(rows[0])
    else FirstOverlap(rows[1..], want, fs)
  }

  /** The scope that allows a new path: the first whitelist entry that holds it, else the workspace. */
  function MatchScope(want: Path, entries: seq<string>, workspace: string, fs: FileSystem): Option<Path> {
    var roots := seq(|entries|, i requires 0 <= i < |entries| => fs.canon(entries[i])) + [fs.canon(workspace)];
    FirstScope(want, roots)
  }

  function FirstScope(want: Path, roots: seq<Path>): Option<Path> {
    if roots == [] then None
    else if Show(want) == Show(roots[0]) || Inside(want, roots[0]) then Some(roots[0])
    else FirstScope(want, roots[1..])
  }

  /** Rows are keyed by id: saving under a known id replaces that row in place. */
  function Save(rows: seq<Project>, p: Project): seq<Project> {
    if rows == [] then [p]
    else if rows[0].id == p.id then [p] + rows[1..]
    else [rows[0]] + Save(rows[1..], p)
  }

  function Delete(rows: seq<Project>, id: string): seq<Project> {
    if rows == [] then [] else if rows[0].id == id then rows[1..] else [rows[0]] + Delete(rows[1..], id)
  }

  function NewRow(r: Request, fs: FileSystem): Project {
    r.row.(path := if r.explicitPath == "" then r.defaultFolder else fs.resolve(r.explicitPath))
  }

  function Register(rows: seq<Project>, r: Request, fs: FileSystem): Outcome {
    var listed := ListRows(rows);
    var want := fs.canon(r.explicitPath);
    if r.explicitPath != "" && FirstAt(listed, want, fs).Some? then Existing(FirstAt(listed, want, fs).value)
    else if r.explicitPath != "" && MatchScope(want, r.entries, r.workspace, fs).None? then OutsideScope
    else if r.explicitPath != "" && FirstOverlap(listed, want, fs).Some? then
      Overlapping(FirstOverlap(listed, want, fs).value)
    else if !r.folderWorks then FolderFailed
    else Created(NewRow(r, fs))
  }

  function After(rows: seq<Project>, o: Outcome): seq<Project> {
    if o.Created? then Save(rows, o.project) else rows
  }

  // ---------- the ledger object ----------

  class Registry {
    var rows: seq<Project>

    constructor (loaded: seq<Project>)
      ensures rows == loaded
    {
      rows := loaded;
    }

    /** All rows, newest first. */
    method List() returns (listed: seq<Project>)
      ensures listed == ListRows(rows)
      ensures NewestFirst(listed) && multiset(listed) == multiset(rows)
      ensures forall time :: AtTime(listed, time) == AtTime(rows, time)
    {
      ListIsSorted(rows);
      listed := [];
      var i := |rows|;
      while i > 0
        invariant 0 <= i <= |rows|
        invariant listed == ListRows(rows[i..])
      {
        i := i - 1;
        assert rows[i..][1..] == rows[i + 1..];
        listed := Insert(rows[i], listed);
      }
    }

    method AssertNoOverlap(want: Path, fs: FileSystem) returns (clash: Option<Project>)
      ensures clash == FirstOverlap(ListRows(rows), want, fs)
    {
      var listed := List();
      var i := 0;
      while i < |listed|
        invariant 0 <= i <= |listed|
        invariant FirstOverlap(listed[i..], want, fs) == FirstOverlap(listed, want, fs)
      {
        assert listed[i..][0] == listed[i] && listed[i..][1..] == listed[i + 1..];
        var p := listed[i];
        if p.path != "" {
          var existing := fs.canon(p.path);
          if Inside(want, existing) || Inside(existing, want) {
            return Some(p);
          }
        }
        i := i + 1;
      }
      clash := None;
    }

    method EnsureRegistered(r: Request, fs: FileSystem) returns (o: Outcome)
      modifies this
      ensures o == Register(old(rows), r, fs)
      ensures rows == After(old(rows), o)
    {
      if r.explicitPath != "" {
        var want := fs.canon(r.explicitPath);
        var listed := List();
        var i := 0;
        while i < |listed|
          invariant 0 <= i <= |listed|
          invariant FirstAt(listed[i..], want, fs) == FirstAt(listed, want, fs)
        {
          assert listed[i..][0] == listed[i] && listed[i..][1..] == listed[i + 1..];
          if listed[i].path != "" && fs.canon(listed[i].path) == want {
            return Existing(listed[i]);
          }
          i := i + 1;
        }
        if MatchScope(want, r.entries, r.workspace, fs).None? {
          return OutsideScope;
        }
        var clash := AssertNoOverlap(want, fs);
        if clash.Some? {
          return Overlapping(clash.value);
        }
      }
      if !r.folderWorks {
        return FolderFailed;
      }
      var project := NewRow(r, fs);
      rows := Save(rows, project);
      o := Created(project);
    }
  }

  // ---------- string prefixes and path prefixes ----------

  /** A segment ends where the next separator stands. */
  lemma {:induction false} SegmentMatch(x: string, left: string, y: string, right: string)
    requires '/' !in x && '/' !in y
    requires left != [] && left[0] == '/' && (right == [] || right[0] == '/')
    ensures x + left <= y + right <==> x == y && left <= right
  {
    if x == [] {
      assert x + left == left;
      if y == [] {
        assert y + right == right;
      } else {
        assert (y + right)[0] == y[0];
      }
    } else if y == [] {
      assert y + right == right && (x + left)[0] == x[0];
    } else {
      assert (x + left)[0] == x[0] && (x + left)[1..] == x[1..] + left;
      assert (y + right)[0] == y[0] && (y + right)[1..] == y[1..] + right;
      SegmentMatch(x[1..], left, y[1..], right);
      PrefixByHead(x + left, y + right);
      if x[0] == y[0] && x[1..] == y[1..] {
        assert x == [x[0]] + x[1..] && y == [y[0]] + y[1..];
      }
    }
  }

  lemma {:induction false} PrefixByHead<T>(s: seq<T>, t: seq<T>)
    requires s != [] && t != []
    ensures s <= t <==> s[0] == t[0] && s[1..] <= t[1..]
  {
    if s[0] == t[0] && s[1..] <= t[1..] {
      assert s == [s[0]] + s[1..] && t == [t[0]] + t[1..];
    }
  }

  /** One segment of the comparison. */
  lemma {:induction false} BelowStep(x: string, left: string, y: string, right: string)
    requires '/' !in x && '/' !in y
    requires left != [] && left[0] == '/' && (right == [] || right[0] == '/')
    ensures "/" + x + left <= "/" + y + right <==> x == y && left <= right
  {
    SegmentMatch(x, left, y, right);
    var s, t := "/" + x + left, "/" + y + right;
    assert s[1..] == x + left && t[1..] == y + right;
    PrefixByHead(s, t);
  }

  lemma {:induction false} ProperByHead(a: Path, b: Path)
    requires a != [] && b != []
    ensures a < b <==> a[0] == b[0] && a[1..] < b[1..]
  {
    PrefixByHead(a, b);
  }

  lemma {:induction false} BelowStart(p: Path)
    ensures Below(p) == [] || Below(p)[0] == '/'
  {
  }

  lemma {:induction false} BelowPrefix(a: Path, b: Path)
    requires Canonical(a) && Canonical(b)
    ensures Below(a) + "/" <= Below(b) <==> a < b
  {
    if a == [] {
      assert Below(a) + "/" == "/";
    } else if b != [] {
      var left, right := Below(a[1..]) + "/", Below(b[1..]);
      BelowPrefix(a[1..], b[1..]);
      BelowStart(a[1..]);
      BelowStart(b[1..]);
      assert Segment(a[0]) && Segment(b[0]);
      BelowStep(a[0], left, b[0], right);
      assert Below(a) + "/" == "/" + a[0] + left;
      ProperByHead(a, b);
    }
  }

  /** Prefix plus separator means strictly inside, except that nothing counts as inside the root. */
  lemma {:induction false} InsideIff(target: Path, root: Path)
    requires Canonical(target) && Canonical(root)
    ensures Inside(target, root) <==> root != [] && root < target
  {
    BelowPrefix(root, target);
    if root == [] {
      assert Show(root) + "/" == "//";
      if target != [] {
        assert Show(target)[1] == target[0][0];
      }
    } else if target == [] {
      assert |Show(root)| >= 2;
    }
  }

  // ---------- facts about lists of rows ----------

  lemma {:induction false} InsertMembers(p: Project, rows: seq<Project>)
    ensures forall q :: q in Insert(p, rows) <==> q == p || q in rows
  {
    if rows != [] && rows[0].createdAt > p.createdAt {
      InsertMembers(p, rows[1..]);
    }
  }

  lemma {:induction false} ListMembers(rows: seq<Project>)
    ensures forall q :: q in ListRows(rows) <==> q in rows
  {
    if rows != [] {
      ListMembers(rows[1..]);
      InsertMembers(rows[0], ListRows(rows[1..]));
    }
  }

  /** The row has a folder with this canonical path. */
  predicate At(q: Project, want: Path, fs: FileSystem) {
    q.path != "" && fs.canon(q.path) == want
  }

  predicate Clashes(q: Project, want: Path, fs: FileSystem) {
    q.path != "" && (Inside(want, fs.canon(q.path)) || Inside(fs.canon(q.path), want))
  }

  lemma {:induction false} FirstAtFacts(rows: seq<Project>, want: Path, fs: FileSystem)
    ensures FirstAt(rows, want, fs).Some? ==>
              FirstAt(rows, want, fs).value in rows && At(FirstAt(rows, want, fs).value, want, fs)
    ensures FirstAt(rows, want, fs).None? ==> forall q :: q in rows ==> !At(q, want, fs)
  {
    if rows != [] { FirstAtFacts(rows[1..], want, fs); }
  }

  lemma {:induction false} FirstOverlapFacts(rows: seq<Project>, want: Path, fs: FileSystem)
    ensures FirstOverlap(rows, want, fs).Some? ==>
              FirstOverlap(rows, want, fs).value in rows && Clashes(FirstOverlap(rows, want, fs).value, want, fs)
    ensures FirstOverlap(rows, want, fs).None? ==> forall q :: q in rows ==> !Clashes(q, want, fs)
  {
    if rows != [] { FirstOverlapFacts(rows[1..], want, fs); }
  }

  // ---------- the order of the list ----------

  predicate NewestFirst(rows: seq<Project>) {
    forall i, j :: 0 <= i < j < |rows| ==> rows[i].createdAt >= rows[j].createdAt
  }

  /** The rows of one time, in their order. */
  function AtTime(rows: seq<Project>, time: int): seq<Project> {
    if rows == [] then []
    else (if rows[0].createdAt == time then [rows[0]] else []) + AtTime(rows[1..], time)
  }

  lemma {:induction false} InsertSorted(p: Project, rows: seq<Project>)
    requires NewestFirst(rows)
    ensures NewestFirst(Insert(p, rows)) && multiset(Insert(p, rows)) == multiset(rows) + multiset{p}
  {
    if rows == [] || rows[0].createdAt <= p.createdAt {
      assert Insert(p, rows) == [p] + rows;
    } else {
      InsertSorted(p, rows[1..]);
      InsertMembers(p, rows[1..]);
      var rest := Insert(p, rows[1..]);
      forall j | 0 <= j < |rest|
        ensures rows[0].createdAt >= rest[j].createdAt
      {
        assert rest[j] in rest;
      }
      assert rows == [rows[0]] + rows[1..];
    }
  }

  lemma {:induction false} InsertAtTime(p: Project, rows: seq<Project>, time: int)
    requires NewestFirst(rows)
    ensures AtTime(Insert(p, rows), time) == (if p.createdAt == time then [p] else []) + AtTime(rows, time)
  {
    if rows != [] && rows[0].createdAt > p.createdAt {
      var rest := Insert(p, rows[1..]);
      InsertAtTime(p, rows[1..], time);
      assert NewestFirst(rows[1..]);
      assert Insert(p, rows)[0] == rows[0] && Insert(p, rows)[1..] == rest;
      if p.createdAt == time {
        assert AtTime(rows, time) == AtTime(rows[1..], time);
      } else {
        assert AtTime(rest, time) == AtTime(rows[1..], time);
      }
    } else {
      assert Insert(p, rows)[1..] == rows;
    }
  }

  /** The list holds exactly the rows, newest first, and rows of equal time in ledger order. */
  lemma {:induction false} ListIsSorted(rows: seq<Project>)
    ensures NewestFirst(ListRows(rows)) && multiset(ListRows(rows)) == multiset(rows)
    ensures forall time :: AtTime(ListRows(rows), time) == AtTime(rows, time)
  {
    if rows != [] {
      ListIsSorted(rows[1..]);
      InsertSorted(rows[0], ListRows(rows[1..]));
      assert rows == [rows[0]] + rows[1..];
      forall time
        ensures AtTime(ListRows(rows), time) == AtTime(rows, time)
      {
        InsertAtTime(rows[0], ListRows(rows[1..]), time);
      }
    }
  }

  predicate DistinctIds(rows: seq<Project>) {
    forall i, j :: 0 <= i < j < |rows| ==> rows[i].id != rows[j].id
  }

  lemma {:induction false} SaveFacts(rows: seq<Project>, p: Project)
    requires DistinctIds(rows)
    ensures forall q :: q in Save(rows, p) <==> q == p || (q in rows && q.id != p.id)
    ensures DistinctIds(Save(rows, p))
  {
    if rows != [] {
      assert rows == [rows[0]] + rows[1..];
      if rows[0].id != p.id {
        SaveFacts(rows[1..], p);
        assert Save(rows, p)[1..] == Save(rows[1..], p);
        forall j | 1 <= j < |Save(rows, p)| ensures Save(rows, p)[j].id != rows[0].id {
          assert Save(rows, p)[j] in Save(rows[1..], p);
        }
      }
    }
  }

  /** A row saved under a known id takes the place of that row, another one goes to the end. */
  lemma {:induction false} SavedInPlace(rows: seq<Project>, p: Project, i: nat)
    requires i <= |rows| && (i < |rows| ==> rows[i].id == p.id) && forall j :: 0 <= j < i ==> rows[j].id != p.id
    ensures Save(rows, p) == if i < |rows| then rows[i := p] else rows + [p]
  {
    if i > 0 {
      SavedInPlace(rows[1..], p, i - 1);
    }
  }

  lemma {:induction false} DeleteFacts(rows: seq<Project>, id: string)
    requires DistinctIds(rows)
    ensures forall q :: q in Delete(rows, id) <==> q in rows && q.id != id
    ensures DistinctIds(Delete(rows, id))
  {
    if rows != [] && rows[0].id == id {
      assert rows == [rows[0]] + rows[1..];
      assert forall j :: 0 <= j < |rows[1..]| ==> rows[1..][j] == rows[j + 1];
    }
    if rows != [] && rows[0].id != id {
      DeleteFacts(rows[1..], id);
      assert Delete(rows, id)[1..] == Delete(rows[1..], id);
      forall j | 1 <= j < |Delete(rows, id)| ensures Delete(rows, id)[j].id != rows[0].id {
        assert Delete(rows, id)[j] in Delete(rows[1..], id);
      }
    }
  }

  // ---------- one root, one project ----------

  predicate Apart(a: Project, b: Project, fs: FileSystem) {
    a.path != "" && b.path != "" && a.id != b.id ==> !Overlaps(fs.canon(a.path), fs.canon(b.path))
  }

  /** Canonical paths pairwise distinct and none inside another. */
  ghost predicate Disjoint(rows: seq<Project>, fs: FileSystem) {
    DistinctIds(rows) && forall a, b :: a in rows && b in rows ==> Apart(a, b, fs)
  }

  /** Adding a row keeps the roots disjoint exactly when it is apart from every other row. */
  lemma {:induction false} SaveDisjointIff(rows: seq<Project>, p: Project, fs: FileSystem)
    requires Disjoint(rows, fs)
    ensures Disjoint(Save(rows, p), fs) <==> forall q :: q in rows && q.id != p.id ==> Apart(p, q, fs)
  {
    SaveFacts(rows, p);
    var after := Save(rows, p);
    if forall q :: q in rows && q.id != p.id ==> Apart(p, q, fs) {
      forall a, b | a in after && b in after ensures Apart(a, b, fs) {
        assert Apart(p, a, fs) == Apart(a, p, fs);
      }
    }
  }

  /** The two checks of an explicit path find nothing. */
  predicate PassesChecks(rows: seq<Project>, want: Path, fs: FileSystem) {
    FirstAt(ListRows(rows), want, fs).None? && FirstOverlap(ListRows(rows), want, fs).None?
  }

  /** The check of an explicit path finds every overlap with a row, unless a root directory is involved. */
  lemma {:induction false} CheckIsExact(rows: seq<Project>, want: Path, fs: FileSystem)
    requires Stable(fs) && Canonical(want)
    requires PassesChecks(rows, want, fs)
    ensures forall q :: q in rows && q.path != "" ==>
              (!Overlaps(want, fs.canon(q.path)) <==> want != [] && fs.canon(q.path) != [])
  {
    ListMembers(rows);
    FirstAtFacts(ListRows(rows), want, fs);
    FirstOverlapFacts(ListRows(rows), want, fs);
    forall q | q in rows && q.path != ""
      ensures !Overlaps(want, fs.canon(q.path)) <==> want != [] && fs.canon(q.path) != []
    {
      var c := fs.canon(q.path);
      assert q in ListRows(rows) && !At(q, want, fs) && !Clashes(q, want, fs);
      InsideIff(want, c);
      InsideIff(c, want);
    }
  }

  /** No other row has the file-system root as its folder, and the new one does not either. */
  ghost predicate NoRootInvolved(rows: seq<Project>, p: Project, want: Path, fs: FileSystem) {
    forall q :: q in rows && q.id != p.id && q.path != "" ==> want != [] && fs.canon(q.path) != []
  }

  /** A new explicit registration keeps the roots disjoint exactly when no root directory is involved. */
  lemma {:induction false} ExplicitKeepsIff(rows: seq<Project>, r: Request, fs: FileSystem)
    requires Stable(fs) && Disjoint(rows, fs) && r.explicitPath != ""
    requires Register(rows, r, fs).Created?
    ensures
      var o := Register(rows, r, fs);
      Disjoint(After(rows, o), fs) <==> NoRootInvolved(rows, o.project, fs.canon(r.explicitPath), fs)
  {
    var p := NewRow(r, fs);
    CheckIsExact(rows, fs.canon(r.explicitPath), fs);
    SaveDisjointIff(rows, p, fs);
    assert fs.canon(p.path) == fs.canon(r.explicitPath) && p.path != "";
    var want := fs.canon(r.explicitPath);
    forall q | q in rows && q.id != p.id && q.path != ""
      ensures Apart(p, q, fs) <==> want != [] && fs.canon(q.path) != []
    {
    }
    if forall q :: q in rows && q.id != p.id ==> Apart(p, q, fs) {
      assert NoRootInvolved(rows, p, want, fs);
    } else {
      var q :| q in rows && q.id != p.id && !Apart(p, q, fs);
      assert q.path != "";
    }
  }

  /** The rows that a registration under the id leaves alone. */
  function Others(rows: seq<Project>, id: string): seq<Project> {
    if rows == [] then []
    else if rows[0].id == id then Others(rows[1..], id)
    else [rows[0]] + Others(rows[1..], id)
  }

  lemma {:induction false} OthersMembers(rows: seq<Project>, id: string)
    ensures forall q :: q in Others(rows, id) <==> q in rows && q.id != id
  {
    if rows != [] {
      OthersMembers(rows[1..], id);
    }
  }

  /** The checks complain about overlaps only. */
  lemma {:induction false} ApartPasses(rows: seq<Project>, want: Path, fs: FileSystem)
    requires Stable(fs) && Canonical(want)
    requires forall q :: q in rows && q.path != "" ==> !Overlaps(want, fs.canon(q.path))
    ensures PassesChecks(rows, want, fs)
  {
    ListMembers(rows);
    FirstAtFacts(ListRows(rows), want, fs);
    FirstOverlapFacts(ListRows(rows), want, fs);
    if FirstOverlap(ListRows(rows), want, fs).Some? {
      var q := FirstOverlap(ListRows(rows), want, fs).value;
      InsideIff(want, fs.canon(q.path));
      InsideIff(fs.canon(q.path), want);
    }
  }

  /** A registration under the default folder runs no check.  It keeps the roots disjoint exactly
      when the checks of an explicit path, made for that folder, would have found none of the
      other rows, and no root directory is involved. */
  lemma {:induction false} DefaultKeepsIff(rows: seq<Project>, r: Request, fs: FileSystem)
    requires Stable(fs) && Disjoint(rows, fs) && r.explicitPath == "" && r.folderWorks
    ensures
      var o, want := Register(rows, r, fs), fs.canon(r.defaultFolder);
      && o == Created(NewRow(r, fs)) && Fits(o.project, r, fs)
      && (Disjoint(After(rows, o), fs) <==>
          r.defaultFolder == ""
          || (PassesChecks(Others(rows, r.row.id), want, fs) && NoRootInvolved(rows, NewRow(r, fs), want, fs)))
  {
    var p, others, want := NewRow(r, fs), Others(rows, r.row.id), fs.canon(r.defaultFolder);
    SaveDisjointIff(rows, p, fs);
    OthersMembers(rows, r.row.id);
    if forall q :: q in rows && q.id != p.id ==> Apart(p, q, fs) {
      forall q | q in others && q.path != "" && p.path != ""
        ensures !Overlaps(want, fs.canon(q.path))
      {
        assert Apart(p, q, fs);
      }
      if p.path != "" {
        ApartPasses(others, want, fs);
      }
    } else if PassesChecks(others, want, fs) {
      CheckIsExact(others, want, fs);
      var q :| q in rows && q.id != p.id && !Apart(p, q, fs);
      assert q in others;
    }
  }

  /** The workspace itself is a project; a project by title then lands inside it. */
  lemma {:induction false} DefaultRouteNests(first: Project, second: Project, fs: FileSystem)
    requires Stable(fs) && first.id != second.id
    requires fs.canon("/w") == ["w"] && fs.canon("/w/projects/t") == ["w", "projects", "t"]
    ensures
      var o1 := Register([], Request("/w", [], "/w", "", true, first), fs);
      var rows := After([], o1);
      var o2 := Register(rows, Request("", [], "/w", "/w/projects/t", true, second), fs);
      o1.Created? && Disjoint(rows, fs) && o2.Created? && !Disjoint(After(rows, o2), fs)
  {
    var r1, r2 := Request("/w", [], "/w", "", true, first), Request("", [], "/w", "/w/projects/t", true, second);
    var p, q := NewRow(r1, fs), NewRow(r2, fs);
    assert FirstScope(["w"], [["w"]]) == Some(["w"]);
    assert [] + [fs.canon("/w")] == [["w"]];
    assert Register([], r1, fs) == Created(p);
    assert Save([], p) == [p] && Save([p], q) == [p, q];
    assert !Apart(p, q, fs) by {
      assert ["w"] <= ["w", "projects", "t"];
    }
    assert p in [p, q] && q in [p, q];
  }

  // ---------- every run of calls ----------

  datatype Call = Ensure(request: Request) | Remove(id: string)

  function RunFrom(rows: seq<Project>, calls: seq<Call>, fs: FileSystem): seq<Project>
    decreases |calls|
  {
    if calls == [] then rows
    else
      var next := match calls[0]
        case Ensure(r) => After(rows, Register(rows, r, fs))
        case Remove(id) => Delete(rows, id);
      RunFrom(next, calls[1..], fs)
  }

  /** A run is its calls one after the other. */
  lemma {:induction false} RunContinues(rows: seq<Project>, calls: seq<Call>, last: Call, fs: FileSystem)
    ensures
      var before := RunFrom(rows, calls, fs);
      RunFrom(rows, calls + [last], fs) == match last
                                           case Ensure(r) => After(before, Register(before, r, fs))
                                           case Remove(id) => Delete(before, id)
    decreases |calls|
  {
    if calls == [] {
      assert calls + [last] == [last] && [last][1..] == [];
    } else {
      assert (calls + [last])[0] == calls[0] && (calls + [last])[1..] == calls[1..] + [last];
      var next := match calls[0]
        case Ensure(r) => After(rows, Register(rows, r, fs))
        case Remove(id) => Delete(rows, id);
      RunContinues(next, calls[1..], last, fs);
    }
  }

  /** Every registration names its folder, and never the file-system root. */
  predicate ExplicitBelowRoot(calls: seq<Call>, fs: FileSystem) {
    forall i :: 0 <= i < |calls| && calls[i].Ensure? ==>
      calls[i].request.explicitPath != "" && fs.canon(calls[i].request.explicitPath) != []
  }

  ghost predicate Rootless(rows: seq<Project>, fs: FileSystem) {
    forall q :: q in rows && q.path != "" ==> fs.canon(q.path) != []
  }

  lemma {:induction false} ExplicitKeeps(rows: seq<Project>, r: Request, fs: FileSystem)
    requires Stable(fs) && Disjoint(rows, fs) && Rootless(rows, fs)
    requires r.explicitPath != "" && fs.canon(r.explicitPath) != []
    ensures Disjoint(After(rows, Register(rows, r, fs)), fs) && Rootless(After(rows, Register(rows, r, fs)), fs)
  {
    var o := Register(rows, r, fs);
    if o.Created? {
      ExplicitKeepsIff(rows, r, fs);
      SaveFacts(rows, o.project);
    }
  }

  /** Over every sequence of explicit registrations, refused or not, and removals: the registered
      folders stay pairwise distinct and none lies inside another. */
  lemma {:induction false} ExplicitRunsStayDisjoint(rows: seq<Project>, calls: seq<Call>, fs: FileSystem)
    requires Stable(fs) && Disjoint(rows, fs) && Rootless(rows, fs) && ExplicitBelowRoot(calls, fs)
    ensures Disjoint(RunFrom(rows, calls, fs), fs) && Rootless(RunFrom(rows, calls, fs), fs)
    decreases |calls|
  {
    if calls != [] {
      var rest := calls[1..];
      match calls[0]
      case Ensure(r) =>
        ExplicitKeeps(rows, r, fs);
        ExplicitRunsStayDisjoint(After(rows, Register(rows, r, fs)), rest, fs);
      case Remove(id) =>
        DeleteFacts(rows, id);
        ExplicitRunsStayDisjoint(Delete(rows, id), rest, fs);
    }
  }

  /** Asking again for the same folder, however it is spelled and whatever the whitelist says by
      then, returns the same row and changes nothing. */
  lemma {:induction false} RegisteringAgain(rows: seq<Project>, r: Request, again: Request, fs: FileSystem)
    requires Stable(fs) && Disjoint(rows, fs) && Rootless(rows, fs)
    requires r.explicitPath != "" && again.explicitPath != ""
    requires fs.canon(r.explicitPath) == fs.canon(again.explicitPath) != []
    requires Register(rows, r, fs).Created? || Register(rows, r, fs).Existing?
    ensures
      var o := Register(rows, r, fs);
      var o2 := Register(After(rows, o), again, fs);
      o2 == Existing(o.project) && After(After(rows, o), o2) == After(rows, o)
  {
    var o := Register(rows, r, fs);
    if o.Created? {
      var after, want := After(rows, o), fs.canon(again.explicitPath);
      ExplicitKeeps(rows, r, fs);
      SaveFacts(rows, o.project);
      ListMembers(after);
      FirstAtFacts(ListRows(after), want, fs);
      assert o.project in ListRows(after) && At(o.project, want, fs);
      var found := FirstAt(ListRows(after), want, fs).value;
      assert Apart(found, o.project, fs);
      assert found.id == o.project.id;
      SameId(after, found, o.project);
    }
  }

  lemma {:induction false} SameId(rows: seq<Project>, a: Project, b: Project)
    requires DistinctIds(rows) && a in rows && b in rows && a.id == b.id
    ensures a == b
  {
  }

  // ---------- the scope of registration ----------

  /** Some scope matches exactly when the workspace or a whitelist entry allows the path. */
  lemma {:induction false} MatchScopeIff(want: Path, entries: seq<string>, workspace: string, fs: FileSystem)
    requires Stable(fs) && Canonical(want)
    ensures MatchScope(want, entries, workspace, fs).Some? <==>
            Allows(fs.canon(workspace), want) || exists i :: 0 <= i < |entries| && Allows(fs.canon(entries[i]), want)
  {
    var roots := seq(|entries|, i requires 0 <= i < |entries| => fs.canon(entries[i])) + [fs.canon(workspace)];
    assert roots[|entries|] == fs.canon(workspace);
    assert forall i :: 0 <= i < |entries| ==> roots[i] == fs.canon(entries[i]);
    FirstScopeIff(want, roots);
  }

  lemma {:induction false} FirstScopeIff(want: Path, roots: seq<Path>)
    requires Canonical(want) && forall i :: 0 <= i < |roots| ==> Canonical(roots[i])
    ensures FirstScope(want, roots).Some? <==> exists i :: 0 <= i < |roots| && Allows(roots[i], want)
  {
    if roots != [] {
      var rest := roots[1..];
      FirstScopeIff(want, rest);
      AllowsMeaning(roots[0], want);
      if FirstScope(want, roots).Some? && !Allows(roots[0], want) {
        var i :| 0 <= i < |rest| && Allows(rest[i], want);
        assert roots[i + 1] == rest[i];
      }
      if i: int :| 0 <= i < |roots| && Allows(roots[i], want) {
        assert i > 0 ==> roots[i] == rest[i - 1];
      }
    }
  }

  lemma {:induction false} AllowsMeaning(root: Path, want: Path)
    requires Canonical(want) && Canonical(root)
    ensures Allows(root, want) <==> Show(want) == Show(root) || Inside(want, root)
  {
    InsideIff(want, root);
    ShowInjective(want, root);
  }

  /** A scope allows itself and what lies inside it, the file-system root only itself. */
  predicate Allows(root: Path, want: Path) {
    root == want || (root != [] && root <= want)
  }

  lemma {:induction false} ShowInjective(a: Path, b: Path)
    requires Canonical(a) && Canonical(b)
    ensures Show(a) == Show(b) <==> a == b
  {
    if Show(a) == Show(b) && a != [] && b != [] {
      ShownPrefix(a, b);
      ShownPrefix(b, a);
    }
  }

  lemma {:induction false} ShownPrefix(a: Path, b: Path)
    requires Canonical(a) && Canonical(b) && Below(a) == Below(b)
    ensures a <= b
  {
    BelowSnoc(b, "x");
    assert Below(a) + "/" <= Below(b + ["x"]);
    BelowPrefix(a, b + ["x"]);
  }

  lemma {:induction false} BelowSnoc(p: Path, s: string)
    ensures Below(p + [s]) == Below(p) + "/" + s
  {
    if p == [] {
      assert p + [s] == [s];
      assert Below([s]) == "/" + s + Below([]);
    } else {
      assert (p + [s])[0] == p[0] && (p + [s])[1..] == p[1..] + [s];
      BelowSnoc(p[1..], s);
    }
  }

  // ---------- what an explicit registration answers ----------

  /** The workspace or a whitelist entry of the call is the path or an ancestor of it below the root. */
  predicate InScope(want: Path, entries: seq<string>, workspace: string, fs: FileSystem) {
    Allows(fs.canon(workspace), want) || exists i :: 0 <= i < |entries| && Allows(fs.canon(entries[i]), want)
  }

  predicate StrictlyInside(target: Path, root: Path) {
    root != [] && root < target
  }

  /** The row's folder lies strictly inside the path or around it. */
  predicate Nested(q: Project, want: Path, fs: FileSystem) {
    q.path != "" && (StrictlyInside(want, fs.canon(q.path)) || StrictlyInside(fs.canon(q.path), want))
  }

  lemma {:induction false} NestedMeaning(q: Project, want: Path, fs: FileSystem)
    requires Stable(fs) && Canonical(want)
    ensures Clashes(q, want, fs) <==> Nested(q, want, fs)
  {
    InsideIff(want, fs.canon(q.path));
    InsideIff(fs.canon(q.path), want);
  }

  ghost predicate NoneAt(rows: seq<Project>, want: Path, fs: FileSystem) {
    forall q :: q in rows ==> !At(q, want, fs)
  }

  ghost predicate NoneNested(rows: seq<Project>, want: Path, fs: FileSystem) {
    forall q :: q in rows ==> !Nested(q, want, fs)
  }

  /** The new row: as given, with the resolved path or the folder of the title. */
  predicate Fits(p: Project, r: Request, fs: FileSystem) {
    && p.id == r.row.id && p.title == r.row.title && p.createdAt == r.row.createdAt
    && p.autoExecute == r.row.autoExecute && p.submittedBy == r.row.submittedBy && p.sessionId == r.row.sessionId
    && p.path == if r.explicitPath == "" then r.defaultFolder else fs.resolve(r.explicitPath)
  }

  /** Every answer to an explicit registration, and exactly when it is given: the folder's row if there
      is one, else a refusal outside the scope, else a refusal of nesting, else the folder's failure
      or a new row. */
  lemma {:induction false} ExplicitAnswers(rows: seq<Project>, r: Request, fs: FileSystem)
    requires Stable(fs) && r.explicitPath != ""
    ensures
      var o, want := Register(rows, r, fs), fs.canon(r.explicitPath);
      match o
      case Existing(p) => p in rows && At(p, want, fs)
      case OutsideScope => NoneAt(rows, want, fs) && !InScope(want, r.entries, r.workspace, fs)
      case Overlapping(p) =>
        NoneAt(rows, want, fs) && InScope(want, r.entries, r.workspace, fs) && p in rows && Nested(p, want, fs)
      case FolderFailed =>
        && NoneAt(rows, want, fs) && InScope(want, r.entries, r.workspace, fs) && NoneNested(rows, want, fs)
        && !r.folderWorks
      case Created(p) =>
        && NoneAt(rows, want, fs) && InScope(want, r.entries, r.workspace, fs) && NoneNested(rows, want, fs)
        && r.folderWorks && Fits(p, r, fs)
    ensures !Register(rows, r, fs).Created? ==> After(rows, Register(rows, r, fs)) == rows
  {
    var want := fs.canon(r.explicitPath);
    ListMembers(rows);
    FirstAtFacts(ListRows(rows), want, fs);
    FirstOverlapFacts(ListRows(rows), want, fs);
    MatchScopeIff(want, r.entries, r.workspace, fs);
    forall q
      ensures Clashes(q, want, fs) <==> Nested(q, want, fs)
    {
      NestedMeaning(q, want, fs);
    }
  }

  /** A folder that no row has is refused for its scope exactly when neither the workspace nor a
      whitelist entry allows it; the ledger is then left alone. */
  lemma {:induction false} OutsideScopeIff(rows: seq<Project>, r: Request, fs: FileSystem)
    requires Stable(fs) && r.explicitPath != ""
    requires NoneAt(rows, fs.canon(r.explicitPath), fs)
    ensures Register(rows, r, fs) == OutsideScope <==> !InScope(fs.canon(r.explicitPath), r.entries, r.workspace, fs)
    ensures Register(rows, r, fs) == OutsideScope ==> After(rows, OutsideScope) == rows
  {
    ExplicitAnswers(rows, r, fs);
  }

  /** Every registration names its folder and comes with this whitelist and workspace. */
  predicate ExplicitIn(calls: seq<Call>, entries: seq<string>, workspace: string) {
    forall i :: 0 <= i < |calls| && calls[i].Ensure? ==>
      var r := calls[i].request; r.explicitPath != "" && r.entries == entries && r.workspace == workspace
  }

  ghost predicate AllInScope(rows: seq<Project>, entries: seq<string>, workspace: string, fs: FileSystem) {
    DistinctIds(rows) && forall q :: q in rows && q.path != "" ==> InScope(fs.canon(q.path), entries, workspace, fs)
  }

  /** Over every sequence of explicit registrations, refused or not, and removals, no folder outside
      the scope gets into the ledger. */
  lemma {:induction false} ExplicitRunsStayInScope(rows: seq<Project>, calls: seq<Call>, entries: seq<string>,
                                                   workspace: string, fs: FileSystem)
    requires Stable(fs) && AllInScope(rows, entries, workspace, fs) && ExplicitIn(calls, entries, workspace)
    ensures AllInScope(RunFrom(rows, calls, fs), entries, workspace, fs)
    decreases |calls|
  {
    if calls != [] {
      var rest := calls[1..];
      match calls[0]
      case Ensure(r) =>
        var o := Register(rows, r, fs);
        ExplicitAnswers(rows, r, fs);
        if o.Created? { SaveFacts(rows, o.project); }
        ExplicitRunsStayInScope(After(rows, o), rest, entries, workspace, fs);
      case Remove(id) =>
        DeleteFacts(rows, id);
        ExplicitRunsStayInScope(Delete(rows, id), rest, entries, workspace, fs);
    }
  }
}
