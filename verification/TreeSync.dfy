/** One-way merges of a directory tree into another: the plugin sync and the first-run seeding.

    The tree that is copied is a value.  The tree that is written is an object with its files
    and directories by path.  A directory's entries are visited in any order.
 */
module TreeSync {
  import opened Options

  type Path = seq<string>

  datatype File = File(data: string, mtime: real)

  datatype Node = Leaf(file: File) | Dir(entries: map<string, Node>) | Link

  /** Whether an entry takes part: links do not, nor do the names in `excluded`. */
  predicate Followed(name: string, n: Node, excluded: set<string>) {
    name !in excluded && !n.Link?
  }

  /** The node at a path all of whose steps take part. */
  function Lookup(n: Node, p: Path, excluded: set<string>): Option<Node>
    decreases n
  {
    if p == [] then Some(n)
    else if n.Dir? && p[0] in n.entries && Followed(p[0], n.entries[p[0]], excluded) then
      Lookup(n.entries[p[0]], p[1..], excluded)
    else None
  }

  /** The node at a path, links and excluded names not considered. */
  function NodeAt(n: Node, p: Path): Option<Node>
    decreases n
  {
    if p == [] then Some(n)
    else if n.Dir? && p[0] in n.entries then NodeAt(n.entries[p[0]], p[1..])
    else None
  }

  /** What takes part: the nodes at the paths without an excluded name, links left out. */
  lemma {:induction false} LookupMeaning(n: Node, p: Path, excluded: set<string>)
    ensures Lookup(n, p, excluded)
            == if (exists i :: 0 <= i < |p| && p[i] in excluded) || (p != [] && NodeAt(n, p) == Some(Link)) then None
               else NodeAt(n, p)
    decreases n
  {
    if p != [] && n.Dir? && p[0] in n.entries {
      LookupMeaning(n.entries[p[0]], p[1..], excluded);
      assert forall i :: 0 <= i < |p[1..]| ==> p[1..][i] == p[i + 1];
      assert forall i :: 1 <= i < |p| ==> p[i] == p[1..][i - 1];
    }
  }

  function At(files: map<Path, File>, q: Path): Option<File> {
    if q in files then Some(files[q]) else None
  }

  /** The file that a source tree placed at dst has at path q. */
  function SourceFile(src: Node, dst: Path, q: Path, excluded: set<string>): Option<File> {
    if dst <= q then
      var n := Lookup(src, q[|dst|..], excluded);
      if n.Some? && n.value.Leaf? then Some(n.value.file) else None
    else None
  }

  predicate SourceDir(src: Node, dst: Path, q: Path, excluded: set<string>) {
    dst <= q && Lookup(src, q[|dst|..], excluded).Some? && Lookup(src, q[|dst|..], excluded).value.Dir?
  }

  // ---------- the two rules for a file ----------

  /** Copying for the sync keeps the modification time, copying for the seeding sets a new one. */
  datatype Rule = Sync | Seed(stamp: real)

  function Written(rule: Rule, f: File): File {
    match rule
    case Sync => f
    case Seed(stamp) => File(f.data, stamp)
  }

  /** The sync replaces a file of other size or older time; the seeding only fills gaps. */
  predicate Copies(rule: Rule, current: Option<File>, f: File) {
    match rule
    case Sync => current.None? || |current.value.data| != |f.data| || f.mtime > current.value.mtime
    case Seed(_) => current.None?
  }

  function Merged(rule: Rule, current: Option<File>, f: Option<File>): Option<File> {
    if f.Some? && Copies(rule, current, f.value) then Some(Written(rule, f.value)) else current
  }

  /** No file where the source has a directory, nor the other way round. */
  ghost predicate NoClash(src: Node, dst: Path, files: map<Path, File>, dirs: set<Path>, excluded: set<string>) {
    && (forall q :: q <= dst ==> q !in files)
    && (forall q :: SourceDir(src, dst, q, excluded) ==> q !in files)
    && (forall q :: SourceFile(src, dst, q, excluded).Some? ==> q !in dirs)
  }

  function Prefixes(p: Path): set<Path> {
    set i | 0 <= i <= |p| :: p[..i]
  }

  // ---------- bookkeeping of a walk ----------

  /** The path lies in an entry that has not been visited. */
  predicate Waiting(dst: Path, q: Path, pending: set<string>) {
    dst < q && q[|dst|] in pending
  }

  ghost predicate Progress(rule: Rule, before: map<Path, File>, now: map<Path, File>, src: Node, dst: Path,
                           pending: set<string>, excluded: set<string>)
  {
    forall q :: At(now, q) == if Waiting(dst, q, pending) then At(before, q)
                              else Merged(rule, At(before, q), SourceFile(src, dst, q, excluded))
  }

  ghost predicate NewDirs(before: set<Path>, now: set<Path>, src: Node, dst: Path, excluded: set<string>) {
    before <= now && forall q :: q in now ==> q in before || q <= dst || SourceDir(src, dst, q, excluded)
  }

  ghost predicate Listed(rule: Rule, copied: seq<Path>, before: map<Path, File>, src: Node, dst: Path,
                         pending: set<string>, excluded: set<string>)
  {
    forall q :: q in copied <==>
      !Waiting(dst, q, pending) && SourceFile(src, dst, q, excluded).Some?
      && Copies(rule, At(before, q), SourceFile(src, dst, q, excluded).value)
  }

  /** Below an entry the source is that entry's tree. */
  lemma {:induction false} ChildView(src: Node, dst: Path, n: string, q: Path, excluded: set<string>)
    requires src.Dir? && n in src.entries && Followed(n, src.entries[n], excluded)
    ensures
      var child := src.entries[n];
      if dst + [n] <= q then
        && SourceFile(src, dst, q, excluded) == SourceFile(child, dst + [n], q, excluded)
        && (SourceDir(src, dst, q, excluded) <==> SourceDir(child, dst + [n], q, excluded))
      else
        SourceFile(child, dst + [n], q, excluded).None? && !SourceDir(child, dst + [n], q, excluded)
  {
    if dst + [n] <= q {
      var r := q[|dst|..];
      assert r[0] == n && r[1..] == q[|dst + [n]|..];
    }
  }

  /** What is waiting is as it was. */
  ghost predicate Untouched(before: map<Path, File>, now: map<Path, File>, dst: Path, pending: set<string>) {
    forall q :: Waiting(dst, q, pending) ==> At(now, q) == At(before, q)
  }

  /** Whatever is new comes from the source. */
  ghost predicate Grown(before: map<Path, File>, now: map<Path, File>, src: Node, dst: Path, excluded: set<string>) {
    forall q :: q in now ==> q in before || SourceFile(src, dst, q, excluded).Some?
  }

  /** Of a file entry there is one path. */
  lemma {:induction false} LeafView(src: Node, dst: Path, n: string, q: Path, excluded: set<string>)
    requires src.Dir? && n in src.entries && Followed(n, src.entries[n], excluded) && src.entries[n].Leaf?
    requires dst < q && q[|dst|] == n
    ensures SourceFile(src, dst, q, excluded) == if q == dst + [n] then Some(src.entries[n].file) else None
  {
    var target := dst + [n];
    ChildView(src, dst, n, q, excluded);
    assert q[..|dst|] + [n] == q[..|dst| + 1];
    if q != target { assert q[|target|..] != []; }
  }

  lemma {:induction false} LeafStep(rule: Rule, before: map<Path, File>, now: map<Path, File>, src: Node, dst: Path,
                                    pending: set<string>, n: string, excluded: set<string>)
    requires src.Dir? && n in src.entries && Followed(n, src.entries[n], excluded) && src.entries[n].Leaf?
    requires Progress(rule, before, now, src, dst, pending, excluded) && n in pending
    ensures
      var f := src.entries[n].file;
      var next := if Copies(rule, At(now, dst + [n]), f) then now[dst + [n] := Written(rule, f)] else now;
      Progress(rule, before, next, src, dst, pending - {n}, excluded)
  {
    assert Waiting(dst, dst + [n], pending);
    forall q | dst < q && q[|dst|] == n
      ensures SourceFile(src, dst, q, excluded) == if q == dst + [n] then Some(src.entries[n].file) else None
    {
      LeafView(src, dst, n, q, excluded);
    }
  }

  lemma {:induction false} LeafListed(rule: Rule, before: map<Path, File>, now: map<Path, File>, src: Node, dst: Path,
                                      pending: set<string>, n: string, copied: seq<Path>, excluded: set<string>)
    requires src.Dir? && n in src.entries && Followed(n, src.entries[n], excluded) && src.entries[n].Leaf?
    requires Untouched(before, now, dst, pending) && n in pending
    requires Listed(rule, copied, before, src, dst, pending, excluded)
    ensures
      var done := if Copies(rule, At(now, dst + [n]), src.entries[n].file) then copied + [dst + [n]] else copied;
      Listed(rule, done, before, src, dst, pending - {n}, excluded)
  {
    assert Waiting(dst, dst + [n], pending);
    forall q | dst < q && q[|dst|] == n
      ensures SourceFile(src, dst, q, excluded) == if q == dst + [n] then Some(src.entries[n].file) else None
    {
      LeafView(src, dst, n, q, excluded);
    }
  }

  lemma {:induction false} DirStep(rule: Rule, before: map<Path, File>, now: map<Path, File>, next: map<Path, File>,
                                   src: Node, dst: Path, pending: set<string>, n: string, excluded: set<string>)
    requires src.Dir? && n in src.entries && Followed(n, src.entries[n], excluded)
    requires Progress(rule, before, now, src, dst, pending, excluded) && n in pending
    requires forall q :: At(next, q) == Merged(rule, At(now, q), SourceFile(src.entries[n], dst + [n], q, excluded))
    ensures Progress(rule, before, next, src, dst, pending - {n}, excluded)
  {
    forall q ensures At(next, q) == if Waiting(dst, q, pending - {n}) then At(before, q)
                                    else Merged(rule, At(before, q), SourceFile(src, dst, q, excluded))
    {
      ChildView(src, dst, n, q, excluded);
      if dst < q && q[|dst|] == n {
        assert q[..|dst|] + [n] == q[..|dst| + 1];
      }
    }
  }

  /** The entry's tree does not clash with what the walk has written so far. */
  lemma {:induction false} ChildNoClash(before: map<Path, File>, now: map<Path, File>, dirs0: set<Path>,
                                        dirs: set<Path>, src: Node, dst: Path, n: string, excluded: set<string>)
    requires src.Dir? && n in src.entries && Followed(n, src.entries[n], excluded) && src.entries[n].Dir?
    requires Grown(before, now, src, dst, excluded)
    requires NewDirs(dirs0, dirs, src, dst, excluded)
    requires NoClash(src, dst, before, dirs0, excluded)
    ensures NoClash(src.entries[n], dst + [n], now, dirs, excluded)
  {
    var child, below := src.entries[n], dst + [n];
    forall q | SourceDir(src, dst, q, excluded) ensures q !in now {
    }
    assert below[|dst|..] == [n];
    assert SourceDir(src, dst, below, excluded);
    forall q | q <= below ensures q !in now {
      if q != below {
        assert q <= dst;
      }
    }
    forall q | SourceDir(child, below, q, excluded) ensures q !in now {
      ChildView(src, dst, n, q, excluded);
    }
    forall q | SourceFile(child, below, q, excluded).Some? ensures q !in dirs {
      ChildView(src, dst, n, q, excluded);
    }
  }

  lemma {:induction false} ChildDirs(dirs0: set<Path>, dirs: set<Path>, next: set<Path>, src: Node, dst: Path,
                                     n: string, excluded: set<string>)
    requires src.Dir? && n in src.entries && Followed(n, src.entries[n], excluded) && src.entries[n].Dir?
    requires NewDirs(dirs0, dirs, src, dst, excluded)
    requires NewDirs(dirs, next, src.entries[n], dst + [n], excluded)
    ensures NewDirs(dirs0, next, src, dst, excluded)
  {
    var below := dst + [n];
    assert below[|dst|..] == [n];
    forall q | q in next ensures q in dirs0 || q <= dst || SourceDir(src, dst, q, excluded) {
      ChildView(src, dst, n, q, excluded);
      if q <= below && q != below { assert q <= dst; }
    }
  }

  /** A file can be written at its place: no directory there, no file above. */
  lemma {:induction false} LeafTarget(before: map<Path, File>, now: map<Path, File>, dirs0: set<Path>,
                                      dirs: set<Path>, src: Node, dst: Path, n: string, excluded: set<string>)
    requires src.Dir? && n in src.entries && Followed(n, src.entries[n], excluded) && src.entries[n].Leaf?
    requires Grown(before, now, src, dst, excluded)
    requires NewDirs(dirs0, dirs, src, dst, excluded)
    requires NoClash(src, dst, before, dirs0, excluded)
    ensures dst + [n] !in dirs && (dst + [n])[..|dst|] == dst
    ensures forall q :: q <= dst ==> q !in now
  {
    var target := dst + [n];
    LeafView(src, dst, n, target, excluded);
    assert target[|dst|..] == [n];
  }

  predicate LinkFree(n: Node)
    decreases n
  {
    n.Leaf? || (n.Dir? && forall k :: k in n.entries ==> LinkFree(n.entries[k]))
  }

  /** The directories are those there were, the ancestors of dst, and those of the source visited so far. */
  ghost predicate DirsMerged(before: set<Path>, now: set<Path>, src: Node, dst: Path, pending: set<string>) {
    forall q :: q in now <==>
      q in before || q <= dst || (SourceDir(src, dst, q, {}) && !Waiting(dst, q, pending))
  }

  lemma {:induction false} StartDirs(before: set<Path>, src: Node, dst: Path)
    requires src.Dir?
    ensures DirsMerged(before, before + Prefixes(dst), src, dst, src.entries.Keys)
  {
    forall q ensures q in before + Prefixes(dst) <==>
      q in before || q <= dst || (SourceDir(src, dst, q, {}) && !Waiting(dst, q, src.entries.Keys))
    {
      if q <= dst { assert q == dst[..|q|]; }
      if SourceDir(src, dst, q, {}) && q != dst {
        assert dst < q && q[|dst|..][0] == q[|dst|];
      }
    }
  }

  lemma {:induction false} DirsStep(before: set<Path>, now: set<Path>, next: set<Path>, src: Node, dst: Path,
                                    pending: set<string>, n: string)
    requires src.Dir? && n in src.entries && src.entries[n].Dir? && n in pending
    requires DirsMerged(before, now, src, dst, pending)
    requires DirsMerged(now, next, src.entries[n], dst + [n], {})
    ensures DirsMerged(before, next, src, dst, pending - {n})
  {
    var below := dst + [n];
    assert below[|dst|..] == [n];
    forall q ensures q in next <==>
      q in before || q <= dst || (SourceDir(src, dst, q, {}) && !Waiting(dst, q, pending - {n}))
    {
      ChildView(src, dst, n, q, {});
      if dst < q && q[|dst|] == n {
        assert q[..|dst|] + [n] == q[..|dst| + 1];
      }
      if q <= below && q != below { assert q <= dst; }
    }
  }

  lemma {:induction false} LeafDirs(before: set<Path>, now: set<Path>, src: Node, dst: Path, pending: set<string>,
                                    n: string)
    requires src.Dir? && n in src.entries && src.entries[n].Leaf? && n in pending
    requires DirsMerged(before, now, src, dst, pending)
    ensures DirsMerged(before, now, src, dst, pending - {n})
  {
    forall q | dst < q && q[|dst|] == n ensures !SourceDir(src, dst, q, {}) {
      ChildView(src, dst, n, q, {});
      assert q[..|dst|] + [n] == q[..|dst| + 1];
      if q != dst + [n] { assert q[|dst + [n]|..] != []; }
    }
  }

  // ---------- plugins by name ----------

  datatype Plugin = Plugin(name: string, tree: Node)

  /** The first plugin found under a name. */
  function FirstNamed(found: seq<Plugin>, name: string): Option<Node> {
    if found == [] then None
    else if found[0].name == name then Some(found[0].tree)
    else FirstNamed(found[1..], name)
  }

  /** What the sync of all plugins should leave at a path. */
  function Target(before: map<Path, File>, found: seq<Plugin>, links: set<string>, q: Path, excluded: set<string>)
    : Option<File>
  {
    if q == [] || q[0] in links || FirstNamed(found, q[0]).None? then At(before, q)
    else Merged(Sync, At(before, q), SourceFile(FirstNamed(found, q[0]).value, [q[0]], q, excluded))
  }

  ghost predicate Installed(before: map<Path, File>, now: map<Path, File>, found: seq<Plugin>, links: set<string>,
                            excluded: set<string>)
  {
    forall q :: At(now, q) == Target(before, found, links, q, excluded)
  }

  /** The sync copies the path: the first plugin of its name has a file there that replaces what is
      there, if anything, and the name is not a link. */
  predicate ToCopy(before: map<Path, File>, found: seq<Plugin>, links: set<string>, q: Path, excluded: set<string>) {
    q != [] && q[0] !in links && FirstNamed(found, q[0]).Some?
    && var f := SourceFile(FirstNamed(found, q[0]).value, [q[0]], q, excluded);
       f.Some? && Copies(Sync, At(before, q), f.value)
  }

  ghost predicate Planned(copied: seq<Path>, before: map<Path, File>, found: seq<Plugin>, links: set<string>,
                          excluded: set<string>)
  {
    forall q :: q in copied <==> ToCopy(before, found, links, q, excluded)
  }

  /** The names found again, in order. */
  function Repeats(found: seq<Plugin>): seq<string> {
    if found == [] then []
    else
      var init, name := found[..|found| - 1], found[|found| - 1].name;
      Repeats(init) + if FirstNamed(init, name).Some? then [name] else []
  }

  /** The names that are links at the destination, in the order first found. */
  function LinkNames(found: seq<Plugin>, links: set<string>): seq<string> {
    if found == [] then []
    else
      var init, name := found[..|found| - 1], found[|found| - 1].name;
      LinkNames(init, links) + if FirstNamed(init, name).None? && name in links then [name] else []
  }

  ghost predicate AreNames(seen: set<string>, found: seq<Plugin>) {
    forall name :: name in seen <==> FirstNamed(found, name).Some?
  }

  lemma {:induction false} NamesSnoc(found: seq<Plugin>, i: nat, links: set<string>, seen: set<string>)
    requires i < |found| && AreNames(seen, found[..i])
    ensures AreNames(seen + {found[i].name}, found[..i + 1])
    ensures
      var again, name := found[i].name in seen, found[i].name;
      && Repeats(found[..i + 1]) == Repeats(found[..i]) + (if again then [name] else [])
      && LinkNames(found[..i + 1], links)
         == LinkNames(found[..i], links) + (if !again && name in links then [name] else [])
  {
    assert found[..i + 1][..i] == found[..i] && found[..i + 1][i] == found[i];
    forall name ensures name in seen + {found[i].name} <==> FirstNamed(found[..i + 1], name).Some? {
      FirstNamedSnoc(found, i, name);
    }
  }

  /** A name found again, or a link, adds nothing to the plan and changes no target. */
  lemma {:induction false} NothingForName(copied: seq<Path>, before: map<Path, File>, now: map<Path, File>,
                                          found: seq<Plugin>, i: nat, links: set<string>, excluded: set<string>)
    requires i < |found| && Planned(copied, before, found[..i], links, excluded)
    requires found[i].name in links || FirstNamed(found[..i], found[i].name).Some?
    ensures Planned(copied, before, found[..i + 1], links, excluded)
    ensures Installed(before, now, found[..i], links, excluded) ==>
              Installed(before, now, found[..i + 1], links, excluded)
  {
    forall q
      ensures ToCopy(before, found[..i + 1], links, q, excluded) <==> ToCopy(before, found[..i], links, q, excluded)
      ensures Target(before, found[..i + 1], links, q, excluded) == Target(before, found[..i], links, q, excluded)
    {
      if q != [] { FirstNamedSnoc(found, i, q[0]); }
    }
  }

  /** The first plugin of a name adds the copies of its tree. */
  lemma {:induction false} PlanGrows(copied: seq<Path>, more: seq<Path>, before: map<Path, File>,
                                     now: map<Path, File>, found: seq<Plugin>, i: nat, links: set<string>,
                                     excluded: set<string>)
    requires i < |found| && Planned(copied, before, found[..i], links, excluded)
    requires found[i].name !in links && FirstNamed(found[..i], found[i].name).None?
    requires Listed(Sync, more, now, found[i].tree, [found[i].name], {}, excluded)
    requires now == before || Installed(before, now, found[..i], links, excluded)
    ensures Planned(copied + more, before, found[..i + 1], links, excluded)
  {
    var name := found[i].name;
    forall q
      ensures q in copied + more <==> ToCopy(before, found[..i + 1], links, q, excluded)
    {
      if q != [] { FirstNamedSnoc(found, i, q[0]); }
      assert [name] <= q <==> q != [] && q[0] == name;
      assert q in copied <==> ToCopy(before, found[..i], links, q, excluded);
      if q != [] && q[0] == name && now != before {
        assert At(now, q) == Target(before, found[..i], links, q, excluded);
      }
    }
  }

  /** What a sync of all plugins reports. */
  datatype Report = Report(copied: seq<Path>, linkSkipped: seq<string>, duplicates: seq<string>)

  ghost predicate DirsOfSeen(before: set<Path>, now: set<Path>, seen: set<string>) {
    before <= now && forall q :: q in now ==> q in before || q == [] || q[0] in seen
  }

  lemma {:induction false} FirstNamedSnoc(found: seq<Plugin>, i: nat, name: string)
    requires i < |found|
    ensures FirstNamed(found[..i + 1], name) ==
            if FirstNamed(found[..i], name).Some? then FirstNamed(found[..i], name)
            else if found[i].name == name then Some(found[i].tree) else None
  {
    if i > 0 {
      FirstNamedSnoc(found[1..], i - 1, name);
      assert found[..i + 1][1..] == found[1..][..i] && found[..i][1..] == found[1..][..i - 1];
    } else {
      assert found[..1] == [found[0]];
    }
  }

  lemma {:induction false} NewName(before: map<Path, File>, now: map<Path, File>, next: map<Path, File>,
                                   found: seq<Plugin>, i: nat, links: set<string>, excluded: set<string>)
    requires i < |found| && FirstNamed(found[..i], found[i].name).None? && found[i].name !in links
    requires Progress(Sync, now, next, found[i].tree, [found[i].name], {}, excluded)
    ensures Installed(before, now, found[..i], links, excluded) ==>
              Installed(before, next, found[..i + 1], links, excluded)
  {
    if Installed(before, now, found[..i], links, excluded) {
      forall q ensures At(next, q) == Target(before, found[..i + 1], links, q, excluded) {
        if q != [] { FirstNamedSnoc(found, i, q[0]); }
        assert At(now, q) == Target(before, found[..i], links, q, excluded);
        assert [found[i].name] <= q <==> q != [] && q[0] == found[i].name;
      }
    }
  }

  lemma {:induction false} OtherNamesNoClash(before: map<Path, File>, now: map<Path, File>, dirs0: set<Path>,
                                             dirs: set<Path>, found: seq<Plugin>, i: nat, links: set<string>,
                                             excluded: set<string>, seen: set<string>)
    requires i < |found| && found[i].name !in seen && found[i].tree.Dir?
    requires NoClash(found[i].tree, [found[i].name], before, dirs0, excluded)
    requires now == before || Installed(before, now, found[..i], links, excluded)
    requires AreNames(seen, found[..i]) && DirsOfSeen(dirs0, dirs, seen)
    ensures NoClash(found[i].tree, [found[i].name], now, dirs, excluded)
  {
    var name, tree := found[i].name, found[i].tree;
    FirstNamedSnoc(found, i, name);
    forall q | q == [] || q[0] == name ensures At(now, q) == At(before, q) {
      if now != before { assert At(now, q) == Target(before, found[..i], links, q, excluded); }
    }
    forall q | q <= [name] ensures q !in now {
      assert At(now, q) == At(before, q);
    }
    forall q | SourceDir(tree, [name], q, excluded) ensures q !in now {
      assert At(now, q) == At(before, q);
    }
    forall q | SourceFile(tree, [name], q, excluded).Some? ensures q !in dirs {
      assert q[0] == name;
    }
  }

  /** What the sync of the first plugins has done and noted. */
  ghost predicate SyncedFirst(files0: map<Path, File>, files: map<Path, File>, dirs0: set<Path>, dirs: set<Path>,
                              first: seq<Plugin>, links: set<string>, excluded: set<string>, dryRun: bool,
                              seen: set<string>, report: Report)
  {
    && (if dryRun then files == files0 && dirs == dirs0 else Installed(files0, files, first, links, excluded))
    && DirsOfSeen(dirs0, dirs, seen) && AreNames(seen, first)
    && Planned(report.copied, files0, first, links, excluded)
    && report.linkSkipped == LinkNames(first, links) && report.duplicates == Repeats(first)
  }

  /** The next plugin has a name found before, or one that is a link. */
  lemma {:induction false} NameStep(files0: map<Path, File>, files: map<Path, File>, dirs0: set<Path>,
                                    dirs: set<Path>, found: seq<Plugin>, i: nat, links: set<string>,
                                    excluded: set<string>, dryRun: bool, seen: set<string>, report: Report)
    requires i < |found| && (found[i].name in seen || found[i].name in links)
    requires SyncedFirst(files0, files, dirs0, dirs, found[..i], links, excluded, dryRun, seen, report)
    ensures
      var name := found[i].name;
      SyncedFirst(files0, files, dirs0, dirs, found[..i + 1], links, excluded, dryRun, seen + {name},
                  if name in seen then report.(duplicates := report.duplicates + [name])
                  else report.(linkSkipped := report.linkSkipped + [name]))
  {
    NamesSnoc(found, i, links, seen);
    NothingForName(report.copied, files0, files, found, i, links, excluded);
  }

  /** The next plugin is the first of its name. */
  lemma {:induction false} PluginStep(files0: map<Path, File>, now: map<Path, File>, next: map<Path, File>,
                                      dirs0: set<Path>, dirs: set<Path>, dirsNext: set<Path>, found: seq<Plugin>,
                                      i: nat, links: set<string>, excluded: set<string>, dryRun: bool,
                                      seen: set<string>, report: Report, more: seq<Path>)
    requires i < |found| && found[i].name !in seen && found[i].name !in links
    requires SyncedFirst(files0, now, dirs0, dirs, found[..i], links, excluded, dryRun, seen, report)
    requires
      if dryRun then next == now && dirsNext == dirs
      else Progress(Sync, now, next, found[i].tree, [found[i].name], {}, excluded)
    requires NewDirs(dirs, dirsNext, found[i].tree, [found[i].name], excluded)
    requires Listed(Sync, more, now, found[i].tree, [found[i].name], {}, excluded)
    ensures SyncedFirst(files0, next, dirs0, dirsNext, found[..i + 1], links, excluded, dryRun,
                        seen + {found[i].name}, report.(copied := report.copied + more))
  {
    NamesSnoc(found, i, links, seen);
    if !dryRun { NewName(files0, now, next, found, i, links, excluded); }
    PlanGrows(report.copied, more, files0, now, found, i, links, excluded);
  }

  // ---------- the written tree ----------

  class Tree {
    var files: map<Path, File>
    var dirs: set<Path>

    constructor (files: map<Path, File>, dirs: set<Path>)
      ensures this.files == files && this.dirs == dirs
    {
      this.files, this.dirs := files, dirs;
    }

    /** Makes a directory and its ancestors; a file in the way would be an error. */
    method MakeDirs(p: Path)
      requires forall q :: q <= p ==> q !in files
      modifies this`dirs
      ensures dirs == old(dirs) + Prefixes(p)
    {
      dirs := dirs + Prefixes(p);
    }

    /** Writes a file; its directory must be there and it must not be a directory itself. */
    method CopyFile(q: Path, f: File)
      requires q != [] && q !in dirs && q[..|q| - 1] in dirs
      modifies this`files
      ensures files == old(files)[q := f]
    {
      files := files[q := f];
    }

    method CopyNewer(f: File, q: Path, dryRun: bool) returns (copied: bool)
      requires q != [] && q !in dirs && forall p :: p <= q[..|q| - 1] ==> p !in files
      modifies this
      ensures copied == Copies(Sync, old(At(files, q)), f)
      ensures copied && !dryRun ==>
                files == old(files)[q := f] && dirs == old(dirs) + Prefixes(q[..|q| - 1])
      ensures !copied || dryRun ==> files == old(files) && dirs == old(dirs)
    {
      if q in files {
        if |files[q].data| == |f.data| && f.mtime <= files[q].mtime {
          return false;
        }
      }
      copied := true;
      if dryRun { return; }
      var parent := q[..|q| - 1];
      MakeDirs(parent);
      assert parent[..|q| - 1] == parent;
      CopyFile(q, f);
    }

    /** Merges src into dst; reports the files written, or to be written. */
    method SyncTree(src: Node, dst: Path, excluded: set<string>, dryRun: bool) returns (copied: seq<Path>)
      requires src.Dir? && NoClash(src, dst, files, dirs, excluded)
      modifies this
      ensures !dryRun ==> Progress(Sync, old(files), files, src, dst, {}, excluded)
      ensures NewDirs(old(dirs), dirs, src, dst, excluded)
      ensures dryRun ==> files == old(files) && dirs == old(dirs)
      ensures Listed(Sync, copied, old(files), src, dst, {}, excluded)
      decreases src
    {
      copied := [];
      var pending := src.entries.Keys;
      ghost var files0, dirs0 := files, dirs;
      while pending != {}
        invariant pending <= src.entries.Keys
        invariant !dryRun ==> Progress(Sync, files0, files, src, dst, pending, excluded)
        invariant dryRun ==> files == files0 && dirs == dirs0
        invariant NewDirs(dirs0, dirs, src, dst, excluded)
        invariant Listed(Sync, copied, files0, src, dst, pending, excluded)
        decreases pending
      {
        assert (forall n :: n !in pending) ==> pending == {};
        var n :| n in pending;
        var entry, target := src.entries[n], dst + [n];
        ghost var now, dirsNow := files, dirs;
        assert Untouched(files0, now, dst, pending);
        assert Grown(files0, now, src, dst, excluded);
        if Followed(n, entry, excluded) {
          if entry.Dir? {
            ChildNoClash(files0, now, dirs0, dirs, src, dst, n, excluded);
            var more := SyncTree(entry, target, excluded, dryRun);
            if !dryRun { DirStep(Sync, files0, now, files, src, dst, pending, n, excluded); }
            ChildDirs(dirs0, dirsNow, dirs, src, dst, n, excluded);
            copied := copied + more;
          } else {
            LeafTarget(files0, now, dirs0, dirs, src, dst, n, excluded);
            var written := CopyNewer(entry.file, target, dryRun);
            if !dryRun { LeafStep(Sync, files0, now, src, dst, pending, n, excluded); }
            LeafListed(Sync, files0, now, src, dst, pending, n, copied, excluded);
            if written { copied := copied + [target]; }
          }
        }
        pending := pending - {n};
      }
    }

    /** Fills dst with what it lacks of src; directories are made even where they stay empty. */
    method SeedTree(src: Node, dst: Path, stamp: real)
      requires src.Dir? && LinkFree(src) && NoClash(src, dst, files, dirs, {})
      modifies this
      ensures Progress(Seed(stamp), old(files), files, src, dst, {}, {})
      ensures DirsMerged(old(dirs), dirs, src, dst, {})
      decreases src
    {
      ghost var files0, dirs0 := files, dirs;
      MakeDirs(dst);
      var pending := src.entries.Keys;
      StartDirs(dirs0, src, dst);
      while pending != {}
        invariant pending <= src.entries.Keys
        invariant Progress(Seed(stamp), files0, files, src, dst, pending, {})
        invariant DirsMerged(dirs0, dirs, src, dst, pending)
        decreases pending
      {
        assert (forall n :: n !in pending) ==> pending == {};
        var n :| n in pending;
        var entry, target := src.entries[n], dst + [n];
        ghost var now, dirsNow := files, dirs;
        assert Grown(files0, now, src, dst, {});
        if entry.Dir? {
          ChildNoClash(files0, now, dirs0, dirs, src, dst, n, {});
          SeedTree(entry, target, stamp);
          DirStep(Seed(stamp), files0, now, files, src, dst, pending, n, {});
          DirsStep(dirs0, dirsNow, dirs, src, dst, pending, n);
        } else {
          LeafTarget(files0, now, dirs0, dirs, src, dst, n, {});
          assert dst <= dst;
          if target !in files && target !in dirs {
            CopyFile(target, File(entry.file.data, stamp));
          }
          LeafStep(Seed(stamp), files0, now, src, dst, pending, n, {});
          LeafDirs(dirs0, dirs, src, dst, pending, n);
        }
        pending := pending - {n};
      }
    }

    /** Syncs each plugin into the directory of its name: the first of a name counts, and a name
        that is a link at the destination is left alone. */
    method SyncPlugins(found: seq<Plugin>, links: set<string>, sameDir: bool, excluded: set<string>, dryRun: bool)
      returns (copied: seq<Path>, linkSkipped: seq<string>, duplicates: seq<string>)
      requires forall i :: 0 <= i < |found| ==> found[i].tree.Dir?
      requires forall i :: 0 <= i < |found| ==> NoClash(found[i].tree, [found[i].name], files, dirs, excluded)
      modifies this
      ensures sameDir || dryRun ==> files == old(files) && dirs == old(dirs)
      ensures !sameDir && !dryRun ==> Installed(old(files), files, found, links, excluded)
      ensures sameDir ==> copied == [] && linkSkipped == [] && duplicates == []
      ensures !sameDir ==> Planned(copied, old(files), found, links, excluded)
      ensures !sameDir ==> linkSkipped == LinkNames(found, links) && duplicates == Repeats(found)
    {
      copied, linkSkipped, duplicates := [], [], [];
      if sameDir { return; }
      ghost var files0, dirs0 := files, dirs;
      var seen: set<string>, i := {}, 0;
      while i < |found|
        invariant 0 <= i <= |found|
        invariant SyncedFirst(files0, files, dirs0, dirs, found[..i], links, excluded, dryRun, seen,
                              Report(copied, linkSkipped, duplicates))
      {
        var p := found[i];
        ghost var names, report, now, dirsNow := seen, Report(copied, linkSkipped, duplicates), files, dirs;
        if p.name in seen {
          duplicates := duplicates + [p.name];
          assert seen + {p.name} == seen;
          NameStep(files0, now, dirs0, dirsNow, found, i, links, excluded, dryRun, names, report);
        } else {
          seen := seen + {p.name};
          if p.name in links {
            linkSkipped := linkSkipped + [p.name];
            NameStep(files0, now, dirs0, dirsNow, found, i, links, excluded, dryRun, names, report);
          } else {
            OtherNamesNoClash(files0, now, dirs0, dirsNow, found, i, links, excluded, names);
            var more := SyncTree(p.tree, [p.name], excluded, dryRun);
            copied := copied + more;
            PluginStep(files0, now, files, dirs0, dirsNow, dirs, found, i, links, excluded, dryRun, names, report,
                       more);
          }
        }
        i := i + 1;
      }
      assert found[..i] == found;
    }
  }

  // ---------- what the sync promises ----------

  /** Nothing is removed, and nothing the source does not have is touched. */
  lemma {:induction false} SyncNeverRemoves(before: map<Path, File>, now: map<Path, File>, src: Node, dst: Path,
                                            excluded: set<string>)
    requires Progress(Sync, before, now, src, dst, {}, excluded)
    ensures forall q :: q in before ==> q in now
    ensures forall q :: SourceFile(src, dst, q, excluded).None? ==> At(now, q) == At(before, q)
  {
    forall q | q in before ensures q in now {
      assert At(now, q) == Merged(Sync, At(before, q), SourceFile(src, dst, q, excluded));
    }
  }

  /** Every source file ends up equal to its copy, or the copy was kept: of the same size and at
      least as new. */
  lemma {:induction false} SyncLeavesFresh(before: map<Path, File>, now: map<Path, File>, src: Node, dst: Path,
                                           excluded: set<string>, q: Path)
    requires Progress(Sync, before, now, src, dst, {}, excluded) && SourceFile(src, dst, q, excluded).Some?
    ensures q in now
    ensures
      var f := SourceFile(src, dst, q, excluded).value;
      now[q] == f || (At(before, q) == Some(now[q]) && |now[q].data| == |f.data| && now[q].mtime >= f.mtime)
  {
    assert At(now, q) == Merged(Sync, At(before, q), SourceFile(src, dst, q, excluded));
  }

  /** A second sync finds nothing to copy. */
  lemma {:induction false} SecondSyncCopiesNothing(before: map<Path, File>, now: map<Path, File>, src: Node, dst: Path,
                                                   excluded: set<string>, copied: seq<Path>)
    requires Progress(Sync, before, now, src, dst, {}, excluded)
    requires Listed(Sync, copied, now, src, dst, {}, excluded)
    ensures copied == []
  {
    if copied != [] {
      var q := copied[0];
      assert q in copied;
      SyncLeavesFresh(before, now, src, dst, excluded, q);
    }
  }

  /** And it may run: the first one leaves no clash. */
  lemma {:induction false} SyncKeepsNoClash(before: map<Path, File>, now: map<Path, File>, dirs0: set<Path>,
                                            dirs: set<Path>, src: Node, dst: Path, excluded: set<string>)
    requires NoClash(src, dst, before, dirs0, excluded) && src.Dir?
    requires Progress(Sync, before, now, src, dst, {}, excluded) && NewDirs(dirs0, dirs, src, dst, excluded)
    ensures NoClash(src, dst, now, dirs, excluded)
  {
    forall q | q <= dst || SourceDir(src, dst, q, excluded) ensures q !in now {
      assert At(now, q) == Merged(Sync, At(before, q), SourceFile(src, dst, q, excluded));
      assert q <= dst && dst <= q ==> q == dst;
    }
  }

  /** A copy that is newer than the source is overwritten exactly when the sizes differ. */
  lemma {:induction false} NewerCopyOverwrittenIff(before: map<Path, File>, now: map<Path, File>, src: Node, dst: Path,
                                                   excluded: set<string>, q: Path)
    requires Progress(Sync, before, now, src, dst, {}, excluded) && SourceFile(src, dst, q, excluded).Some?
    requires q in before && before[q].mtime > SourceFile(src, dst, q, excluded).value.mtime
    ensures At(now, q) != At(before, q) <==> |before[q].data| != |SourceFile(src, dst, q, excluded).value.data|
  {
    assert At(now, q) == Merged(Sync, At(before, q), SourceFile(src, dst, q, excluded));
  }

  /** What the sync of all plugins leaves at a path: under a name that is a link, or that no plugin
      has, what was there; under any other name the merge with the first plugin of the name. */
  lemma {:induction false} PluginsLeave(before: map<Path, File>, now: map<Path, File>, found: seq<Plugin>,
                                        links: set<string>, excluded: set<string>, q: Path, i: nat)
    requires Installed(before, now, found, links, excluded) && q != []
    requires i <= |found| && (i < |found| ==> found[i].name == q[0]) && forall j :: 0 <= j < i ==> found[j].name != q[0]
    ensures At(now, q) == if q[0] in links || i == |found| then At(before, q)
                          else Merged(Sync, At(before, q), SourceFile(found[i].tree, [q[0]], q, excluded))
  {
    assert At(now, q) == Target(before, found, links, q, excluded);
    FirstNamedAt(found, q[0], i);
  }

  lemma {:induction false} FirstNamedAt(found: seq<Plugin>, name: string, i: nat)
    requires i <= |found| && (i < |found| ==> found[i].name == name) && forall j :: 0 <= j < i ==> found[j].name != name
    ensures FirstNamed(found, name) == if i < |found| then Some(found[i].tree) else None
  {
    if i > 0 { FirstNamedAt(found[1..], name, i - 1); }
  }

  /** How often the list has the name. */
  function Count(found: seq<Plugin>, name: string): nat {
    if found == [] then 0
    else Count(found[..|found| - 1], name) + if found[|found| - 1].name == name then 1 else 0
  }

  lemma {:induction false} FirstNamedCounts(found: seq<Plugin>, name: string)
    ensures FirstNamed(found, name).Some? <==> Count(found, name) > 0
  {
    if found != [] {
      var n := |found| - 1;
      FirstNamedCounts(found[..n], name);
      assert found[..n + 1] == found;
      FirstNamedSnoc(found, n, name);
    }
  }

  lemma {:induction false} OneMoreIn(names: seq<string>, last: seq<string>, name: string)
    ensures multiset(names + last)[name] == multiset(names)[name] + multiset(last)[name]
  {
  }

  /** Of the plugins of a name all but the first are reported as duplicates. */
  lemma {:induction false} DuplicatesCount(found: seq<Plugin>, name: string)
    ensures multiset(Repeats(found))[name] == if Count(found, name) == 0 then 0 else Count(found, name) - 1
  {
    if found != [] {
      var init, last := found[..|found| - 1], found[|found| - 1].name;
      DuplicatesCount(init, name);
      FirstNamedCounts(init, last);
      OneMoreIn(Repeats(init), if FirstNamed(init, last).Some? then [last] else [], name);
    }
  }

  /** A name that is a link is reported once, however often it is found. */
  lemma {:induction false} LinksCount(found: seq<Plugin>, links: set<string>, name: string)
    ensures multiset(LinkNames(found, links))[name] == if name in links && Count(found, name) > 0 then 1 else 0
  {
    if found != [] {
      var init, last := found[..|found| - 1], found[|found| - 1].name;
      LinksCount(init, links, name);
      FirstNamedCounts(init, last);
      OneMoreIn(LinkNames(init, links), if FirstNamed(init, last).None? && last in links then [last] else [], name);
    }
  }

  // ---------- what the seeding promises ----------

  /** The destination wins everywhere; the source only fills what is missing. */
  lemma {:induction false} SeedPrefersDestination(before: map<Path, File>, now: map<Path, File>, src: Node, dst: Path,
                                                  stamp: real, q: Path)
    requires Progress(Seed(stamp), before, now, src, dst, {}, {})
    ensures q in before ==> At(now, q) == Some(before[q])
    ensures q !in before ==> (q in now <==> SourceFile(src, dst, q, {}).Some?)
    ensures q !in before && q in now ==> now[q].data == SourceFile(src, dst, q, {}).value.data
  {
    assert At(now, q) == Merged(Seed(stamp), At(before, q), SourceFile(src, dst, q, {}));
  }

  /** Seeding again changes nothing. */
  lemma {:induction false} SeedIdempotent(before: map<Path, File>, mid: map<Path, File>, now: map<Path, File>,
                                          dirs0: set<Path>, dirs1: set<Path>, dirs2: set<Path>, src: Node, dst: Path,
                                          first: real, second: real)
    requires Progress(Seed(first), before, mid, src, dst, {}, {})
    requires Progress(Seed(second), mid, now, src, dst, {}, {})
    requires DirsMerged(dirs0, dirs1, src, dst, {}) && DirsMerged(dirs1, dirs2, src, dst, {})
    ensures now == mid && dirs2 == dirs1
  {
    forall q ensures At(now, q) == At(mid, q) {
      SeedPrefersDestination(before, mid, src, dst, first, q);
      assert At(now, q) == Merged(Seed(second), At(mid, q), SourceFile(src, dst, q, {}));
    }
    forall q ensures q in now <==> q in mid {
      assert At(now, q) == At(mid, q);
    }
    forall q | q in mid ensures now[q] == mid[q] {
      assert At(now, q) == At(mid, q);
    }
  }
}
