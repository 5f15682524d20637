/** The stack-based directory walk, against the recursive walk it stands for. */
module FileWalk {

  type Path = seq<string>

  datatype Dir = Unreadable | Listing(entries: seq<Entry>)

  // Links, sockets and the like are neither files nor directories.
  datatype Entry = File(name: string) | Subdir(name: string, dir: Dir) | Special(name: string)

  datatype Pending = Pending(path: Path, dir: Dir)

  // ---- the recursive walk ----

  function Files(at: Path, entries: seq<Entry>, included: set<Path>): seq<Path> {
    if entries == [] then []
    else
      var front, last := Files(at, entries[..|entries| - 1], included), entries[|entries| - 1];
      if last.File? && at + [last.name] in included then front + [at + [last.name]] else front
  }

  /** A directory's own files in their order, then its subdirectories from last to first. */
  function Walk(at: Path, dir: Dir, included: set<Path>, skip: set<string>): seq<Path>
    decreases dir, 1, 0
  {
    match dir
    case Unreadable => []
    case Listing(entries) => Files(at, entries, included) + WalkSubdirs(at, entries, |entries|, included, skip)
  }

  function WalkSubdirs(at: Path, entries: seq<Entry>, n: nat, included: set<Path>, skip: set<string>): seq<Path>
    requires n <= |entries|
    decreases entries, 0, n
  {
    if n == 0 then []
    else
      var last, rest := entries[n - 1], WalkSubdirs(at, entries, n - 1, included, skip);
      match last
      case Subdir(name, dir) => if name in skip then rest else Walk(at + [name], dir, included, skip) + rest
      case _ => rest
  }

  // ---- the stack ----

  function Size(dir: Dir): nat {
    match dir
    case Unreadable => 1
    case Listing(entries) => 1 + SizeOf(entries, |entries|)
  }

  function SizeOf(entries: seq<Entry>, n: nat): nat
    requires n <= |entries|
    decreases entries, 0, n
  {
    if n == 0 then 0
    else
      var last, rest := entries[n - 1], SizeOf(entries, n - 1);
      match last
      case Subdir(_, dir) => Size(dir) + rest
      case _ => rest
  }

  function StackSize(stack: seq<Pending>): nat {
    if stack == [] then 0 else StackSize(stack[..|stack| - 1]) + Size(stack[|stack| - 1].dir)
  }

  /** What is still to come from a stack, its top first. */
  function WalkStack(stack: seq<Pending>, included: set<Path>, skip: set<string>): seq<Path> {
    if stack == [] then []
    else
      var top := stack[|stack| - 1];
      Walk(top.path, top.dir, included, skip) + WalkStack(stack[..|stack| - 1], included, skip)
  }

  /** What scanning a directory pushes. */
  function Pushes(at: Path, entries: seq<Entry>, skip: set<string>): seq<Pending> {
    if entries == [] then []
    else
      var front, last := Pushes(at, entries[..|entries| - 1], skip), entries[|entries| - 1];
      if last.Subdir? && last.name !in skip then front + [Pending(at + [last.name], last.dir)] else front
  }

  function Pushed(at: Path, e: Entry, skip: set<string>): seq<Pending> {
    if e.Subdir? && e.name !in skip then [Pending(at + [e.name], e.dir)] else []
  }

  function WalkEntry(at: Path, e: Entry, included: set<Path>, skip: set<string>): seq<Path> {
    if e.Subdir? && e.name !in skip then Walk(at + [e.name], e.dir, included, skip) else []
  }

  lemma PushOneMore(at: Path, entries: seq<Entry>, n: nat, included: set<Path>, skip: set<string>)
    requires n < |entries|
    ensures Pushes(at, entries[..n + 1], skip) == Pushes(at, entries[..n], skip) + Pushed(at, entries[n], skip)
    ensures WalkSubdirs(at, entries, n + 1, included, skip)
         == WalkEntry(at, entries[n], included, skip) + WalkSubdirs(at, entries, n, included, skip)
  {
    assert entries[..n + 1][..n] == entries[..n];
  }

  lemma PushEntry(stack: seq<Pending>, at: Path, e: Entry, included: set<Path>, skip: set<string>)
    ensures WalkStack(stack + Pushed(at, e, skip), included, skip)
         == WalkEntry(at, e, included, skip) + WalkStack(stack, included, skip)
    ensures StackSize(stack + Pushed(at, e, skip)) <= StackSize(stack) + (if e.Subdir? then Size(e.dir) else 0)
  {
    var more := Pushed(at, e, skip);
    if more == [] {
      assert stack + more == stack;
    } else {
      assert (stack + more)[..|stack|] == stack;
    }
  }

  lemma Regroup<T>(a: seq<T>, b: seq<T>, c: seq<T>)
    ensures a + (b + c) == (a + b) + c
  {
  }

  /** Pushing the subdirectories schedules them, last first, before what lies below. */
  lemma {:induction false} PushesWalk(below: seq<Pending>, at: Path, entries: seq<Entry>, n: nat, included: set<Path>, skip: set<string>)
    requires n <= |entries|
    ensures WalkStack(below + Pushes(at, entries[..n], skip), included, skip)
         == WalkSubdirs(at, entries, n, included, skip) + WalkStack(below, included, skip)
    ensures StackSize(below + Pushes(at, entries[..n], skip)) <= StackSize(below) + SizeOf(entries, n)
  {
    if n == 0 {
      assert below + Pushes(at, entries[..0], skip) == below;
    } else {
      PushesWalk(below, at, entries, n - 1, included, skip);
      var front, last := Pushes(at, entries[..n - 1], skip), entries[n - 1];
      PushOneMore(at, entries, n - 1, included, skip);
      Regroup(below, front, Pushed(at, last, skip));
      PushEntry(below + front, at, last, included, skip);
      Regroup(WalkEntry(at, last, included, skip), WalkSubdirs(at, entries, n - 1, included, skip),
              WalkStack(below, included, skip));
    }
  }

  method CollectFilesSync(rootDir: string, root: Dir, included: set<Path>, skipDirNames: set<string>)
      returns (files: seq<Path>)
    ensures files == if rootDir == "" then [] else Walk([rootDir], root, included, skipDirNames)
  {
    files := [];
    // The walk skips an empty path, which only the root can be.
    if rootDir == "" {
      return;
    }
    var stack := [Pending([rootDir], root)];
    assert stack[..0] == [];
    while |stack| > 0
      invariant files + WalkStack(stack, included, skipDirNames) == Walk([rootDir], root, included, skipDirNames)
      decreases StackSize(stack)
    {
      PopStep(stack, included, skipDirNames);
      var current := stack[|stack| - 1];
      stack := stack[..|stack| - 1];
      if current.dir.Listing? {
        var found, pushed := Scan(current.path, current.dir.entries, included, skipDirNames);
        ScanStep(files, stack, current.path, current.dir.entries, included, skipDirNames);
        files := files + found;
        stack := stack + pushed;
      }
    }
  }

  lemma PopStep(stack: seq<Pending>, included: set<Path>, skip: set<string>)
    requires stack != []
    ensures var top, below := stack[|stack| - 1], stack[..|stack| - 1];
      && WalkStack(stack, included, skip) == Walk(top.path, top.dir, included, skip) + WalkStack(below, included, skip)
      && StackSize(stack) == StackSize(below) + Size(top.dir)
      && (top.dir.Unreadable? ==> WalkStack(stack, included, skip) == WalkStack(below, included, skip))
  {
  }

  lemma ScanStep(files: seq<Path>, below: seq<Pending>, at: Path, entries: seq<Entry>, included: set<Path>, skip: set<string>)
    ensures var stack := below + Pushes(at, entries, skip);
      && files + (Walk(at, Listing(entries), included, skip) + WalkStack(below, included, skip))
         == (files + Files(at, entries, included)) + WalkStack(stack, included, skip)
      && StackSize(stack) < StackSize(below) + Size(Listing(entries))
  {
    PushesWalk(below, at, entries, |entries|, included, skip);
    assert entries[..|entries|] == entries;
    var own, subdirs, rest :=
      Files(at, entries, included), WalkSubdirs(at, entries, |entries|, included, skip), WalkStack(below, included, skip);
    Regroup(own, subdirs, rest);
    Regroup(files, own, subdirs + rest);
  }

  method Scan(at: Path, entries: seq<Entry>, included: set<Path>, skip: set<string>)
      returns (files: seq<Path>, pushed: seq<Pending>)
    ensures files == Files(at, entries, included) && pushed == Pushes(at, entries, skip)
  {
    files, pushed := [], [];
    for i := 0 to |entries|
      invariant files == Files(at, entries[..i], included) && pushed == Pushes(at, entries[..i], skip)
    {
      assert entries[..i + 1][..i] == entries[..i];
      match entries[i] {
        case Subdir(name, dir) =>
          if name in skip {
            continue;
          }
          pushed := pushed + [Pending(at + [name], dir)];
        case File(name) =>
          if at + [name] in included {
            files := files + [at + [name]];
          }
        case Special(_) =>
      }
    }
    assert entries[..|entries|] == entries;
  }

  // ---- what the walk finds ----

  /** A path names a file of the tree whose directories below the root are readable and not
      skipped. */
  ghost predicate Found(at: Path, dir: Dir, skip: set<string>, path: Path)
    decreases dir, 0
  {
    dir.Listing? && exists i :: 0 <= i < |dir.entries| && FoundVia(at, dir.entries[i], skip, path)
  }

  ghost predicate FoundVia(at: Path, e: Entry, skip: set<string>, path: Path)
    decreases e, 0
  {
    match e
    case File(name) => path == at + [name]
    case Subdir(name, dir) => name !in skip && Found(at + [name], dir, skip, path)
    case Special(_) => false
  }

  /** The walk finds exactly the included files of the tree that lie under no skipped directory. */
  lemma {:induction false} WalkFinds(at: Path, dir: Dir, included: set<Path>, skip: set<string>, path: Path)
    ensures path in Walk(at, dir, included, skip) <==> path in included && Found(at, dir, skip, path)
    decreases dir, 1, 0
  {
    if dir.Listing? {
      var entries := dir.entries;
      FilesFound(at, entries, included, path);
      SubdirsFound(at, entries, |entries|, included, skip, path);
      assert forall i :: 0 <= i < |entries| ==>
        (FoundVia(at, entries[i], skip, path) <==>
          (entries[i].File? && path == at + [entries[i].name]) || FoundBelow(at, entries[i], skip, path));
    }
  }

  lemma {:induction false} FilesFound(at: Path, entries: seq<Entry>, included: set<Path>, path: Path)
    ensures path in Files(at, entries, included) <==>
      path in included && exists i :: 0 <= i < |entries| && entries[i].File? && path == at + [entries[i].name]
  {
    if entries != [] {
      FilesFound(at, entries[..|entries| - 1], included, path);
    }
  }

  ghost predicate FoundBelow(at: Path, e: Entry, skip: set<string>, path: Path) {
    e.Subdir? && e.name !in skip && Found(at + [e.name], e.dir, skip, path)
  }

  lemma {:induction false} SubdirsFound(at: Path, entries: seq<Entry>, n: nat, included: set<Path>, skip: set<string>, path: Path)
    requires n <= |entries|
    ensures path in WalkSubdirs(at, entries, n, included, skip) <==>
      path in included && exists i :: 0 <= i < n && FoundBelow(at, entries[i], skip, path)
    decreases entries, 0, n
  {
    if n > 0 {
      SubdirsFound(at, entries, n - 1, included, skip, path);
      match entries[n - 1] {
        case Subdir(name, dir) => WalkFinds(at + [name], dir, included, skip, path);
        case _ =>
      }
    }
  }

  // ---- each file once ----

  /** The names within each directory differ, as they do in a file system. */
  ghost predicate WellNamed(dir: Dir)
    decreases dir, 0
  {
    dir.Listing? ==>
      && (forall i, j :: 0 <= i < j < |dir.entries| ==> dir.entries[i].name != dir.entries[j].name)
      && (forall i :: 0 <= i < |dir.entries| ==> WellNamedBelow(dir.entries[i]))
  }

  ghost predicate WellNamedBelow(e: Entry)
    decreases e, 0
  {
    e.Subdir? ==> WellNamed(e.dir)
  }

  ghost predicate Once(paths: seq<Path>) {
    forall i, j :: 0 <= i < j < |paths| ==> paths[i] != paths[j]
  }

  ghost predicate Below(at: Path, name: string, path: Path) {
    |at| < |path| && path[..|at|] == at && path[|at|] == name
  }

  lemma {:induction false} FoundViaBelow(at: Path, e: Entry, skip: set<string>, path: Path)
    requires FoundVia(at, e, skip, path)
    ensures Below(at, e.name, path)
    decreases e, 0
  {
    if e.Subdir? {
      FoundBelowAt(at + [e.name], e.dir, skip, path);
      assert path[..|at|] == path[..|at| + 1][..|at|] == at;
      assert path[|at|] == path[..|at| + 1][|at|];
    }
  }

  lemma {:induction false} FoundBelowAt(at: Path, dir: Dir, skip: set<string>, path: Path)
    requires Found(at, dir, skip, path)
    ensures |at| < |path| && path[..|at|] == at
    decreases dir, 0
  {
    var i :| 0 <= i < |dir.entries| && FoundVia(at, dir.entries[i], skip, path);
    FoundViaBelow(at, dir.entries[i], skip, path);
  }

  lemma OnceTogether(a: seq<Path>, b: seq<Path>)
    requires Once(a) && Once(b) && forall p :: p in a ==> p !in b
    ensures Once(a + b)
  {
    forall i, j | 0 <= i < j < |a + b| ensures (a + b)[i] != (a + b)[j] {
      if i < |a| <= j {
        assert a[i] in a && b[j - |a|] in b;
      }
    }
  }

  lemma {:induction false} FilesOnce(at: Path, entries: seq<Entry>, included: set<Path>)
    requires forall i, j :: 0 <= i < j < |entries| ==> entries[i].name != entries[j].name
    ensures Once(Files(at, entries, included))
  {
    if entries != [] {
      var front, last := entries[..|entries| - 1], entries[|entries| - 1];
      FilesOnce(at, front, included);
      var path := at + [last.name];
      FilesFound(at, front, included, path);
      assert forall i :: 0 <= i < |front| ==> at + [front[i].name] != path by {
        forall i | 0 <= i < |front| ensures at + [front[i].name] != path {
          assert (at + [front[i].name])[|at|] != path[|at|];
        }
      }
      OnceTogether(Files(at, front, included), [path]);
    }
  }

  lemma {:induction false} SubdirsOnce(at: Path, entries: seq<Entry>, n: nat, included: set<Path>, skip: set<string>)
    requires n <= |entries| && (forall i, j :: 0 <= i < j < |entries| ==> entries[i].name != entries[j].name)
    requires forall i :: 0 <= i < |entries| ==> WellNamedBelow(entries[i])
    ensures Once(WalkSubdirs(at, entries, n, included, skip))
    decreases entries, 0, n
  {
    if n > 0 {
      SubdirsOnce(at, entries, n - 1, included, skip);
      var e, rest := entries[n - 1], WalkSubdirs(at, entries, n - 1, included, skip);
      if e.Subdir? && e.name !in skip {
        WalkOnce(at + [e.name], e.dir, included, skip);
        forall path | path in Walk(at + [e.name], e.dir, included, skip) ensures path !in rest {
          NotAmongOthers(at, entries, n - 1, included, skip, path);
        }
        OnceTogether(Walk(at + [e.name], e.dir, included, skip), rest);
      }
    }
  }

  lemma NotAmongOthers(at: Path, entries: seq<Entry>, n: nat, included: set<Path>, skip: set<string>, path: Path)
    requires n < |entries| && (forall i, j :: 0 <= i < j < |entries| ==> entries[i].name != entries[j].name)
    requires entries[n].Subdir? && entries[n].name !in skip
    requires path in Walk(at + [entries[n].name], entries[n].dir, included, skip)
    ensures path !in WalkSubdirs(at, entries, n, included, skip)
  {
    var e := entries[n];
    WalkFinds(at + [e.name], e.dir, included, skip, path);
    FoundViaBelow(at, e, skip, path);
    SubdirsFound(at, entries, n, included, skip, path);
    forall i | 0 <= i < n ensures !FoundBelow(at, entries[i], skip, path) {
      if FoundBelow(at, entries[i], skip, path) {
        FoundViaBelow(at, entries[i], skip, path);
      }
    }
  }

  /** Where names within a directory differ, the walk finds each file once. */
  lemma {:induction false} WalkOnce(at: Path, dir: Dir, included: set<Path>, skip: set<string>)
    requires WellNamed(dir)
    ensures Once(Walk(at, dir, included, skip))
    decreases dir, 1, 0
  {
    if dir.Listing? {
      var entries := dir.entries;
      FilesOnce(at, entries, included);
      SubdirsOnce(at, entries, |entries|, included, skip);
      forall path | path in Files(at, entries, included) ensures path !in WalkSubdirs(at, entries, |entries|, included, skip) {
        FilesFound(at, entries, included, path);
        SubdirsFound(at, entries, |entries|, included, skip, path);
        forall i | 0 <= i < |entries| ensures !FoundBelow(at, entries[i], skip, path) {
          if FoundBelow(at, entries[i], skip, path) {
            FoundBelowAt(at + [entries[i].name], entries[i].dir, skip, path);
          }
        }
      }
      OnceTogether(Files(at, entries, included), WalkSubdirs(at, entries, |entries|, included, skip));
    }
  }
}
