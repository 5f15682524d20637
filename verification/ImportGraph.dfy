/** The relative-import graph of a source file: which files a worklist discovers. */
module ImportGraph {
  import opened Options

  type Path = string

  // Each readable file as the regular expression sees it: its import specifiers, in order.
  type Sources = map<Path, seq<string>>

  // Where each file's specifiers resolve to, if anywhere.
  type Resolver = map<(Path, string), Path>

  predicate IsRelative(specifier: string) {
    specifier != "" && specifier[0] == '.'
  }

  /** The paths one file contributes to the queue, in the order of its specifiers. */
  function Imports(specifiers: seq<string>, from: Path, resolve: Resolver): (r: seq<Path>)
    ensures forall p :: p in r <==>
      exists i :: 0 <= i < |specifiers| && IsRelative(specifiers[i]) && (from, specifiers[i]) in resolve
                  && resolve[(from, specifiers[i])] == p
  {
    if specifiers == [] then []
    else
      var front, last := Imports(specifiers[..|specifiers| - 1], from, resolve), specifiers[|specifiers| - 1];
      if IsRelative(last) && (from, last) in resolve then front + [resolve[(from, last)]] else front
  }

  ghost predicate Edge(sources: Sources, resolve: Resolver, from: Path, to: Path) {
    from in sources && to in Imports(sources[from], from, resolve)
  }

  predicate Leads(resolve: Resolver, from: Path, specifier: string, to: Path) {
    |specifier| > 0 && specifier[0] == '.' && (from, specifier) in resolve && resolve[(from, specifier)] == to
  }

  /** One file imports another when one of its specifiers starts with a dot and resolves to it. */
  lemma EdgeExactly(sources: Sources, resolve: Resolver, from: Path, to: Path)
    ensures Edge(sources, resolve, from, to) <==>
      from in sources && exists i :: 0 <= i < |sources[from]| && Leads(resolve, from, sources[from][i], to)
  {
  }

  /** A chain of imports. */
  ghost predicate IsPath(sources: Sources, resolve: Resolver, p: seq<Path>) {
    p != [] && forall i :: 0 <= i < |p| - 1 ==> Edge(sources, resolve, p[i], p[i + 1])
  }

  ghost predicate Reachable(sources: Sources, resolve: Resolver, entry: Path, to: Path) {
    exists p :: IsPath(sources, resolve, p) && p[0] == entry && p[|p| - 1] == to
  }

  lemma ReachableStep(sources: Sources, resolve: Resolver, entry: Path, from: Path, to: Path)
    requires Reachable(sources, resolve, entry, from) && Edge(sources, resolve, from, to)
    ensures Reachable(sources, resolve, entry, to)
  {
    var p :| IsPath(sources, resolve, p) && p[0] == entry && p[|p| - 1] == from;
    assert IsPath(sources, resolve, p + [to]);
  }

  /** A set that holds the entry and is closed under imports holds all that is reachable. */
  lemma {:induction false} ClosedHolds(sources: Sources, resolve: Resolver, closed: set<Path>, p: seq<Path>)
    requires IsPath(sources, resolve, p) && p[0] in closed
    requires forall f, g :: f in closed && Edge(sources, resolve, f, g) ==> g in closed
    ensures p[|p| - 1] in closed
  {
    if |p| > 1 {
      assert Edge(sources, resolve, p[0], p[1]);
      assert IsPath(sources, resolve, p[1..]);
      ClosedHolds(sources, resolve, closed, p[1..]);
    }
  }

  /** The worklist terminates on every finite graph, cyclic or not, and returns exactly the
      files reachable from the entry; it throws exactly when one of them cannot be read. */
  method CollectRelativeImportGraph(sources: Sources, resolve: Resolver, entry: Path) returns (r: Option<set<Path>>)
    ensures r.None? <==> exists f :: Reachable(sources, resolve, entry, f) && f !in sources
    ensures r.Some? ==> forall f :: f in r.value <==> Reachable(sources, resolve, entry, f)
  {
    var discovered: set<Path> := {};
    var queue := [entry];
    assert IsPath(sources, resolve, [entry]);
    while |queue| > 0
      invariant discovered <= sources.Keys
      invariant forall f :: f in discovered || f in queue ==> Reachable(sources, resolve, entry, f)
      invariant forall f, g :: f in discovered && Edge(sources, resolve, f, g) ==> g in discovered || g in queue
      invariant entry in discovered || entry in queue
      decreases sources.Keys - discovered, |queue|
    {
      var currentPath := queue[|queue| - 1];
      ghost var before := queue;
      queue := queue[..|queue| - 1];
      assert before == queue + [currentPath];
      if currentPath in discovered {
        continue;
      }
      if currentPath !in sources {
        return None;
      }
      discovered := discovered + {currentPath};
      var found := Enqueue(sources[currentPath], currentPath, resolve);
      forall g | g in found ensures Reachable(sources, resolve, entry, g) {
        ReachableStep(sources, resolve, entry, currentPath, g);
      }
      queue := queue + found;
    }
    forall f | Reachable(sources, resolve, entry, f) ensures f in discovered {
      var p :| IsPath(sources, resolve, p) && p[0] == entry && p[|p| - 1] == f;
      ClosedHolds(sources, resolve, discovered, p);
    }
    return Some(discovered);
  }

  method Enqueue(specifiers: seq<string>, from: Path, resolve: Resolver) returns (found: seq<Path>)
    ensures found == Imports(specifiers, from, resolve)
  {
    found := [];
    for i := 0 to |specifiers|
      invariant found == Imports(specifiers[..i], from, resolve)
    {
      assert specifiers[..i + 1][..i] == specifiers[..i];
      var specifier := specifiers[i];
      if !IsRelative(specifier) {
        continue;
      }
      if (from, specifier) in resolve {
        found := found + [resolve[(from, specifier)]];
      }
    }
    assert specifiers[..|specifiers|] == specifiers;
  }
}
