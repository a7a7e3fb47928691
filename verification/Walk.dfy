/** Walking the modules reachable from an entry (script/product-boundary/closure.ts:247-330). */
module Walk {
  import opened Text
  import opened ImportClosure

  /** What a specifier resolved to: a file, a package outside the tree, or nothing although it should have resolved. */
  datatype Resolution = Target(file: Id) | Outside(package: Id) | Hole

  datatype Import = Import(specifier: string, resolution: Resolution)

  /** What a file holds: its imports in order, and the variables it imports from, which no walk can follow. */
  datatype Source = Source(imports: seq<Import>, variables: set<string>)

  /** The source tree: what each file holds, unless it cannot be read, and which files are under the followed roots. */
  datatype Tree = Tree(read: Id -> Option<Source>, underRoots: Id -> bool)

  ghost predicate Imports(tree: Tree, file: Id, specifier: string, r: Resolution) {
    tree.read(file).Some? && Import(specifier, r) in tree.read(file).value.imports
  }

  ghost predicate Follows(tree: Tree, a: Id, b: Id) {
    tree.underRoots(b) && exists specifier :: Imports(tree, a, specifier, Target(b))
  }

  ghost predicate IsWalk(tree: Tree, entry: Id, path: seq<Id>) {
    path != [] && path[0] == entry && forall i :: 0 <= i < |path| - 1 ==> Follows(tree, path[i], path[i + 1])
  }

  ghost predicate Reachable(tree: Tree, entry: Id, file: Id) {
    exists path :: IsWalk(tree, entry, path) && Last(path) == file
  }

  ghost predicate Distinct(s: seq<Id>) {
    forall i, j :: 0 <= i < j < |s| ==> s[i] != s[j]
  }

  lemma ReachStep(tree: Tree, entry: Id, a: Id, b: Id)
    requires Reachable(tree, entry, a) && Follows(tree, a, b)
    ensures Reachable(tree, entry, b)
  {
    hide Follows;
    var path :| IsWalk(tree, entry, path) && Last(path) == a;
    var longer := path + [b];
    forall i | 0 <= i < |longer| - 1 ensures Follows(tree, longer[i], longer[i + 1])
    {
      if i < |path| - 1 { assert Follows(tree, path[i], path[i + 1]); }
    }
    assert IsWalk(tree, entry, longer) && Last(longer) == b;
  }

  lemma {:induction false} ClosedHoldsWalks(tree: Tree, entry: Id, seen: set<Id>, path: seq<Id>)
    requires entry in seen && (forall a, b :: a in seen && Follows(tree, a, b) ==> b in seen)
    requires IsWalk(tree, entry, path)
    ensures Last(path) in seen
    decreases |path|
  {
    hide Follows;
    if |path| > 1 {
      var front := path[..|path| - 1];
      ClosedHoldsWalks(tree, entry, seen, front);
      assert Follows(tree, path[|path| - 2], path[|path| - 1]);
    }
  }

  datatype Miss = Miss(file: Id, specifier: string)

  const UNREADABLE := "<unreadable>"

  /** A specifier that should have resolved and did not, or a file that cannot be read. */
  ghost predicate Misses(tree: Tree, file: Id, specifier: string) {
    Imports(tree, file, specifier, Hole) || (tree.read(file).None? && specifier == UNREADABLE)
  }

  /** An import of a file that is not under the roots. */
  datatype Outsider = Outsider(from: Id, to: Id)

  datatype Dynamic = Dynamic(file: Id, variable: string)

  /** What the walk records of the files it has read. */
  datatype Found = Found(edges: seq<Edge>, packageEdges: seq<PackageEdge>, unresolved: seq<Miss>, outside: set<Outsider>, dynamic: set<Dynamic>)

  ghost predicate LeavesRoots(tree: Tree, a: Id, b: Id) {
    !tree.underRoots(b) && exists specifier :: Imports(tree, a, specifier, Target(b))
  }

  ghost predicate AmongImports(imports: seq<Import>, b: Id) {
    exists i :: 0 <= i < |imports| && imports[i].resolution == Target(b)
  }

  predicate ImportsFrom(tree: Tree, file: Id, variable: string) {
    tree.read(file).Some? && variable in tree.read(file).value.variables
  }

  ghost predicate DynamicRecorded(tree: Tree, done: set<Id>, dynamic: set<Dynamic>) {
    forall o :: o in dynamic <==> o.file in done && ImportsFrom(tree, o.file, o.variable)
  }

  /** Exactly what the first `k` imports of `file` and all imports of the files in `done` say. */
  ghost predicate Recorded(tree: Tree, done: set<Id>, file: Id, imports: seq<Import>, f: Found) {
    && (forall e :: e in f.edges <==> (e.from in done && Imports(tree, e.from, e.specifier, Target(e.to)))
                                      || (e.from == file && Import(e.specifier, Target(e.to)) in imports))
    && (forall e :: e in f.packageEdges <==> (e.from in done && Imports(tree, e.from, e.specifier, Outside(e.package)))
                                             || (e.from == file && Import(e.specifier, Outside(e.package)) in imports))
    && (forall m :: m in f.unresolved <==> (m.file in done && Misses(tree, m.file, m.specifier))
                                           || (m.file == file && Import(m.specifier, Hole) in imports))
    && (forall o :: o in f.outside <==> (o.from in done && LeavesRoots(tree, o.from, o.to))
                                        || (o.from == file && !tree.underRoots(o.to) && AmongImports(imports, o.to)))
  }

  function AddImport(tree: Tree, f: Found, file: Id, i: Import): Found {
    match i.resolution
    case Hole => f.(unresolved := f.unresolved + [Miss(file, i.specifier)])
    case Outside(package) => f.(packageEdges := f.packageEdges + [PackageEdge(file, package, i.specifier)])
    case Target(target) =>
      f.(edges := f.edges + [Edge(file, target, i.specifier)],
         outside := if tree.underRoots(target) then f.outside else f.outside + {Outsider(file, target)})
  }

  lemma AddImportRecords(tree: Tree, done: set<Id>, file: Id, imports: seq<Import>, i: Import, f: Found)
    requires Recorded(tree, done, file, imports, f)
    ensures Recorded(tree, done, file, imports + [i], AddImport(tree, f, file, i))
  {
    hide Imports, LeavesRoots, AmongImports;
    AmongMore(imports, i);
  }

  lemma AmongMore(imports: seq<Import>, i: Import)
    ensures forall b :: AmongImports(imports + [i], b) <==> AmongImports(imports, b) || i.resolution == Target(b)
  {
    var more := imports + [i];
    assert more[|imports|] == i;
    forall b | AmongImports(imports, b) ensures AmongImports(more, b)
    {
      var k :| 0 <= k < |imports| && imports[k].resolution == Target(b);
      assert more[k].resolution == Target(b);
    }
  }

  /** A file that cannot be read is recorded as one miss. */
  function ImportsOf(tree: Tree, file: Id): seq<Import> {
    if tree.read(file).Some? then tree.read(file).value.imports else [Import(UNREADABLE, Hole)]
  }

  lemma FileRecorded(tree: Tree, done: set<Id>, file: Id, f: Found)
    requires Recorded(tree, done, file, ImportsOf(tree, file), f)
    ensures Recorded(tree, done + {file}, 0, [], f)
  {
    forall b ensures AmongImports(ImportsOf(tree, file), b) <==> exists specifier :: Imports(tree, file, specifier, Target(b))
    {
      AmongIsImports(tree, file, b);
    }
  }

  lemma AmongIsImports(tree: Tree, file: Id, b: Id)
    ensures AmongImports(ImportsOf(tree, file), b) <==> exists specifier :: Imports(tree, file, specifier, Target(b))
  {
    var imports := ImportsOf(tree, file);
    if AmongImports(imports, b) {
      var i :| 0 <= i < |imports| && imports[i].resolution == Target(b);
      assert imports[i] == Import(imports[i].specifier, Target(b)) && imports[i] in imports;
      assert Imports(tree, file, imports[i].specifier, Target(b));
    }
    if specifier :| Imports(tree, file, specifier, Target(b)) {
      var i :| 0 <= i < |imports| && imports[i] == Import(specifier, Target(b));
      assert imports[i].resolution == Target(b);
    }
  }

  function SetOf(s: seq<Id>): set<Id> {
    set x | x in s
  }

  /** Exactly what the files say is recorded. */
  ghost predicate AllRecorded(tree: Tree, files: seq<Id>, f: Found) {
    Recorded(tree, SetOf(files), 0, [], f) && DynamicRecorded(tree, SetOf(files), f.dynamic)
  }

  /** Reads one file: records its imports and queues the unseen files it follows. */
  method ReadFile(tree: Tree, entry: Id, file: Id, known: set<Id>, found: Found, queued: seq<Id>, ghost done: set<Id>, ghost rest: seq<Id>)
    returns (seen: set<Id>, next: seq<Id>, f: Found)
    requires Recorded(tree, done, 0, [], found) && DynamicRecorded(tree, done, found.dynamic)
    requires Distinct(rest + queued) && forall x :: x in known <==> x in rest + queued
    requires Reachable(tree, entry, file) && forall x :: x in known ==> Reachable(tree, entry, x)
    ensures Recorded(tree, done + {file}, 0, [], f) && DynamicRecorded(tree, done + {file}, f.dynamic)
    ensures known <= seen && Distinct(rest + next) && forall x :: x in seen <==> x in rest + next
    ensures forall x :: x in seen ==> Reachable(tree, entry, x)
    ensures forall b :: Follows(tree, file, b) ==> b in seen
    ensures forall x :: x in seen ==> x in known || Follows(tree, file, x)
  {
    seen, next, f := known, queued, found;
    RecordedNone(tree, done, file, found);
    if tree.read(file).None? {
      AddImportRecords(tree, done, file, [], Import(UNREADABLE, Hole), f);
      assert [] + [Import(UNREADABLE, Hole)] == ImportsOf(tree, file);
      f := AddImport(tree, f, file, Import(UNREADABLE, Hole));
    } else {
      var imports := tree.read(file).value.imports;
      f := f.(dynamic := f.dynamic + set v | v in tree.read(file).value.variables :: Dynamic(file, v));
      for k := 0 to |imports|
        invariant Recorded(tree, done, file, imports[..k], f) && DynamicRecorded(tree, done + {file}, f.dynamic)
        invariant known <= seen && Distinct(rest + next) && forall x :: x in seen <==> x in rest + next
        invariant forall x :: x in seen ==> Reachable(tree, entry, x)
        invariant forall x :: x in seen ==> x in known || Follows(tree, file, x)
        invariant forall i :: 0 <= i < k && imports[i].resolution.Target? && tree.underRoots(imports[i].resolution.file) ==>
          imports[i].resolution.file in seen
      {
        var i := imports[k];
        AddImportRecords(tree, done, file, imports[..k], i, f);
        assert imports[..k + 1] == imports[..k] + [i];
        f := AddImport(tree, f, file, i);
        if i.resolution.Target? && tree.underRoots(i.resolution.file) && i.resolution.file !in seen {
          var target := i.resolution.file;
          assert Imports(tree, file, i.specifier, Target(target));
          ReachStep(tree, entry, file, target);
          Queue(rest, next, seen, target);
          seen := seen + {target};
          next := next + [target];
        }
      }
      assert imports[..|imports|] == imports;
    }
    FileRecorded(tree, done, file, f);
  }

  lemma RecordedNone(tree: Tree, done: set<Id>, file: Id, f: Found)
    requires Recorded(tree, done, 0, [], f)
    ensures Recorded(tree, done, file, [], f)
  {
  }

  lemma Queue(rest: seq<Id>, next: seq<Id>, seen: set<Id>, x: Id)
    requires Distinct(rest + next) && (forall y :: y in seen <==> y in rest + next) && x !in seen
    ensures Distinct(rest + (next + [x])) && forall y :: y in seen + {x} <==> y in rest + (next + [x])
  {
    assert rest + (next + [x]) == (rest + next) + [x];
  }

  /** The files read and still to read are distinct, all seen and all reachable; what the read files follow is seen. */
  ghost predicate Progress(tree: Tree, entry: Id, seen: set<Id>, modules: seq<Id>, pending: seq<Id>) {
    && Distinct(modules + pending) && (forall x :: x in seen <==> x in modules + pending) && entry in seen
    && (forall x :: x in seen ==> Reachable(tree, entry, x))
    && (forall a, b :: a in modules && Follows(tree, a, b) ==> b in seen)
  }

  lemma SetOfAppend(s: seq<Id>, x: Id)
    ensures SetOf(s + [x]) == SetOf(s) + {x}
  {
  }

  lemma DistinctSize(s: seq<Id>, t: seq<Id>)
    requires Distinct(s + t) && t != []
    ensures t[0] !in s
  {
    assert (s + t)[|s|] == t[0];
    forall i | 0 <= i < |s| ensures s[i] != t[0] { assert (s + t)[i] == s[i]; }
  }

  /** One breadth-first level: reads every file of the frontier. */
  method WalkLevel(tree: Tree, entry: Id, frontier: seq<Id>, known: set<Id>, read: seq<Id>, found: Found, ghost files: set<Id>)
    returns (seen: set<Id>, next: seq<Id>, modules: seq<Id>, f: Found)
    requires Progress(tree, entry, known, read, frontier) && AllRecorded(tree, read, found)
    requires known <= files && forall a, b :: a in files && Follows(tree, a, b) ==> b in files
    ensures Progress(tree, entry, seen, modules, next) && AllRecorded(tree, modules, f)
    ensures seen <= files && SetOf(read) <= SetOf(modules) && SetOf(frontier) <= SetOf(modules)
  {
    hide Follows, Reachable, Recorded, DynamicRecorded;
    seen, next, modules, f := known, [], read, found;
    assert frontier[0..] + [] == frontier;
    for k := 0 to |frontier|
      invariant Progress(tree, entry, seen, modules, frontier[k..] + next) && AllRecorded(tree, modules, f)
      invariant seen <= files && SetOf(read) <= SetOf(modules) && SetOf(frontier[..k]) <= SetOf(modules)
    {
      var file := frontier[k];
      ghost var rest := modules + [file] + frontier[k + 1..];
      assert modules + (frontier[k..] + next) == rest + next;
      assert file in rest + next;
      ghost var before := modules;
      modules := modules + [file];
      SetOfAppend(before, file);
      ghost var seen1 := seen;
      seen, next, f := ReadFile(tree, entry, file, seen, f, next, SetOf(before), rest);
      assert modules + (frontier[k + 1..] + next) == rest + next;
      assert frontier[..k + 1] == frontier[..k] + [file];
      SetOfAppend(frontier[..k], file);
    }
    assert frontier[..|frontier|] == frontier && frontier[|frontier|..] + next == next;
  }

  /** The closure of the entry: the files reachable under the roots, and exactly their imports and package imports. */
  ghost predicate IsClosureOf(tree: Tree, entry: Id, c: Closure) {
    && c.entry == entry && (forall file :: file in c.modules <==> Reachable(tree, entry, file))
    && (forall e :: e in c.edges <==> Reachable(tree, entry, e.from) && Imports(tree, e.from, e.specifier, Target(e.to)))
    && (forall e :: e in c.packageEdges <==> Reachable(tree, entry, e.from) && Imports(tree, e.from, e.specifier, Outside(e.package)))
  }

  /**
   * Visits exactly the files reachable from the entry under the roots, each once, and records exactly their imports, package
   * imports, misses, imports that leave the roots and imports from variables. `files` is any finite set that holds the entry and is closed under following; it makes the walk end.
   */
  method WalkFrom(tree: Tree, entry: Id, ghost files: set<Id>)
    returns (c: Closure, unresolved: seq<Miss>, outside: set<Outsider>, dynamic: set<Dynamic>)
    requires entry in files && forall a, b :: a in files && Follows(tree, a, b) ==> b in files
    ensures IsClosureOf(tree, entry, c) && Distinct(c.modules)
    ensures forall m :: m in unresolved <==> Reachable(tree, entry, m.file) && Misses(tree, m.file, m.specifier)
    ensures forall o :: o in outside <==> Reachable(tree, entry, o.from) && LeavesRoots(tree, o.from, o.to)
    ensures forall o :: o in dynamic <==> Reachable(tree, entry, o.file) && ImportsFrom(tree, o.file, o.variable)
  {
    hide Follows;
    var seen, frontier, modules := {entry}, [entry], [];
    var found := Found([], [], [], {}, {});
    assert IsWalk(tree, entry, [entry]) && Last([entry]) == entry;
    while frontier != []
      invariant Progress(tree, entry, seen, modules, frontier) && AllRecorded(tree, modules, found)
      invariant seen <= files
      decreases files - SetOf(modules)
    {
      ghost var before := SetOf(modules);
      DistinctSize(modules, frontier);
      assert frontier[0] in SetOf(frontier) && frontier[0] in seen;
      var next;
      seen, next, modules, found := WalkLevel(tree, entry, frontier, seen, modules, found, files);
      frontier := next;
    }
    assert modules + [] == modules;
    forall file | Reachable(tree, entry, file) ensures file in modules
    {
      var path :| IsWalk(tree, entry, path) && Last(path) == file;
      ClosedHoldsWalks(tree, entry, seen, path);
    }
    c, unresolved := Closure(entry, modules, found.edges, found.packageEdges), found.unresolved;
    outside, dynamic := found.outside, found.dynamic;
  }

  // ---------------------------------------------------------------- searching what was walked

  /** A file that a reachable file imports, under the roots or not. */
  ghost predicate Imported(tree: Tree, entry: Id, b: Id) {
    exists a, specifier :: Reachable(tree, entry, a) && Imports(tree, a, specifier, Target(b))
  }

  ghost predicate PackageImported(tree: Tree, entry: Id, e: PackageEdge) {
    Reachable(tree, entry, e.from) && Imports(tree, e.from, e.specifier, Outside(e.package))
  }

  /** The entry, a file it reaches, or a package import of one is forbidden. */
  ghost predicate ReachesForbidden(tree: Tree, entry: Id, policy: Policy) {
    || (exists b :: (b == entry || Imported(tree, entry, b)) && policy.forbidsModule(b))
    || (exists e :: PackageImported(tree, entry, e) && policy.forbidsPackage(e))
  }

  lemma FollowedIsEdge(tree: Tree, entry: Id, c: Closure, a: Id, b: Id, specifier: string)
    requires IsClosureOf(tree, entry, c) && Reachable(tree, entry, a) && Imports(tree, a, specifier, Target(b))
    ensures IsEdge(c.edges, a, b)
  {
    hide Reachable, Imports;
    var e := Edge(a, b, specifier);
    assert e in c.edges;
    var i :| 0 <= i < |c.edges| && c.edges[i] == e;
    assert c.edges[i].from == a && c.edges[i].to == b;
  }

  /** A walk of the tree is a path of the closure. */
  lemma WalkIsPath(tree: Tree, entry: Id, c: Closure, path: seq<Id>)
    requires IsClosureOf(tree, entry, c) && IsWalk(tree, entry, path)
    ensures IsPath(c.entry, c.edges, path)
  {
    hide Imports, IsEdge;
    forall i | 0 <= i < |path| - 1 ensures IsEdge(c.edges, path[i], path[i + 1])
    {
      var front := path[..i + 1];
      assert IsWalk(tree, entry, front) && Last(front) == path[i];
      assert Follows(tree, path[i], path[i + 1]);
      var specifier :| Imports(tree, path[i], specifier, Target(path[i + 1]));
      FollowedIsEdge(tree, entry, c, path[i], path[i + 1], specifier);
    }
  }

  /** Every path of the closure ends at the entry or at an imported file. */
  lemma PathEndsImported(tree: Tree, entry: Id, c: Closure, path: seq<Id>)
    requires IsClosureOf(tree, entry, c) && IsPath(c.entry, c.edges, path)
    ensures Last(path) == entry || Imported(tree, entry, Last(path))
  {
    hide Reachable, Imports;
    if |path| > 1 {
      var n := |path| - 2;
      assert IsEdge(c.edges, path[n], path[n + 1]);
      var i :| 0 <= i < |c.edges| && c.edges[i].from == path[n] && c.edges[i].to == path[n + 1];
      assert c.edges[i] in c.edges;
      assert Reachable(tree, entry, path[n]) && Imports(tree, path[n], c.edges[i].specifier, Target(Last(path)));
    }
  }

  lemma ReachableHasPath(tree: Tree, entry: Id, c: Closure, a: Id) returns (path: seq<Id>)
    requires IsClosureOf(tree, entry, c) && Reachable(tree, entry, a)
    ensures IsPath(c.entry, c.edges, path) && Last(path) == a
  {
    hide IsPath, Follows;
    path :| IsWalk(tree, entry, path) && Last(path) == a;
    WalkIsPath(tree, entry, c, path);
  }

  lemma ForbiddenHasChain(tree: Tree, entry: Id, c: Closure, policy: Policy)
    requires IsClosureOf(tree, entry, c) && ReachesForbidden(tree, entry, policy)
    ensures exists hops :: IsChain(c, policy, hops)
  {
    hide Reachable, Imports, IsEdge;
    if b :| (b == entry || Imported(tree, entry, b)) && policy.forbidsModule(b) {
      var path := [entry];
      if b != entry {
        var a, specifier :| Reachable(tree, entry, a) && Imports(tree, a, specifier, Target(b));
        var front := ReachableHasPath(tree, entry, c, a);
        FollowedIsEdge(tree, entry, c, a, b, specifier);
        path := front + [b];
      }
      assert EndsBadly(c, policy, path);
      assert IsChain(c, policy, Hops(path));
    } else {
      var e :| PackageImported(tree, entry, e) && policy.forbidsPackage(e);
      var path := ReachableHasPath(tree, entry, c, e.from);
      assert ImportsBadly(c, policy, path, e);
      assert IsChain(c, policy, Hops(path) + [Package(e.specifier)]);
    }
  }

  lemma ChainIsForbidden(tree: Tree, entry: Id, c: Closure, policy: Policy, hops: seq<Hop>)
    requires IsClosureOf(tree, entry, c) && IsChain(c, policy, hops)
    ensures ReachesForbidden(tree, entry, policy)
  {
    hide Reachable, Imports, IsPath, Imported;
    if path :| EndsBadly(c, policy, path) && hops == Hops(path) {
      PathEndsImported(tree, entry, c, path);
    } else {
      var path, e :| ImportsBadly(c, policy, path, e) && hops == Hops(path) + [Package(e.specifier)];
      assert PackageImported(tree, entry, e);
    }
  }

  /** In the tree itself, no walk to a forbidden file is shorter than the chain. */
  lemma NoWalkShorter(tree: Tree, entry: Id, c: Closure, policy: Policy, n: nat)
    requires IsClosureOf(tree, entry, c) && NoneShorter(c, policy, n)
    ensures forall path :: IsWalk(tree, entry, path) && policy.forbidsModule(Last(path)) ==> |path| >= n
  {
    hide IsClosureOf, IsPath, Follows;
    forall path | IsWalk(tree, entry, path) && policy.forbidsModule(Last(path)) ensures |path| >= n
    {
      WalkIsPath(tree, entry, c, path);
      assert EndsBadly(c, policy, path);
    }
  }

  /**
   * Walking the tree and searching its closure finds nothing exactly when nothing the entry reaches in the tree is forbidden, and
   * otherwise a chain such that no walk of the tree to a forbidden file is shorter.
   */
  method SearchTree(tree: Tree, entry: Id, policy: Policy, ghost files: set<Id>) returns (chain: Option<seq<Hop>>)
    requires entry in files && forall a, b :: a in files && Follows(tree, a, b) ==> b in files
    ensures chain.None? <==> !ReachesForbidden(tree, entry, policy)
    ensures chain.Some? ==> forall path :: IsWalk(tree, entry, path) && policy.forbidsModule(Last(path)) ==> |path| >= |chain.value|
  {
    hide IsClosureOf, ReachesForbidden, IsChain, NoneShorter, IsWalk;
    var c, _, _, _ := WalkFrom(tree, entry, files);
    chain := ShortestChain(c, policy);
    if ReachesForbidden(tree, entry, policy) { ForbiddenHasChain(tree, entry, c, policy); }
    if chain.Some? {
      ChainIsForbidden(tree, entry, c, policy, chain.value);
      NoWalkShorter(tree, entry, c, policy, |chain.value|);
    }
  }
}
