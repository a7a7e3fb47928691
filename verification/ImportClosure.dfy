/**
 * The import closure of a product entry, and the shortest chain from the entry to something forbidden
 * (script/product-boundary/closure.ts:247-330 and 350-391).
 *
 * Reading and resolving are a parameter: for each module, either nothing (it cannot be read) or the resolutions of its
 * specifiers in order. A number stands for each module and each package.
 */
module ImportClosure {
  import opened Text

  type Id = nat

  datatype Edge = Edge(from: Id, to: Id, specifier: string)

  datatype PackageEdge = PackageEdge(from: Id, package: Id, specifier: string)

  datatype Closure = Closure(entry: Id, modules: seq<Id>, edges: seq<Edge>, packageEdges: seq<PackageEdge>)

  // ---------------------------------------------------------------- paths

  ghost predicate IsEdge(edges: seq<Edge>, a: Id, b: Id) {
    exists i :: 0 <= i < |edges| && edges[i].from == a && edges[i].to == b
  }

  /** A path of module imports that starts at the entry. */
  ghost predicate IsPath(entry: Id, edges: seq<Edge>, path: seq<Id>) {
    path != [] && path[0] == entry && forall i :: 0 <= i < |path| - 1 ==> IsEdge(edges, path[i], path[i + 1])
  }

  function Last(path: seq<Id>): Id
    requires path != []
  {
    path[|path| - 1]
  }

  datatype Hop = Module(id: Id) | Package(specifier: string)

  function Hops(path: seq<Id>): (hops: seq<Hop>)
    ensures |hops| == |path|
    ensures forall i :: 0 <= i < |path| ==> hops[i] == Module(path[i])
  {
    seq(|path|, i requires 0 <= i < |path| => Module(path[i]))
  }

  /** What the caller forbids: modules by id, package edges by anything the edge says. */
  datatype Policy = Policy(forbidsModule: Id -> bool, forbidsPackage: PackageEdge -> bool)

  /** The path ends at a forbidden module. */
  ghost predicate EndsBadly(c: Closure, policy: Policy, path: seq<Id>) {
    IsPath(c.entry, c.edges, path) && policy.forbidsModule(Last(path))
  }

  /** The path ends at a module with a forbidden package edge. */
  ghost predicate ImportsBadly(c: Closure, policy: Policy, path: seq<Id>, e: PackageEdge) {
    IsPath(c.entry, c.edges, path) && e in c.packageEdges && e.from == Last(path) && policy.forbidsPackage(e)
  }

  /** A real chain: a path to a forbidden module, or a path and the specifier of a forbidden package edge. */
  ghost predicate IsChain(c: Closure, policy: Policy, chain: seq<Hop>) {
    || (exists path :: EndsBadly(c, policy, path) && chain == Hops(path))
    || (exists path, e :: ImportsBadly(c, policy, path, e) && chain == Hops(path) + [Package(e.specifier)])
  }

  /** No chain is shorter than `n` hops. */
  ghost predicate NoneShorter(c: Closure, policy: Policy, n: nat) {
    && (forall path :: EndsBadly(c, policy, path) ==> |path| >= n)
    && (forall path, e :: ImportsBadly(c, policy, path, e) ==> |path| + 1 >= n)
  }

  // ---------------------------------------------------------------- the search

  datatype Visit = Visit(id: Id, chain: seq<Id>)

  ghost function Ids(visits: seq<Visit>): set<Id> {
    set i | 0 <= i < |visits| :: visits[i].id
  }

  /** The search has looked at all of these: their imports were seen, and none of their package edges is forbidden. */
  ghost predicate LookedAt(c: Closure, policy: Policy, done: set<Id>, seen: set<Id>) {
    && (forall i :: 0 <= i < |c.edges| && c.edges[i].from in done ==> c.edges[i].to in seen)
    && (forall e :: e in c.packageEdges && e.from in done ==> !policy.forbidsPackage(e))
  }

  ghost predicate ChainsReal(c: Closure, visits: seq<Visit>, n: nat) {
    forall i :: 0 <= i < |visits| ==> IsPath(c.entry, c.edges, visits[i].chain) && Last(visits[i].chain) == visits[i].id && |visits[i].chain| == n
  }

  /** Everything within `n` modules of the entry is in the set. */
  ghost predicate HoldsWithin(c: Closure, ids: set<Id>, n: nat) {
    forall path :: IsPath(c.entry, c.edges, path) && |path| <= n ==> Last(path) in ids
  }

  lemma PathPrefix(entry: Id, edges: seq<Edge>, path: seq<Id>, n: nat)
    requires IsPath(entry, edges, path) && 1 <= n <= |path|
    ensures IsPath(entry, edges, path[..n])
  {
  }

  lemma PathExtends(entry: Id, edges: seq<Edge>, path: seq<Id>, i: nat)
    requires IsPath(entry, edges, path) && i < |edges| && edges[i].from == Last(path)
    ensures IsPath(entry, edges, path + [edges[i].to])
  {
    var longer := path + [edges[i].to];
    forall k | 0 <= k < |longer| - 1 ensures IsEdge(edges, longer[k], longer[k + 1])
    {
      if k < |path| - 1 {
        assert IsEdge(edges, path[k], path[k + 1]);
      } else {
        assert edges[i].from == longer[k] && edges[i].to == longer[k + 1];
      }
    }
  }

  /** Once everything within `n` modules has been looked at, everything within `n + 1` has been seen. */
  lemma NextLevel(c: Closure, policy: Policy, done: set<Id>, seen: set<Id>, n: nat)
    requires HoldsWithin(c, done, n) && LookedAt(c, policy, done, seen) && done <= seen && n >= 1
    ensures HoldsWithin(c, seen, n + 1)
  {
    forall path | IsPath(c.entry, c.edges, path) && |path| <= n + 1 ensures Last(path) in seen
    {
      if |path| == n + 1 {
        var front := path[..n];
        PathPrefix(c.entry, c.edges, path, n);
        assert Last(front) in done;
        assert IsEdge(c.edges, path[n - 1], path[n]);
      }
    }
  }

  /** A set that holds the entry and is closed under imports holds every path's end. */
  lemma {:induction false} ClosedHoldsAll(c: Closure, policy: Policy, seen: set<Id>, path: seq<Id>)
    requires c.entry in seen && LookedAt(c, policy, seen, seen) && IsPath(c.entry, c.edges, path)
    ensures Last(path) in seen
    decreases |path|
  {
    if |path| > 1 {
      var front := path[..|path| - 1];
      PathPrefix(c.entry, c.edges, path, |path| - 1);
      ClosedHoldsAll(c, policy, seen, front);
      assert IsEdge(c.edges, path[|path| - 2], path[|path| - 1]);
    }
  }

  method FindForbiddenPackage(c: Closure, policy: Policy, id: Id) returns (hit: Option<PackageEdge>)
    ensures hit.Some? ==> hit.value in c.packageEdges && hit.value.from == id && policy.forbidsPackage(hit.value)
    ensures hit.None? ==> forall e :: e in c.packageEdges && e.from == id ==> !policy.forbidsPackage(e)
  {
    for i := 0 to |c.packageEdges|
      invariant forall k :: 0 <= k < i && c.packageEdges[k].from == id ==> !policy.forbidsPackage(c.packageEdges[k])
    {
      if c.packageEdges[i].from == id && policy.forbidsPackage(c.packageEdges[i]) {
        return Some(c.packageEdges[i]);
      }
    }
    return None;
  }

  ghost predicate Clean(policy: Policy, seen: set<Id>) {
    forall id :: id in seen ==> !policy.forbidsModule(id)
  }

  lemma IdsAppend(visits: seq<Visit>, v: Visit)
    ensures Ids(visits + [v]) == Ids(visits) + {v.id}
  {
    var all := visits + [v];
    forall id | id in Ids(visits) + {v.id} ensures id in Ids(all)
    {
      if id == v.id {
        assert all[|visits|].id == id;
      } else {
        var i :| 0 <= i < |visits| && visits[i].id == id;
        assert all[i].id == id;
      }
    }
    forall id | id in Ids(all) ensures id in Ids(visits) + {v.id}
    {
      var i :| 0 <= i < |all| && all[i].id == id;
      assert i < |visits| ==> visits[i].id == id;
    }
  }

  /** Follows the imports of one visited module; stops at the first unseen one that is forbidden. */
  method Expand(c: Closure, policy: Policy, visit: Visit, known: set<Id>, queued: seq<Visit>)
    returns (seen: set<Id>, next: seq<Visit>, hit: Option<seq<Id>>)
    requires IsPath(c.entry, c.edges, visit.chain) && Last(visit.chain) == visit.id
    requires ChainsReal(c, queued, |visit.chain| + 1) && Clean(policy, known)
    ensures hit.Some? ==> EndsBadly(c, policy, hit.value) && |hit.value| == |visit.chain| + 1
    ensures hit.None? ==> known <= seen && queued <= next && seen == known + Ids(next[|queued|..])
    ensures hit.None? ==> ChainsReal(c, next, |visit.chain| + 1) && Clean(policy, seen)
    ensures hit.None? ==> forall i :: 0 <= i < |c.edges| && c.edges[i].from == visit.id ==> c.edges[i].to in seen
    ensures hit.None? ==> forall k :: |queued| <= k < |next| ==> next[k].id !in known
    ensures hit.None? ==> forall id :: id in seen ==> id in known || exists i :: 0 <= i < |c.edges| && c.edges[i].to == id
  {
    seen, next, hit := known, queued, None;
    for i := 0 to |c.edges|
      invariant known <= seen && queued <= next && Clean(policy, seen) && ChainsReal(c, next, |visit.chain| + 1)
      invariant seen == known + Ids(next[|queued|..])
      invariant forall k :: 0 <= k < i && c.edges[k].from == visit.id ==> c.edges[k].to in seen
      invariant forall k :: |queued| <= k < |next| ==> next[k].id !in known
      invariant forall id :: id in seen ==> id in known || exists j :: 0 <= j < |c.edges| && c.edges[j].to == id
    {
      var edge := c.edges[i];
      if edge.from != visit.id || edge.to in seen { continue; }
      var chain := visit.chain + [edge.to];
      PathExtends(c.entry, c.edges, visit.chain, i);
      if policy.forbidsModule(edge.to) {
        hit := Some(chain);
        return;
      }
      seen := seen + {edge.to};
      IdsAppend(next[|queued|..], Visit(edge.to, chain));
      assert (next + [Visit(edge.to, chain)])[|queued|..] == next[|queued|..] + [Visit(edge.to, chain)];
      next := next + [Visit(edge.to, chain)];
    }
  }

  /** Between levels: the frontier is what is seen but not looked at, `n` modules from the entry, with its real chains. */
  ghost predicate Level(c: Closure, policy: Policy, n: nat, done: set<Id>, seen: set<Id>, frontier: seq<Visit>) {
    && n >= 1 && c.entry in seen && done <= seen && Ids(frontier) == seen - done
    && LookedAt(c, policy, done, seen) && Clean(policy, seen) && ChainsReal(c, frontier, n)
    && HoldsWithin(c, done, n - 1) && HoldsWithin(c, seen, n)
  }

  /** While a level is looked at: `k` of the frontier are done, and the next frontier is what was newly seen. */
  ghost predicate Within(c: Closure, policy: Policy, n: nat, done: set<Id>, seen0: set<Id>, frontier: seq<Visit>, k: nat,
                         seen: set<Id>, next: seq<Visit>)
  {
    && k <= |frontier| && seen0 <= seen && seen == seen0 + Ids(next) && Ids(next) !! seen0
    && LookedAt(c, policy, done + Ids(frontier[..k]), seen) && Clean(policy, seen) && ChainsReal(c, next, n + 1)
  }

  lemma NothingShorter(c: Closure, policy: Policy, n: nat, done: set<Id>, seen: set<Id>, frontier: seq<Visit>)
    requires Level(c, policy, n, done, seen, frontier)
    ensures NoneShorter(c, policy, n + 1)
  {
    hide IsEdge, ChainsReal, Ids;
    forall path | EndsBadly(c, policy, path) ensures |path| >= n + 1 {}
    forall path, e | ImportsBadly(c, policy, path, e) ensures |path| + 1 >= n + 1 {}
  }

  lemma NothingAtAll(c: Closure, policy: Policy, n: nat, seen: set<Id>, chain: seq<Hop>)
    requires Level(c, policy, n, seen, seen, [])
    ensures !IsChain(c, policy, chain)
  {
    hide IsEdge, ChainsReal, HoldsWithin;
    forall path | IsPath(c.entry, c.edges, path) ensures Last(path) in seen { ClosedHoldsAll(c, policy, seen, path); }
  }

  lemma IdsTake(visits: seq<Visit>, k: nat)
    requires k < |visits|
    ensures Ids(visits[..k + 1]) == Ids(visits[..k]) + {visits[k].id}
  {
    assert visits[..k + 1] == visits[..k] + [visits[k]];
    IdsAppend(visits[..k], visits[k]);
  }

  lemma IdsConcat(a: seq<Visit>, b: seq<Visit>)
    ensures Ids(a + b) == Ids(a) + Ids(b)
    decreases |b|
  {
    if b == [] {
      assert a + b == a;
    } else {
      var front, last := b[..|b| - 1], b[|b| - 1];
      assert a + b == (a + front) + [last] && b == front + [last];
      IdsConcat(a, front);
      IdsAppend(a + front, last);
      IdsAppend(front, last);
    }
  }

  /** One more module of the frontier has been looked at. */
  lemma WithinStep(c: Closure, policy: Policy, n: nat, done: set<Id>, seen0: set<Id>, frontier: seq<Visit>, k: nat,
                   seen: set<Id>, next: seq<Visit>, seen': set<Id>, next': seq<Visit>)
    requires k < |frontier| && Within(c, policy, n, done, seen0, frontier, k, seen, next)
    requires seen <= seen' && next <= next' && seen' == seen + Ids(next'[|next|..]) && Clean(policy, seen') && ChainsReal(c, next', n + 1)
    requires forall i :: 0 <= i < |c.edges| && c.edges[i].from == frontier[k].id ==> c.edges[i].to in seen'
    requires forall i :: |next| <= i < |next'| ==> next'[i].id !in seen
    requires forall e :: e in c.packageEdges && e.from == frontier[k].id ==> !policy.forbidsPackage(e)
    ensures Within(c, policy, n, done, seen0, frontier, k + 1, seen', next')
  {
    hide ChainsReal, Clean;
    IdsTake(frontier, k);
    assert next' == next + next'[|next|..];
    IdsConcat(next, next'[|next|..]);
    forall id | id in Ids(next'[|next|..]) ensures id !in seen0
    {
      var i :| 0 <= i < |next'[|next|..]| && next'[|next|..][i].id == id;
      assert next'[|next| + i].id == id;
    }
  }

  /** A level that has been looked at entirely gives the next one. */
  lemma LevelDone(c: Closure, policy: Policy, n: nat, done: set<Id>, seen0: set<Id>, frontier: seq<Visit>, seen: set<Id>, next: seq<Visit>)
    requires Level(c, policy, n, done, seen0, frontier) && Within(c, policy, n, done, seen0, frontier, |frontier|, seen, next)
    ensures Level(c, policy, n + 1, seen0, seen, next)
  {
    hide ChainsReal, Clean, IsPath;
    assert frontier[..|frontier|] == frontier;
    assert done + Ids(frontier) == seen0;
    NextLevel(c, policy, seen0, seen, n);
  }

  lemma EntryLevel(c: Closure, policy: Policy)
    requires !policy.forbidsModule(c.entry)
    ensures Level(c, policy, 1, {}, {c.entry}, [Visit(c.entry, [c.entry])])
  {
    var visits := [Visit(c.entry, [c.entry])];
    assert visits[0].id == c.entry;
    assert Ids(visits) == {c.entry};
  }

  /** Every module a search can meet. */
  ghost function Universe(c: Closure): set<Id> {
    {c.entry} + set i | 0 <= i < |c.edges| :: c.edges[i].to
  }

  /** Looks at one level of the search; a hit is a chain of the level's next length. */
  method SearchLevel(c: Closure, policy: Policy, ghost n: nat, ghost done: set<Id>, known: set<Id>, frontier: seq<Visit>)
    returns (seen: set<Id>, next: seq<Visit>, hit: Option<seq<Hop>>)
    requires Level(c, policy, n, done, known, frontier) && known <= Universe(c)
    ensures hit.Some? ==> IsChain(c, policy, hit.value) && |hit.value| == n + 1
    ensures hit.None? ==> Level(c, policy, n + 1, known, seen, next) && seen <= Universe(c)
  {
    hide IsPath, ChainsReal, LookedAt, HoldsWithin, Clean, Ids;
    seen, next, hit := known, [], None;
    LevelBegins(c, policy, n, done, seen, frontier);
    for k := 0 to |frontier|
      invariant Within(c, policy, n, done, known, frontier, k, seen, next) && seen <= Universe(c)
    {
      var visit := frontier[k];
      FrontierChain(c, frontier, k, n);
      var package := FindForbiddenPackage(c, policy, visit.id);
      if package.Some? {
        assert ImportsBadly(c, policy, visit.chain, package.value);
        hit := Some(Hops(visit.chain) + [Package(package.value.specifier)]);
        return;
      }
      ghost var seen1, next1 := seen, next;
      var bad;
      seen, next, bad := Expand(c, policy, visit, seen, next);
      if bad.Some? {
        hit := Some(Hops(bad.value));
        return;
      }
      WithinStep(c, policy, n, done, known, frontier, k, seen1, next1, seen, next);
      InUniverse(c, seen1, seen);
    }
    LevelDone(c, policy, n, done, known, frontier, seen, next);
  }

  lemma InUniverse(c: Closure, known: set<Id>, seen: set<Id>)
    requires known <= Universe(c) && forall id :: id in seen ==> id in known || exists i :: 0 <= i < |c.edges| && c.edges[i].to == id
    ensures seen <= Universe(c)
  {
  }

  lemma EntryIsBad(c: Closure, policy: Policy)
    requires policy.forbidsModule(c.entry)
    ensures IsChain(c, policy, [Module(c.entry)]) && NoneShorter(c, policy, 1)
  {
    assert EndsBadly(c, policy, [c.entry]);
    assert Hops([c.entry]) == [Module(c.entry)];
  }

  /** The shortest chain from the entry to a forbidden module or package edge, or nothing when there is none. */
  method ShortestChain(c: Closure, policy: Policy) returns (chain: Option<seq<Hop>>)
    ensures chain.None? ==> forall hops :: !IsChain(c, policy, hops)
    ensures chain.Some? ==> IsChain(c, policy, chain.value) && NoneShorter(c, policy, |chain.value|)
  {
    hide IsPath, ChainsReal, LookedAt, HoldsWithin, Clean, Ids, IsChain, NoneShorter;
    if policy.forbidsModule(c.entry) {
      EntryIsBad(c, policy);
      return Some([Module(c.entry)]);
    }
    var seen := {c.entry};
    var frontier := [Visit(c.entry, [c.entry])];
    ghost var n: nat, done: set<Id> := 1, {};
    EntryLevel(c, policy);
    while frontier != []
      invariant Level(c, policy, n, done, seen, frontier) && seen <= Universe(c)
      decreases Universe(c) - done
    {
      NothingShorter(c, policy, n, done, seen, frontier);
      FrontierIsNew(frontier, done, seen);
      ghost var known := seen;
      var next, hit;
      seen, next, hit := SearchLevel(c, policy, n, done, seen, frontier);
      if hit.Some? { return hit; }
      frontier, n, done := next, n + 1, known;
    }
    forall hops ensures !IsChain(c, policy, hops) {
      EmptyFrontier(done, seen);
      NothingAtAll(c, policy, n, seen, hops);
    }
    return None;
  }

  lemma LevelBegins(c: Closure, policy: Policy, n: nat, done: set<Id>, seen: set<Id>, frontier: seq<Visit>)
    requires Level(c, policy, n, done, seen, frontier)
    ensures Within(c, policy, n, done, seen, frontier, 0, seen, [])
  {
    assert done + Ids(frontier[..0]) == done;
  }

  lemma FrontierChain(c: Closure, frontier: seq<Visit>, k: nat, n: nat)
    requires ChainsReal(c, frontier, n) && k < |frontier|
    ensures IsPath(c.entry, c.edges, frontier[k].chain) && Last(frontier[k].chain) == frontier[k].id && |frontier[k].chain| == n
  {
  }

  lemma FrontierIsNew(frontier: seq<Visit>, done: set<Id>, seen: set<Id>)
    requires frontier != [] && Ids(frontier) == seen - done && done <= seen
    ensures done < seen
  {
    assert frontier[0].id in Ids(frontier);
  }

  lemma EmptyFrontier(done: set<Id>, seen: set<Id>)
    requires done <= seen && Ids([]) == seen - done
    ensures done == seen
  {
    var none: seq<Visit> := [];
    assert Ids(none) == {};
    forall id | id in seen ensures id in done { assert id !in seen - done; }
  }
}
