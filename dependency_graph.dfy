/**
 * The service dependency graph: the depth-first cycle check that carries the current path (shared
 * by all three configuration validators), an independent definition of a cycle as a closed walk,
 * and the post-order schedule that the recursive start/stop walks of the orchestrators produce.
 */
module DependencyGraph {
  import opened Results

  /** Each service id mapped to its `dependencies`, in configuration order. */
  type Graph = map<string, seq<string>>

  /** Every dependency names a service of the graph. */
  predicate Closed(g: Graph) {
    forall id, d :: id in g && d in g[id] ==> d in g
  }

  function Elements(path: seq<string>): set<string> {
    set x | x in path
  }

  /** Pushing an id of the graph that is not on the path shrinks the set of ids still unvisited. */
  lemma ElementsSnoc(g: Graph, path: seq<string>, id: string)
    requires id in g && id !in path
    ensures g.Keys - Elements(path + [id]) < g.Keys - Elements(path)
  {
    assert id in g.Keys - Elements(path);
  }

  /** `path.indexOf(x)`. */
  function IndexOf(path: seq<string>, x: string): (k: nat)
    requires x in path
    ensures k < |path| && path[k] == x && x !in path[..k]
  {
    if path[0] == x then 0 else 1 + IndexOf(path[1..], x)
  }

  // ---------------------------------------------------------------------------------------------
  // The depth-first cycle check

  /**
   * `validateNoCyclicDeps(id, path)` / `checkForCyclicDeps(id, path)`: the cycle reported for the
   * first repeat met while walking the dependencies of `id` with `path` already on the stack. The
   * reported cycle runs from the first occurrence of the repeated id in the path back to it. The
   * walk terminates because every recursive call adds to `path` an id of the graph not yet on it.
   */
  function FindCycle(g: Graph, id: string, path: seq<string>): (r: Option<seq<string>>)
    requires Closed(g) && id in g
    ensures r.Some? ==> |r.value| >= 2 && r.value[0] == r.value[|r.value| - 1]
    decreases g.Keys - Elements(path), 0
  {
    if id in path then Some(path[IndexOf(path, id)..] + [id])
    else
      ElementsSnoc(g, path, id);
      FindCycleIn(g, g[id], path + [id])
  }

  /** The `for (const dep of dependencies)` loop of the check: the first dependency whose walk
      reports a cycle. */
  function FindCycleIn(g: Graph, deps: seq<string>, path: seq<string>): (r: Option<seq<string>>)
    requires Closed(g) && forall d :: d in deps ==> d in g
    ensures r.Some? ==> |r.value| >= 2 && r.value[0] == r.value[|r.value| - 1]
    decreases g.Keys - Elements(path), 1, |deps|
  {
    if deps == [] then None
    else
      match FindCycle(g, deps[0], path)
      case Some(c) => Some(c)
      case None => FindCycleIn(g, deps[1..], path)
  }

  /** `serviceIds.forEach(id => check(id, []))`: the first cycle found, starting from each id in
      configuration order. */
  function FirstCycle(g: Graph, ids: seq<string>): (r: Option<seq<string>>)
    requires Closed(g) && forall id :: id in ids ==> id in g
    ensures r.Some? ==> |r.value| >= 2 && r.value[0] == r.value[|r.value| - 1]
  {
    if ids == [] then None
    else
      match FindCycle(g, ids[0], [])
      case Some(c) => Some(c)
      case None => FirstCycle(g, ids[1..])
  }

  // ---------------------------------------------------------------------------------------------
  // The reference definition: a cycle is a closed walk along dependency edges

  /** `w` follows dependency edges: each id depends on the next one. */
  predicate IsWalk(g: Graph, w: seq<string>) {
    && (forall i :: 0 <= i < |w| ==> w[i] in g)
    && (forall i :: 0 < i < |w| ==> w[i] in g[w[i - 1]])
  }

  predicate IsCycle(g: Graph, c: seq<string>) {
    |c| >= 2 && IsWalk(g, c) && c[0] == c[|c| - 1]
  }

  ghost predicate HasCycle(g: Graph) {
    exists c :: IsCycle(g, c)
  }

  predicate Distinct(s: seq<string>) {
    forall i, j :: 0 <= i < j < |s| ==> s[i] != s[j]
  }

  /** Whatever the check reports is a real cycle of the graph, provided `path` is the walk that led
      to `id`. */
  lemma {:induction false} FindCycleSound(g: Graph, id: string, path: seq<string>)
    requires Closed(g) && id in g
    requires IsWalk(g, path) && (path != [] ==> id in g[path[|path| - 1]])
    ensures FindCycle(g, id, path).Some? ==> IsCycle(g, FindCycle(g, id, path).value)
    decreases g.Keys - Elements(path), 0
  {
    if id in path {
      var k := IndexOf(path, id);
      var c := path[k..] + [id];
      assert c[0] == id;
      forall i | 0 < i < |c| ensures c[i] in g[c[i - 1]] {
        if i < |c| - 1 {
          assert c[i] == path[k + i] && c[i - 1] == path[k + i - 1];
        }
      }
    } else {
      ElementsSnoc(g, path, id);
      FindCycleInSound(g, g[id], path + [id]);
    }
  }

  lemma {:induction false} FindCycleInSound(g: Graph, deps: seq<string>, path: seq<string>)
    requires Closed(g) && forall d :: d in deps ==> d in g
    requires IsWalk(g, path) && path != [] && forall d :: d in deps ==> d in g[path[|path| - 1]]
    ensures FindCycleIn(g, deps, path).Some? ==> IsCycle(g, FindCycleIn(g, deps, path).value)
    decreases g.Keys - Elements(path), 1, |deps|
  {
    if deps != [] {
      assert deps[0] in deps;
      FindCycleSound(g, deps[0], path);
      assert forall d :: d in deps[1..] ==> d in deps;
      FindCycleInSound(g, deps[1..], path);
    }
  }

  /** When the check finds nothing from `id`, every walk from `id` continues `path` without
      repeating an id: the check misses no cycle. */
  lemma {:induction false} FindCycleComplete(g: Graph, id: string, path: seq<string>, w: seq<string>)
    requires Closed(g) && id in g && Distinct(path)
    requires FindCycle(g, id, path).None?
    requires IsWalk(g, w) && |w| >= 1 && w[0] == id
    ensures Distinct(path + w)
    decreases |w|
  {
    assert id !in path;
    if |w| == 1 {
      assert path + w == path + [id];
    } else {
      FindCycleInNone(g, g[id], path + [id], w[1]);
      assert IsWalk(g, w[1..]);
      FindCycleComplete(g, w[1], path + [id], w[1..]);
      assert path + [id] + w[1..] == path + w;
    }
  }

  lemma {:induction false} FindCycleInNone(g: Graph, deps: seq<string>, path: seq<string>, d: string)
    requires Closed(g) && forall x :: x in deps ==> x in g
    requires FindCycleIn(g, deps, path).None? && d in deps
    ensures FindCycle(g, d, path).None?
  {
    if deps[0] != d {
      FindCycleInNone(g, deps[1..], path, d);
    }
  }

  lemma {:induction false} FirstCycleNone(g: Graph, ids: seq<string>, id: string)
    requires Closed(g) && (forall x :: x in ids ==> x in g)
    requires FirstCycle(g, ids).None? && id in ids
    ensures FindCycle(g, id, []).None?
  {
    if ids[0] != id {
      FirstCycleNone(g, ids[1..], id);
    }
  }

  lemma {:induction false} FirstCycleSound(g: Graph, ids: seq<string>)
    requires Closed(g) && forall x :: x in ids ==> x in g
    ensures FirstCycle(g, ids).Some? ==> IsCycle(g, FirstCycle(g, ids).value)
  {
    if ids != [] {
      FindCycleSound(g, ids[0], []);
      FirstCycleSound(g, ids[1..]);
    }
  }

  /** A walk from a service the check accepted never returns to where it started. */
  lemma WalkFromCheckedDoesNotClose(g: Graph, c: seq<string>)
    requires Closed(g) && IsWalk(g, c) && |c| >= 2 && FindCycle(g, c[0], []).None?
    ensures c[0] != c[|c| - 1]
  {
    FindCycleComplete(g, c[0], [], c);
    assert [] + c == c;
  }

  /** The check run from every service reports a cycle exactly when the graph has one. */
  lemma FirstCycleIffHasCycle(g: Graph, ids: seq<string>)
    requires Closed(g) && forall x :: x in g <==> x in ids
    ensures FirstCycle(g, ids).Some? <==> HasCycle(g)
  {
    FirstCycleSound(g, ids);
    if FirstCycle(g, ids).None? {
      forall c | IsWalk(g, c) && |c| >= 2 ensures c[0] != c[|c| - 1] {
        FirstCycleNone(g, ids, c[0]);
        WalkFromCheckedDoesNotClose(g, c);
      }
    }
  }

  // ---------------------------------------------------------------------------------------------
  // The start and stop schedules

  /**
   * The order in which the recursive `startService(id)` reaches `service.start()` calls: first
   * the walk of every dependency in turn, then the service itself. A dependency shared by several
   * dependents appears once per path to it, as the recursion calls it once per path (the service's
   * own `start` is idempotent). Defined for graphs the cycle check accepted, on which the same
   * measure as the check's proves termination.
   */
  function PostOrder(g: Graph, id: string, path: seq<string>): (s: seq<string>)
    requires Closed(g) && id in g && FindCycle(g, id, path).None?
    ensures |s| >= 1 && s[|s| - 1] == id
    decreases g.Keys - Elements(path), 0
  {
    ElementsSnoc(g, path, id);
    PostOrderIn(g, g[id], path + [id]) + [id]
  }

  function PostOrderIn(g: Graph, deps: seq<string>, path: seq<string>): (s: seq<string>)
    requires Closed(g) && (forall d :: d in deps ==> d in g) && FindCycleIn(g, deps, path).None?
    ensures forall d :: d in deps ==> d in s
    decreases g.Keys - Elements(path), 1, |deps|
  {
    if deps == [] then []
    else PostOrder(g, deps[0], path) + PostOrderIn(g, deps[1..], path)
  }

  /** `Promise.all(ids.map(id => startService(id)))` flattened into one order. */
  function PostOrderAll(g: Graph, ids: seq<string>): (s: seq<string>)
    requires Closed(g) && (forall x :: x in ids ==> x in g) && FirstCycle(g, ids).None?
    ensures forall x :: x in ids ==> x in s
  {
    if ids == [] then []
    else PostOrder(g, ids[0], []) + PostOrderAll(g, ids[1..])
  }

  /** Every occurrence of a service in `s` comes after at least one occurrence of each of the
      services it points to in `g`. */
  predicate EdgesRespected(g: Graph, s: seq<string>) {
    forall k, d :: 0 <= k < |s| && s[k] in g && d in g[s[k]] ==> d in s[..k]
  }

  lemma EdgesRespectedAppend(g: Graph, a: seq<string>, b: seq<string>)
    requires EdgesRespected(g, a) && EdgesRespected(g, b)
    ensures EdgesRespected(g, a + b)
  {
    var s := a + b;
    forall k, d | 0 <= k < |s| && s[k] in g && d in g[s[k]] ensures d in s[..k] {
      if k >= |a| {
        assert s[k] == b[k - |a|];
        assert d in b[..k - |a|];
        assert s[..k] == a + b[..k - |a|];
      } else {
        assert s[..k] == a[..k];
      }
    }
  }

  lemma {:induction false} PostOrderRespectsEdges(g: Graph, id: string, path: seq<string>)
    requires Closed(g) && id in g && FindCycle(g, id, path).None?
    ensures EdgesRespected(g, PostOrder(g, id, path))
    decreases g.Keys - Elements(path), 0
  {
    ElementsSnoc(g, path, id);
    var pre := PostOrderIn(g, g[id], path + [id]);
    PostOrderInRespectsEdges(g, g[id], path + [id]);
    var s := pre + [id];
    forall k, d | 0 <= k < |s| && s[k] in g && d in g[s[k]] ensures d in s[..k] {
      if k == |pre| {
        assert s[..k] == pre;
      } else {
        assert s[k] == pre[k] && s[..k] == pre[..k];
      }
    }
  }

  lemma {:induction false} PostOrderInRespectsEdges(g: Graph, deps: seq<string>, path: seq<string>)
    requires Closed(g) && (forall d :: d in deps ==> d in g) && FindCycleIn(g, deps, path).None?
    ensures EdgesRespected(g, PostOrderIn(g, deps, path))
    decreases g.Keys - Elements(path), 1, |deps|
  {
    if deps != [] {
      PostOrderRespectsEdges(g, deps[0], path);
      PostOrderInRespectsEdges(g, deps[1..], path);
      EdgesRespectedAppend(g, PostOrder(g, deps[0], path), PostOrderIn(g, deps[1..], path));
    }
  }

  /** In the flattened start order every service comes after all of its dependencies. */
  lemma {:induction false} PostOrderAllRespectsEdges(g: Graph, ids: seq<string>)
    requires Closed(g) && (forall x :: x in ids ==> x in g) && FirstCycle(g, ids).None?
    ensures EdgesRespected(g, PostOrderAll(g, ids))
  {
    if ids != [] {
      PostOrderRespectsEdges(g, ids[0], []);
      PostOrderAllRespectsEdges(g, ids[1..]);
      EdgesRespectedAppend(g, PostOrder(g, ids[0], []), PostOrderAll(g, ids[1..]));
    }
  }

  // ---------------------------------------------------------------------------------------------
  // Dependents: the reversed graph used by the dependents-first shutdown

  /** `services.filter(s => s.config.dependencies.includes(id))`, in configuration order. */
  function Dependents(g: Graph, ids: seq<string>, id: string): (r: seq<string>)
    requires forall x :: x in ids ==> x in g
    ensures forall x :: x in r <==> x in ids && id in g[x]
  {
    if ids == [] then []
    else if id in g[ids[0]] then [ids[0]] + Dependents(g, ids[1..], id)
    else Dependents(g, ids[1..], id)
  }

  /** Each service mapped to the services that depend on it. */
  function Reverse(g: Graph, ids: seq<string>): (r: Graph)
    requires forall x :: x in g <==> x in ids
    ensures r.Keys == g.Keys && Closed(r)
    ensures forall x, y :: x in g && y in g ==> (y in r[x] <==> x in g[y])
  {
    map x | x in g :: Dependents(g, ids, x)
  }

  /** Reversing the edges of a cycle-free graph leaves it cycle-free. */
  lemma ReverseAcyclic(g: Graph, ids: seq<string>)
    requires Closed(g) && forall x :: x in g <==> x in ids
    requires !HasCycle(g)
    ensures !HasCycle(Reverse(g, ids))
  {
    var r := Reverse(g, ids);
    if HasCycle(r) {
      var c :| IsCycle(r, c);
      var n := |c|;
      var rc := seq(n, i requires 0 <= i < n => c[n - 1 - i]);
      forall i | 0 < i < n ensures rc[i] in g[rc[i - 1]] {
        assert rc[i] == c[n - 1 - i] && rc[i - 1] == c[n - 1 - i + 1];
      }
      assert IsCycle(g, rc);
    }
  }
}
