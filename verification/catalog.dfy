/**
 The dependency graph of `workspace/catalog.py`: the recursive cycle check and
 the reachability worklist, against paths of the graph.
*/
module Catalog {

  datatype Repository = Repository(id: string, dependsOn: seq<string>)

  /** Dependencies by repository id. */
  type Graph = map<string, seq<string>>

  predicate Edge(g: Graph, a: string, b: string) {
    a in g && b in g[a]
  }

  /** Every dependency is a repository. */
  predicate Closed(g: Graph) {
    forall a | a in g :: forall i | 0 <= i < |g[a]| :: g[a][i] in g
  }

  ghost predicate IsPath(g: Graph, p: seq<string>) {
    p != [] && p[0] in g && forall i | 0 < i < |p| :: Edge(g, p[i - 1], p[i])
  }

  ghost predicate PathBetween(g: Graph, a: string, b: string, p: seq<string>) {
    IsPath(g, p) && p[0] == a && p[|p| - 1] == b
  }

  ghost predicate Reaches(g: Graph, a: string, b: string) {
    exists p :: PathBetween(g, a, b, p)
  }

  /** A path of at least one edge back to where it began. */
  ghost predicate IsCycle(g: Graph, p: seq<string>) {
    |p| > 1 && PathBetween(g, p[0], p[0], p)
  }

  ghost predicate Cyclic(g: Graph) {
    exists p :: IsCycle(g, p)
  }

  // ---------------------------------------------------------------------
  // An order in which everything comes after its dependencies excludes cycles.
  // ---------------------------------------------------------------------

  ghost predicate DependenciesFirst(g: Graph, order: seq<string>) {
    forall i | 0 <= i < |order| :: order[i] in g && forall d | d in g[order[i]] :: d in order[..i]
  }

  ghost predicate Distinct(order: seq<string>) {
    forall i, j | 0 <= i < j < |order| :: order[i] != order[j]
  }

  function Members(order: seq<string>): set<string> {
    set s | s in order
  }

  lemma {:induction false} PathDescends(g: Graph, order: seq<string>, p: seq<string>, i: nat) returns (j: nat)
    requires DependenciesFirst(g, order) && IsPath(g, p) && i < |order| && order[i] == p[0]
    ensures j <= i && order[j] == p[|p| - 1] && (|p| > 1 ==> j < i)
    decreases |p|
  {
    if |p| == 1 {
      j := i;
    } else {
      assert Edge(g, p[0], p[1]);
      var k :| 0 <= k < i && order[..i][k] == p[1];
      assert IsPath(g, p[1..]) by {
        forall n | 0 < n < |p[1..]| ensures Edge(g, p[1..][n - 1], p[1..][n]) {
          assert Edge(g, p[n], p[n + 1]);
        }
      }
      j := PathDescends(g, order, p[1..], k);
    }
  }

  lemma OrderedIsAcyclic(g: Graph, order: seq<string>)
    requires DependenciesFirst(g, order) && Distinct(order) && forall a | a in g :: a in order
    ensures !Cyclic(g)
  {
    forall p | |p| > 1 && IsPath(g, p) ensures p[0] != p[|p| - 1] {
      var i :| 0 <= i < |order| && order[i] == p[0];
      var j := PathDescends(g, order, p, i);
    }
  }

  // ---------------------------------------------------------------------
  // visit.
  // ---------------------------------------------------------------------

  /** Each call was made for a dependency of the one before. */
  ghost predicate Chained(g: Graph, calls: seq<string>) {
    forall i | 0 < i < |calls| :: Edge(g, calls[i - 1], calls[i])
  }

  ghost predicate Sound(g: Graph, visiting: set<string>, visited: set<string>, calls: seq<string>, order: seq<string>) {
    && Closed(g) && Chained(g, calls)
    && visiting == Members(calls) && visiting <= g.Keys
    && visited == Members(order) && DependenciesFirst(g, order) && Distinct(order)
    && visiting !! visited
  }

  lemma Facts(g: Graph, visiting: set<string>, visited: set<string>, calls: seq<string>, order: seq<string>)
    requires Sound(g, visiting, visited, calls, order)
    ensures Closed(g) && Chained(g, calls) && visiting == Members(calls)
  {
  }

  lemma EnterKeeps(
    g: Graph, visiting: set<string>, visited: set<string>, calls: seq<string>, order: seq<string>, id: string)
    requires Sound(g, visiting, visited, calls, order) && id in g && id !in visiting && id !in visited
    requires calls != [] ==> Edge(g, calls[|calls| - 1], id)
    ensures Sound(g, visiting + {id}, visited, calls + [id], order)
    ensures |g.Keys - (visiting + {id})| < |g.Keys - visiting|
  {
    hide DependenciesFirst, Distinct, Edge, Closed;
    Enter(g, calls, id);
    Smaller(g.Keys, visiting, id);
  }

  lemma LeaveKeeps(
    g: Graph, visiting: set<string>, before: set<string>, visited: set<string>, calls: seq<string>, order: seq<string>,
    id: string)
    requires Sound(g, before, visited, calls + [id], order) && id in g && before == visiting + {id}
    requires id !in visiting && visiting == Members(calls) && Chained(g, calls)
    requires forall i | 0 <= i < |g[id]| :: g[id][i] in visited
    ensures Sound(g, before - {id}, visited + {id}, calls, order + [id]) && before - {id} == visiting
  {
    assert id !in order && forall i | 0 <= i < |g[id]| :: g[id][i] in order;
    Finish(g, order, id);
    assert before - {id} == visiting;
  }

  /** The two sets of `validate_repositories` and, for the proof, the calls under way and the finish order. */
  class Visitor {
    const g: Graph
    var visiting: set<string>
    var visited: set<string>
    ghost var calls: seq<string>
    ghost var order: seq<string>

    ghost predicate Valid()
      reads this
    {
      Sound(g, visiting, visited, calls, order)
    }

    constructor (g: Graph)
      requires Closed(g)
      ensures Valid() && this.g == g && calls == [] && visited == {}
    {
      this.g := g;
      visiting, visited, calls, order := {}, {}, [], [];
    }

    /** False where the source raises: a repository met again while its own visit is under way. */
    method Visit(id: string) returns (ok: bool)
      requires Valid() && id in g && (calls != [] ==> Edge(g, calls[|calls| - 1], id))
      modifies this
      ensures ok ==> Valid() && calls == old(calls) && visiting == old(visiting)
      ensures ok ==> id in visited && old(visited) <= visited
      ensures !ok ==> Cyclic(g)
      decreases |g.Keys - visiting|, 0
    {
      hide Sound, Cyclic;
      Facts(g, visiting, visited, calls, order);
      if id in visiting {
        ClosesCycle(g, calls, id);
        return false;
      }
      if id in visited {
        return true;
      }
      EnterKeeps(g, visiting, visited, calls, order, id);
      ghost var before := calls;
      visiting, calls := visiting + {id}, calls + [id];
      ok := VisitAll(g[id], id);
      if !ok {
        return;
      }
      LeaveKeeps(g, old(visiting), visiting, visited, before, order, id);
      visiting, visited := visiting - {id}, visited + {id};
      order, calls := order + [id], before;
    }

    method VisitAll(dependencies: seq<string>, id: string) returns (ok: bool)
      requires Valid() && id in g && dependencies == g[id] && calls != [] && calls[|calls| - 1] == id
      modifies this
      ensures ok ==> Valid() && calls == old(calls) && visiting == old(visiting) && old(visited) <= visited
      ensures ok ==> forall i | 0 <= i < |dependencies| :: dependencies[i] in visited
      ensures !ok ==> Cyclic(g)
      decreases |g.Keys - visiting|, 1
    {
      var i := 0;
      while i < |dependencies|
        invariant i <= |dependencies| && Valid() && calls == old(calls) && visiting == old(visiting)
        invariant old(visited) <= visited && forall k | 0 <= k < i :: dependencies[k] in visited
      {
        ok := Visit(dependencies[i]);
        if !ok {
          return;
        }
        i := i + 1;
      }
      return true;
    }
  }

  lemma Enter(g: Graph, calls: seq<string>, id: string)
    requires Chained(g, calls) && (calls != [] ==> Edge(g, calls[|calls| - 1], id))
    ensures Chained(g, calls + [id]) && Members(calls + [id]) == Members(calls) + {id}
  {
  }

  lemma Smaller(all: set<string>, some: set<string>, id: string)
    requires id in all && id !in some
    ensures |all - (some + {id})| < |all - some|
  {
    assert all - (some + {id}) == (all - some) - {id};
  }

  lemma ClosesCycle(g: Graph, calls: seq<string>, id: string)
    requires id in calls && id in g && Edge(g, calls[|calls| - 1], id)
    requires Chained(g, calls)
    ensures Cyclic(g)
  {
    var k :| 0 <= k < |calls| && calls[k] == id;
    var p := calls[k..] + [id];
    forall i | 0 < i < |p| ensures Edge(g, p[i - 1], p[i]) {
      assert p[i - 1] == calls[k + i - 1] && p[i] == if i < |p| - 1 then calls[k + i] else id;
    }
    assert IsCycle(g, p);
  }

  lemma Finish(g: Graph, order: seq<string>, id: string)
    requires DependenciesFirst(g, order) && Distinct(order) && id in g && id !in order
    requires forall i | 0 <= i < |g[id]| :: g[id][i] in order
    ensures DependenciesFirst(g, order + [id]) && Distinct(order + [id])
    ensures Members(order + [id]) == Members(order) + {id}
  {
    var next := order + [id];
    forall i | 0 <= i < |next| ensures next[i] in g && forall d | d in g[next[i]] :: d in next[..i] {
      assert next[..i] == order[..i];
    }
  }

  /** The check raises exactly when the graph has a cycle, whatever order repositories come in. */
  method CheckAcyclic(g: Graph, ids: seq<string>) returns (ok: bool)
    requires Closed(g) && Members(ids) == g.Keys
    ensures ok <==> !Cyclic(g)
  {
    var visitor := new Visitor(g);
    var i := 0;
    while i < |ids|
      invariant i <= |ids| && visitor.Valid() && visitor.g == g && visitor.calls == [] && fresh(visitor)
      invariant forall k | 0 <= k < i :: ids[k] in visitor.visited
    {
      assert ids[i] in Members(ids);
      ok := visitor.Visit(ids[i]);
      if !ok {
        return false;
      }
      i := i + 1;
    }
    forall a | a in g ensures a in visitor.order {
      assert a in Members(ids);
    }
    OrderedIsAcyclic(g, visitor.order);
    return true;
  }

  // ---------------------------------------------------------------------
  // The worklist.
  // ---------------------------------------------------------------------

  lemma ReachesItself(g: Graph, a: string)
    requires a in g
    ensures Reaches(g, a, a)
  {
    assert PathBetween(g, a, a, [a]);
  }

  lemma ReachesNext(g: Graph, a: string, b: string, d: string)
    requires Reaches(g, a, b) && Edge(g, b, d)
    ensures Reaches(g, a, d)
  {
    var p :| PathBetween(g, a, b, p);
    var q := p + [d];
    forall i | 0 < i < |q| ensures Edge(g, q[i - 1], q[i]) {
      if i < |p| {
        assert Edge(g, p[i - 1], p[i]);
      }
    }
    assert PathBetween(g, a, d, q);
  }

  lemma {:induction false} ClosedHoldsPath(g: Graph, reachable: set<string>, p: seq<string>)
    requires IsPath(g, p) && p[0] in reachable
    requires forall a, d | a in reachable && Edge(g, a, d) :: d in reachable
    ensures p[|p| - 1] in reachable
    decreases |p|
  {
    if |p| > 1 {
      assert Edge(g, p[|p| - 2], p[|p| - 1]);
      assert IsPath(g, p[..|p| - 1]) by {
        assert forall i | 0 < i < |p| - 1 :: Edge(g, p[i - 1], p[i]);
      }
      ClosedHoldsPath(g, reachable, p[..|p| - 1]);
    }
  }

  /** Exactly the repositories some chain of dependencies leads to. */
  method Closure(g: Graph, start: string) returns (reachable: set<string>)
    requires Closed(g) && start in g
    ensures forall b :: b in reachable <==> Reaches(g, start, b)
  {
    var pending := [start];
    reachable := {};
    ReachesItself(g, start);
    while pending != []
      invariant forall i | 0 <= i < |pending| :: Reaches(g, start, pending[i]) && pending[i] in g
      invariant forall b | b in reachable :: Reaches(g, start, b) && b in g
      invariant forall a, d | a in reachable && Edge(g, a, d) :: d in reachable || d in pending
      invariant start in reachable || start in pending
      decreases |g.Keys - reachable|, |pending|
    {
      var id := pending[|pending| - 1];
      ghost var before := pending;
      pending := pending[..|pending| - 1];
      assert before == pending + [id];
      if id !in reachable {
        Smaller(g.Keys, reachable, id);
        forall i | 0 <= i < |g[id]| ensures Reaches(g, start, g[id][i]) {
          assert Edge(g, id, g[id][i]);
          ReachesNext(g, start, id, g[id][i]);
        }
        reachable := reachable + {id};
        pending := pending + g[id];
      }
    }
    forall b | Reaches(g, start, b) ensures b in reachable {
      var p :| PathBetween(g, start, b, p);
      ClosedHoldsPath(g, reachable, p);
    }
  }

  // ---------------------------------------------------------------------
  // Together, on repositories whose fields have passed their own checks.
  // ---------------------------------------------------------------------

  const RUNTIME := "retrom-runtime"

  ghost predicate DistinctIds(repositories: seq<Repository>) {
    forall i, j | 0 <= i < j < |repositories| :: repositories[i].id != repositories[j].id
  }

  function GraphOf(repositories: seq<Repository>): Graph {
    if repositories == [] then map[]
    else
      var last := repositories[|repositories| - 1];
      GraphOf(repositories[..|repositories| - 1])[last.id := last.dependsOn]
  }

  function Ids(repositories: seq<Repository>): (ids: seq<string>)
    ensures |ids| == |repositories| && forall i | 0 <= i < |ids| :: ids[i] == repositories[i].id
  {
    seq(|repositories|, i requires 0 <= i < |repositories| => repositories[i].id)
  }

  lemma {:induction false} GraphKeys(repositories: seq<Repository>)
    ensures GraphOf(repositories).Keys == Members(Ids(repositories))
  {
    if repositories != [] {
      var front, last := repositories[..|repositories| - 1], repositories[|repositories| - 1];
      GraphKeys(front);
      assert Ids(repositories) == Ids(front) + [last.id];
    }
  }

  /** The graph has the declared repositories and each one's own dependencies. */
  lemma {:induction false} GraphExactly(repositories: seq<Repository>)
    requires DistinctIds(repositories)
    ensures GraphOf(repositories).Keys == set repository | repository in repositories :: repository.id
    ensures forall i | 0 <= i < |repositories| ::
      repositories[i].id in GraphOf(repositories) && GraphOf(repositories)[repositories[i].id] == repositories[i].dependsOn
  {
    if repositories != [] {
      var front, last := repositories[..|repositories| - 1], repositories[|repositories| - 1];
      GraphExactly(front);
      assert repositories == front + [last];
      forall i | 0 <= i < |repositories|
        ensures repositories[i].id in GraphOf(repositories)
        ensures GraphOf(repositories)[repositories[i].id] == repositories[i].dependsOn
      {
        if i < |front| {
          assert front[i] == repositories[i];
        }
      }
    }
  }

  ghost predicate Accepted(repositories: seq<Repository>) {
    && DistinctIds(repositories) && (forall i | 0 <= i < |repositories| :: repositories[i].id != "")
    && Closed(GraphOf(repositories)) && !Cyclic(GraphOf(repositories)) && "retrom-runtime" in GraphOf(repositories)
    && forall id | id in GraphOf(repositories) :: Reaches(GraphOf(repositories), "retrom-runtime", id)
  }

  /** The graph by id, unless an id is empty or repeated. */
  method IndexById(repositories: seq<Repository>) returns (ok: bool, g: Graph)
    ensures ok <==> DistinctIds(repositories) && forall i | 0 <= i < |repositories| :: repositories[i].id != ""
    ensures ok ==> g == GraphOf(repositories)
  {
    g := map[];
    var i := 0;
    while i < |repositories|
      invariant i <= |repositories| && g == GraphOf(repositories[..i])
      invariant g.Keys == set k | 0 <= k < i :: repositories[k].id
      invariant forall j, k | 0 <= j < k < i :: repositories[j].id != repositories[k].id
      invariant forall k | 0 <= k < i :: repositories[k].id != ""
    {
      if repositories[i].id == "" || repositories[i].id in g {
        return false, g;
      }
      assert repositories[..i + 1][..i] == repositories[..i];
      g := g[repositories[i].id := repositories[i].dependsOn];
      i := i + 1;
    }
    assert repositories[..i] == repositories;
    return true, g;
  }

  /** Accepts exactly the acyclic graphs in which the runtime reaches every repository. */
  method ParseManifest(repositories: seq<Repository>) returns (ok: bool)
    ensures ok <==> Accepted(repositories)
  {
    hide DistinctIds, GraphOf, Closed, Cyclic, Reaches;
    var indexed, g := IndexById(repositories);
    if !indexed || !Closed(g) {
      return false;
    }
    GraphKeys(repositories);
    var acyclic := CheckAcyclic(g, Ids(repositories));
    if !acyclic || RUNTIME !in g {
      return false;
    }
    var reachable := Closure(g, RUNTIME);
    OnlyRepositories(g, RUNTIME, reachable);
    return reachable == g.Keys;
  }

  lemma OnlyRepositories(g: Graph, start: string, reachable: set<string>)
    requires Closed(g) && start in g && forall b :: b in reachable <==> Reaches(g, start, b)
    ensures reachable <= g.Keys
  {
    forall b | b in reachable ensures b in g {
      var p :| PathBetween(g, start, b, p);
      if |p| > 1 {
        assert Edge(g, p[|p| - 2], p[|p| - 1]);
      }
    }
  }
}
