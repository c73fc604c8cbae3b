/** The checker's search for aggregates that contain themselves by value: a depth-first search whose
    path and finished set change as it goes. */
module AggregateCycles {
  import opened MortSyntax

  type Graph = map<string, seq<string>>

  predicate Edge(g: Graph, a: string, b: string) { a in g && b in g && b in g[a] }

  /** Nodes in a row, each with an edge to the next. */
  predicate Path(g: Graph, p: seq<string>)
  {
    && (forall i | 0 <= i < |p| :: p[i] in g)
    && (forall i | 0 <= i < |p| - 1 :: Edge(g, p[i], p[i + 1]))
  }

  /** A path that returns to its start. */
  predicate IsCycle(g: Graph, p: seq<string>)
  {
    |p| >= 2 && Path(g, p) && p[0] == p[|p| - 1]
  }

  /** p leads from one of the roots. */
  predicate FromRoots(roots: seq<string>, p: seq<string>) { p != [] && p[0] in roots }

  /** Some path from a root ends with the given cycle. */
  ghost predicate ReachesCycle(g: Graph, roots: seq<string>)
  {
    exists p, c :: LeadsToCycle(g, roots, p, c)
  }

  predicate LeadsToCycle(g: Graph, roots: seq<string>, p: seq<string>, c: seq<string>)
  {
    Path(g, p) && FromRoots(roots, p) && IsCycle(g, c) && p[|p| - 1] == c[0]
  }

  /** Every dependency of a node comes before it, and is there. */
  predicate Topological(g: Graph, order: seq<string>)
  {
    && (forall i | 0 <= i < |order| :: order[i] in g)
    && (forall i | 0 <= i < |order| :: DepsBefore(g, order, i))
  }

  predicate DepsBefore(g: Graph, order: seq<string>, i: nat)
    requires i < |order| && order[i] in g
  {
    forall d | d in g[order[i]] && d in g :: d in order[..i]
  }

  // ----- an ordered set of nodes reaches no cycle -----

  /** Following a path from position i of the order never goes up again. */
  lemma {:induction false} PathDescends(g: Graph, order: seq<string>, p: seq<string>, i: nat)
    requires Topological(g, order) && Path(g, p) && p != [] && i < |order| && p[0] == order[i]
    ensures exists j :: 0 <= j <= i && order[j] == p[|p| - 1] && (|p| > 1 ==> j < i)
    decreases |p|
  {
    if |p| == 1 {
      assert order[i] == p[0];
    } else {
      assert Edge(g, p[0], p[1]) && DepsBefore(g, order, i);
      var k :| 0 <= k < i && order[..i][k] == p[1];
      PathDescends(g, order, p[1..], k);
    }
  }

  predicate Distinct<T(==)>(s: seq<T>)
  {
    forall i, j | 0 <= i < j < |s| :: s[i] != s[j]
  }

  lemma {:induction false} OrderedHasNoCycle(g: Graph, order: seq<string>, c: seq<string>)
    requires Topological(g, order) && Distinct(order) && IsCycle(g, c)
    ensures c[0] !in order
  {
    if c[0] in order {
      var i :| 0 <= i < |order| && order[i] == c[0];
      PathDescends(g, order, c, i);
    }
  }

  lemma {:induction false} PathStaysInOrder(g: Graph, order: seq<string>, p: seq<string>)
    requires Topological(g, order) && Path(g, p) && p != [] && p[0] in order
    ensures p[|p| - 1] in order
  {
    var i :| 0 <= i < |order| && order[i] == p[0];
    PathDescends(g, order, p, i);
  }

  // ----- the search -----

  /** The path from a root to the node being visited, and what has been finished. */
  ghost predicate Good(g: Graph, visiting: seq<string>, complete: set<string>, order: seq<string>)
  {
    && Path(g, visiting) && Distinct(visiting)
    && Topological(g, order) && Distinct(order)
    && (forall n :: n in complete <==> n in order)
    && (forall n | n in visiting :: n !in complete)
  }

  predicate MayVisit(g: Graph, visiting: seq<string>, name: string)
  {
    visiting != [] && name in g ==> Edge(g, visiting[|visiting| - 1], name)
  }

  /** Going one node deeper. */
  lemma {:induction false} GoodPush(g: Graph, visiting: seq<string>, complete: set<string>, order: seq<string>, name: string)
    requires Good(g, visiting, complete, order) && MayVisit(g, visiting, name)
    requires name in g && name !in visiting && name !in complete
    ensures Good(g, visiting + [name], complete, order)
    ensures |visiting| < |g|
    ensures forall d | d in g[name] :: MayVisit(g, visiting + [name], d)
  {
    var p := visiting + [name];
    forall i | 0 <= i < |p| - 1 ensures Edge(g, p[i], p[i + 1]) {
      if i < |visiting| - 1 { assert Edge(g, visiting[i], visiting[i + 1]); }
    }
    DistinctFits(visiting, g.Keys - {name});
  }

  /** Coming back from a node whose dependencies are all finished. */
  lemma {:induction false} GoodFinish(g: Graph, visiting: seq<string>, complete: set<string>, order: seq<string>, name: string)
    requires Good(g, visiting + [name], complete, order) && name in g
    requires forall j | 0 <= j < |g[name]| && g[name][j] in g :: g[name][j] in complete
    ensures Good(g, visiting, complete + {name}, order + [name])
  {
    var p, next := visiting + [name], order + [name];
    assert p[|visiting|] == name;
    forall i | 0 <= i < |visiting| ensures visiting[i] in g && visiting[i] != name && visiting[i] !in complete {
      assert p[i] == visiting[i];
    }
    forall i | 0 <= i < |visiting| - 1 ensures Edge(g, visiting[i], visiting[i + 1]) {
      assert Edge(g, p[i], p[i + 1]);
    }
    forall i, j | 0 <= i < j < |visiting| ensures visiting[i] != visiting[j] {
      assert p[i] == visiting[i] && p[j] == visiting[j];
    }
    forall i | 0 <= i < |next| ensures DepsBefore(g, next, i) {
      if i < |order| {
        assert DepsBefore(g, order, i) && next[..i] == order[..i];
      } else {
        assert next[..i] == order;
      }
    }
  }

  lemma {:induction false} CycleClosed(g: Graph, visiting: seq<string>, start: nat, name: string)
    requires Path(g, visiting) && start < |visiting| && visiting[start] == name && MayVisit(g, visiting, name) && name in g
    ensures IsCycle(g, visiting[start..] + [name])
  {
    var c := visiting[start..] + [name];
    forall i | 0 <= i < |c| - 1 ensures Edge(g, c[i], c[i + 1]) {
      if i < |c| - 2 { assert Edge(g, visiting[start + i], visiting[start + i + 1]); }
    }
  }

  class Search {
    const graph: Graph
    var visiting: seq<string>
    var complete: set<string>
    /** The finished nodes in the order they were finished. */
    ghost var order: seq<string>

    ghost predicate Valid()
      reads this
    {
      Good(graph, visiting, complete, order)
    }

    constructor (graph: Graph)
      ensures Valid() && this.graph == graph && visiting == [] && complete == {}
    {
      this.graph := graph;
      visiting, complete, order := [], {}, [];
    }

    method IndexOf(name: string) returns (i: nat)
      requires name in visiting
      ensures i < |visiting| && visiting[i] == name
    {
      i := 0;
      while visiting[i] != name
        invariant i < |visiting| && name in visiting[i..]
        decreases |visiting| - i
      {
        assert visiting[i..] == [visiting[i]] + visiting[i + 1..];
        i := i + 1;
      }
    }

    /** Visits a node; a result is the by-value cycle to report. */
    method Visit(name: string) returns (cycle: Option<seq<string>>)
      requires Valid() && MayVisit(graph, visiting, name)
      modifies this
      ensures cycle.None? ==>
        && Valid() && visiting == old(visiting) && old(order) <= order && (name in graph ==> name in complete)
      ensures cycle.Some? ==>
        && IsCycle(graph, cycle.value) && old(visiting) <= visiting && Path(graph, visiting)
        && visiting != [] && (old(visiting) == [] ==> visiting[0] == name) && cycle.value[0] in visiting
      decreases |graph| - |visiting|
    {
      hide Topological, IsCycle;
      if name in complete || name !in graph { return None; }
      if name in visiting {
        var start := IndexOf(name);
        cycle := Some(visiting[start..] + [name]);
        CycleClosed(graph, visiting, start, name);
        return;
      }
      GoodPush(graph, visiting, complete, order, name);
      hide Good, Path, Distinct;
      ghost var before := visiting;
      visiting := visiting + [name];
      ghost var path := visiting;
      var deps := graph[name];
      for i := 0 to |deps|
        invariant Valid() && visiting == path && old(order) <= order
        invariant forall j | 0 <= j < i && deps[j] in graph :: deps[j] in complete
      {
        ghost var sofar := complete;
        ghost var orderSoFar := order;
        cycle := Visit(deps[i]);
        if cycle.Some? { return; }
        StillComplete(orderSoFar, sofar);
      }
      visiting := visiting[..|visiting| - 1];
      assert visiting == before;
      GoodFinish(graph, visiting, complete, order, name);
      complete := complete + {name};
      order := order + [name];
      cycle := None;
    }

    /** What was finished stays finished. */
    lemma StillComplete(before: seq<string>, done: set<string>)
      requires Valid() && before <= order && forall n :: n in done <==> n in before
      ensures done <= complete
    {
    }

    /** The whole check: it reports a cycle exactly when one can be reached from the roots, and what it
        reports is one; otherwise it leaves a dependency order of everything reachable. */
    method Validate(roots: seq<string>) returns (cycle: Option<seq<string>>)
      requires Valid() && visiting == [] && complete == {}
      modifies this
      ensures cycle.Some? <==> ReachesCycle(graph, roots)
      ensures cycle.Some? ==> IsCycle(graph, cycle.value)
      ensures cycle.None? ==> Valid() && forall r | r in roots && r in graph :: r in complete
    {
      for i := 0 to |roots|
        invariant Valid() && visiting == []
        invariant forall j | 0 <= j < i && roots[j] in graph :: roots[j] in complete
      {
        cycle := Visit(roots[i]);
        if cycle.Some? {
          var at :| 0 <= at < |visiting| && visiting[at] == cycle.value[0];
          Reported(roots, visiting[..at + 1], cycle.value, visiting, at);
          return;
        }
      }
      cycle := None;
      AcceptedReachesNone(roots);
    }

    lemma Reported(roots: seq<string>, p: seq<string>, c: seq<string>, path: seq<string>, at: nat)
      requires Path(graph, path) && at < |path| && p == path[..at + 1] && path[0] in roots
      requires IsCycle(graph, c) && path[at] == c[0]
      ensures ReachesCycle(graph, roots)
    {
      assert Path(graph, p) by {
        forall i | 0 <= i < |p| - 1 ensures Edge(graph, p[i], p[i + 1]) { assert Edge(graph, path[i], path[i + 1]); }
      }
      assert LeadsToCycle(graph, roots, p, c);
    }

    lemma AcceptedReachesNone(roots: seq<string>)
      requires Valid() && forall r | r in roots && r in graph :: r in complete
      ensures !ReachesCycle(graph, roots)
    {
      if p, c :| LeadsToCycle(graph, roots, p, c) {
        PathStaysInOrder(graph, order, p);
        OrderedHasNoCycle(graph, order, c);
      }
    }
  }

  lemma {:induction false} DistinctFits(s: seq<string>, names: set<string>)
    requires Distinct(s) && forall i | 0 <= i < |s| :: s[i] in names
    ensures |s| <= |names|
    decreases |s|
  {
    if s != [] {
      var last := s[|s| - 1];
      DistinctFits(s[..|s| - 1], names - {last});
    }
  }
}
