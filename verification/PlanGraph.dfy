/**
 The dependency graph of a plan and the depth-first cycle test `_has_cycle`.
 */
module PlanGraph {
  import opened Plans

  type Graph = map<string, seq<string>>

  /** `{task.local_ref: task.dependency_refs}`: a repeated reference keeps the last entry. */
  function GraphOf(tasks: seq<DepartmentPlan>): Graph {
    if tasks == [] then map[]
    else
      var last := tasks[|tasks| - 1];
      GraphOf(tasks[..|tasks| - 1])[last.localRef := last.dependencyRefs]
  }

  /** A dependency counts only between references the plan declares. */
  predicate Edge(g: Graph, a: string, b: string) {
    a in g && b in g && b in g[a]
  }

  /** The nodes of the graph are the declared references. */
  lemma {:induction false} NodesAreDeclared(tasks: seq<DepartmentPlan>, ref: string)
    ensures ref in GraphOf(tasks) <==> exists i :: 0 <= i < |tasks| && tasks[i].localRef == ref
  {
    if tasks != [] {
      var front := tasks[..|tasks| - 1];
      NodesAreDeclared(front, ref);
      assert forall i :: 0 <= i < |front| ==> front[i] == tasks[i];
    }
  }

  /** Each has the dependencies of the last task that declares it. */
  lemma {:induction false} LastDeclarationCounts(tasks: seq<DepartmentPlan>, i: nat)
    requires i < |tasks| && forall j :: i < j < |tasks| ==> tasks[j].localRef != tasks[i].localRef
    ensures tasks[i].localRef in GraphOf(tasks) && GraphOf(tasks)[tasks[i].localRef] == tasks[i].dependencyRefs
  {
    if i < |tasks| - 1 {
      LastDeclarationCounts(tasks[..|tasks| - 1], i);
    }
  }

  ghost predicate IsWalk(g: Graph, p: seq<string>) {
    forall i :: 0 <= i < |p| - 1 ==> Edge(g, p[i], p[i + 1])
  }

  ghost predicate IsCycle(g: Graph, p: seq<string>) {
    |p| >= 2 && p[0] == p[|p| - 1] && IsWalk(g, p)
  }

  ghost predicate Cyclic(g: Graph) {
    exists p :: IsCycle(g, p)
  }

  /** Every element of `order` comes after everything it depends on. */
  ghost predicate DependenciesFirst(g: Graph, order: seq<string>) {
    && (forall i, j :: 0 <= i < j < |order| ==> order[i] != order[j])
    && (forall i :: 0 <= i < |order| ==> order[i] in g)
    && (forall i, d :: 0 <= i < |order| && Edge(g, order[i], d) ==> d in order[..i])
  }

  ghost predicate TopologicalOrder(g: Graph, order: seq<string>) {
    DependenciesFirst(g, order) && forall k :: k in g ==> k in order
  }

  /** Along a walk inside a topological order the position strictly falls. */
  lemma {:induction false} WalkDescends(g: Graph, order: seq<string>, p: seq<string>, i: nat)
    requires DependenciesFirst(g, order)
    requires IsWalk(g, p) && |p| >= 2 && i < |order| && order[i] == p[0]
    ensures p[|p| - 1] in order[..i]
    decreases |p|
  {
    assert Edge(g, p[0], p[1]);
    var j :| 0 <= j < i && order[j] == p[1];
    if |p| > 2 {
      forall k | 0 <= k < |p[1..]| - 1
        ensures Edge(g, p[1..][k], p[1..][k + 1])
      {
        assert Edge(g, p[k + 1], p[k + 2]);
      }
      WalkDescends(g, order, p[1..], j);
    }
  }

  lemma {:induction false} OrderedIsAcyclic(g: Graph, order: seq<string>)
    requires TopologicalOrder(g, order)
    ensures !Cyclic(g)
  {
    forall p | IsCycle(g, p)
      ensures false
    {
      assert Edge(g, p[0], p[1]);
      var i :| 0 <= i < |order| && order[i] == p[0];
      WalkDescends(g, order, p, i);
    }
  }

  /** A walk that comes back to one of its own nodes contains a cycle. */
  lemma {:induction false} ClosedWalkIsCycle(g: Graph, stack: seq<string>, node: string)
    requires IsWalk(g, stack + [node]) && node in stack
    ensures Cyclic(g)
  {
    var i :| 0 <= i < |stack| && stack[i] == node;
    var p := (stack + [node])[i..];
    forall k | 0 <= k < |p| - 1
      ensures Edge(g, p[k], p[k + 1])
    {
      assert Edge(g, (stack + [node])[i + k], (stack + [node])[i + k + 1]);
    }
    assert IsCycle(g, p);
  }

  /** The closure `visit` with the two sets it mutates. */
  class CycleFinder {
    const graph: Graph
    var visiting: set<string>
    var visited: set<string>
    ghost var finished: seq<string>

    constructor (graph: Graph)
      ensures Valid() && this.graph == graph && visiting == {} && visited == {}
    {
      this.graph := graph;
      visiting, visited, finished := {}, {}, [];
    }

    ghost predicate Valid()
      reads this
    {
      && visiting <= graph.Keys
      && visiting !! visited
      && DependenciesFirst(graph, finished)
      && (forall x :: x in visited <==> x in finished)
    }

    method Visit(node: string, ghost stack: seq<string>) returns (found: bool)
      requires Valid() && node in graph
      requires forall x :: x in visiting <==> x in stack
      requires IsWalk(graph, stack + [node])
      modifies this
      ensures found ==> Cyclic(graph)
      ensures !found ==> Valid() && visiting == old(visiting) && old(visited) + {node} <= visited
      decreases graph.Keys - visiting
    {
      if node in visiting {
        ClosedWalkIsCycle(graph, stack, node);
        return true;
      }
      if node in visited {
        return false;
      }
      visiting := visiting + {node};
      ghost var path := stack + [node];
      var deps := graph[node];
      var i := 0;
      while i < |deps|
        invariant 0 <= i <= |deps|
        invariant Valid() && visiting == old(visiting) + {node} && old(visited) <= visited
        invariant forall k :: 0 <= k < i && deps[k] in graph ==> deps[k] in visited
      {
        if deps[i] in graph {
          assert IsWalk(graph, path + [deps[i]]) by {
            forall k | 0 <= k < |path|
              ensures Edge(graph, (path + [deps[i]])[k], (path + [deps[i]])[k + 1])
            {
              if k + 1 < |path| {
                assert Edge(graph, path[k], path[k + 1]);
              }
            }
          }
          found := Visit(deps[i], path);
          if found {
            return true;
          }
        }
        i := i + 1;
      }
      visiting := visiting - {node};
      visited := visited + {node};
      ghost var before := finished;
      finished := finished + [node];
      assert forall k :: 0 <= k < |before| ==> finished[..k] == before[..k];
      assert finished[..|before|] == before;
      return false;
    }
  }

  /**
   `_has_cycle`: true exactly when the declared references contain a directed cycle
   (a self-dependency included); otherwise the references can be listed with every
   dependency first.
   */
  method HasCycle(tasks: seq<DepartmentPlan>) returns (r: bool)
    ensures r <==> Cyclic(GraphOf(tasks))
    ensures !r ==> exists order :: TopologicalOrder(GraphOf(tasks), order)
  {
    var graph: Graph := map[];
    var nodes: seq<string> := [];
    var i := 0;
    while i < |tasks|
      invariant 0 <= i <= |tasks|
      invariant graph == GraphOf(tasks[..i])
      invariant forall x :: x in nodes <==> x in graph
    {
      assert tasks[..i + 1][..i] == tasks[..i];
      if tasks[i].localRef !in graph {
        nodes := nodes + [tasks[i].localRef];
      }
      graph := graph[tasks[i].localRef := tasks[i].dependencyRefs];
      i := i + 1;
    }
    assert tasks[..|tasks|] == tasks;
    var finder := new CycleFinder(graph);
    i := 0;
    while i < |nodes|
      invariant 0 <= i <= |nodes|
      invariant fresh(finder) && finder.Valid() && finder.visiting == {} && finder.graph == graph
      invariant forall k :: 0 <= k < i ==> nodes[k] in finder.visited
    {
      r := finder.Visit(nodes[i], []);
      if r {
        return true;
      }
      i := i + 1;
    }
    OrderedIsAcyclic(graph, finder.finished);
    return false;
  }
}
