/** The depth-first search that refuses a task registration closing a dependency cycle. */
module Registration {
  import opened Graphs

  /** A cycle can be reached from u. */
  ghost predicate SeesCycle(g: Graph, u: TaskId) {
    exists x :: Reaches(g, u, x) && OnCycle(g, x)
  }

  /** v is reached from u along at least one edge. */
  ghost predicate LeadsTo(g: Graph, u: TaskId, v: TaskId) {
    exists y :: Edge(g, u, y) && Reaches(g, y, v)
  }

  /** What is known of the tasks the search has finished with. */
  ghost predicate Settled(g: Graph, visited: set<TaskId>) {
    && visited <= g.Keys
    && Closed(g, visited)
    && forall x :: x in visited ==> !OnCycle(g, x)
  }

  lemma LeadsToStep(g: Graph, u: TaskId, v: TaskId, w: TaskId)
    requires (u == v || LeadsTo(g, u, v)) && Edge(g, v, w)
    ensures LeadsTo(g, u, w)
  {
    ReachesSelf(g, w);
    if u != v {
      var y :| Edge(g, u, y) && Reaches(g, y, v);
      EdgeReaches(g, v, w);
      ReachesTrans(g, y, v, w);
    }
  }

  lemma SeesCycleBack(g: Graph, u: TaskId, v: TaskId)
    requires Edge(g, u, v) && SeesCycle(g, v)
    ensures SeesCycle(g, u)
  {
    var x :| Reaches(g, v, x) && OnCycle(g, x);
    EdgeReaches(g, u, v);
    ReachesTrans(g, u, v, x);
  }

  /** A task all of whose targets are settled is settled too. */
  lemma SettleOne(g: Graph, visited: set<TaskId>, node: TaskId)
    requires Settled(g, visited) && node in g && node !in visited
    requires forall j :: 0 <= j < |g[node]| && g[node][j] in g ==> g[node][j] in visited
    ensures Settled(g, visited + {node})
  {
    forall v | Edge(g, node, v)
      ensures v in visited
    {
      var j :| 0 <= j < |g[node]| && g[node][j] == v;
    }
    if OnCycle(g, node) {
      var y :| Edge(g, node, y) && Reaches(g, y, node);
      ClosedKeepsReach(g, visited, y, node);
    }
  }

  lemma SettledSeesNone(g: Graph, visited: set<TaskId>, u: TaskId)
    requires Settled(g, visited) && u in visited
    ensures !SeesCycle(g, u)
  {
    forall x | Reaches(g, u, x)
      ensures !OnCycle(g, x)
    {
      ClosedKeepsReach(g, visited, u, x);
    }
  }

  class CycleCheck {
    const graph: Graph
    var visiting: set<TaskId>
    var visited: set<TaskId>

    constructor (g: Graph)
      ensures graph == g && visiting == {} && visited == {}
    {
      graph := g;
      visiting, visited := {}, {};
    }

    method Visit(node: TaskId) returns (found: bool)
      requires Settled(graph, visited) && visiting <= graph.Keys && visited !! visiting
      requires forall v :: v in visiting ==> LeadsTo(graph, v, node)
      modifies this
      ensures found ==> SeesCycle(graph, node)
      ensures !found ==> visiting == old(visiting) && old(visited) <= visited && visited !! visiting
      ensures !found ==> Settled(graph, visited) && (node in graph ==> node in visited)
      decreases graph.Keys - visiting
    {
      hide Reaches, OnCycle;
      if node in visiting {
        ReachesSelf(graph, node);
        CycleHere(graph, node);
        return true;
      }
      if node in visited || node !in graph {
        return false;
      }
      ghost var before := visiting;
      visiting := visiting + {node};
      for k := 0 to |graph[node]|
        invariant visiting == before + {node} && old(visited) <= visited && visited !! visiting
        invariant Settled(graph, visited)
        invariant forall j :: 0 <= j < k && graph[node][j] in graph ==> graph[node][j] in visited
      {
        var dependency := graph[node][k];
        if dependency in graph {
          forall v | v in visiting
            ensures LeadsTo(graph, v, dependency)
          {
            LeadsToStep(graph, v, node, dependency);
          }
          var inner := Visit(dependency);
          if inner {
            SeesCycleBack(graph, node, dependency);
            return true;
          }
        }
      }
      SettleOne(graph, visited, node);
      visiting := visiting - {node};
      visited := visited + {node};
      assert visiting == before;
      return false;
    }
  }

  lemma CycleHere(g: Graph, x: TaskId)
    requires LeadsTo(g, x, x)
    ensures SeesCycle(g, x)
  {
    ReachesSelf(g, x);
  }

  /** The registration check: true exactly when a cycle is reachable from the new task. */
  method RegistrationClosesCycle(task: TaskId, dependencies: seq<TaskId>, tasks: Graph) returns (closes: bool)
    ensures closes <==> SeesCycle(tasks[task := dependencies], task)
  {
    var graph := tasks[task := dependencies];
    var search := new CycleCheck(graph);
    closes := search.Visit(task);
    if !closes {
      SettledSeesNone(graph, search.visited, task);
    }
  }

  /** A path that avoids the new task was there before it was registered. */
  lemma OldPath(g: Graph, task: TaskId, deps: seq<TaskId>, p: seq<TaskId>)
    requires IsPath(g[task := deps], p) && task !in p
    ensures IsPath(g, p)
  {
  }

  /** On the cycle of x in the new graph, either the new task occurs or the cycle is an old one. */
  lemma NewCycleMeetsTask(g: Graph, task: TaskId, deps: seq<TaskId>, x: TaskId)
    requires Acyclic(g) && task !in g && OnCycle(g[task := deps], x)
    ensures Reaches(g[task := deps], task, x)
  {
    var h := g[task := deps];
    var y :| Edge(h, x, y) && Reaches(h, y, x);
    if x == task {
      ReachesSelf(h, x);
    } else {
      var p :| Connects(h, p, y, x);
      if task in p {
        var i :| 0 <= i < |p| && p[i] == task;
        var q := p[i..];
        forall a, b | 0 <= a < b < |q| && b == a + 1
          ensures Edge(h, q[a], q[b])
        {
          assert q[a] == p[i + a] && q[b] == p[i + b];
        }
        assert Connects(h, q, task, x);
      } else {
        OldPath(g, task, deps, p);
        assert y in p && Connects(g, p, y, x);
        assert Edge(g, x, y) && OnCycle(g, x);
      }
    }
  }

  /** On an acyclic ledger the check is exact for the whole graph: it refuses a new task if and
      only if registering it would put some task on a cycle, forward references included. */
  lemma RefusesExactlyNewCycles(g: Graph, task: TaskId, deps: seq<TaskId>)
    requires Acyclic(g) && task !in g
    ensures SeesCycle(g[task := deps], task) <==> !Acyclic(g[task := deps])
  {
    var h := g[task := deps];
    if SeesCycle(h, task) {
      var x :| Reaches(h, task, x) && OnCycle(h, x);
      OnCycleIsTask(h, x);
    } else {
      forall x | x in h
        ensures !OnCycle(h, x)
      {
        if OnCycle(h, x) {
          NewCycleMeetsTask(g, task, deps, x);
        }
      }
    }
  }

  lemma OnCycleIsTask(g: Graph, x: TaskId)
    requires OnCycle(g, x)
    ensures x in g
  {
  }

  /** Acyclic with every dependency registered: among any non-empty set of tasks, one has all its
      dependencies outside the set. With the set of unaccepted tasks this is progress. */
  lemma SomeTaskIsUnblocked(g: Graph, waiting: set<TaskId>) returns (ready: TaskId)
    requires Acyclic(g) && waiting <= g.Keys && waiting != {}
    requires forall u, v :: u in g && v in g[u] ==> v in g
    ensures ready in waiting && forall v :: v in g[ready] ==> v in g && v !in waiting
  {
    var start :| start in waiting;
    ready := SinkExists(g, waiting, start);
    forall v | v in g[ready]
      ensures v !in waiting
    {
      assert v in waiting ==> !Edge(g, ready, v);
    }
  }
}
