/** The index's search for tasks on dependency cycles (Tarjan's algorithm). */
module Tarjan {
  import opened Graphs
  import opened ComponentInvariant

  class CycleSearch {
    const graph: Graph
    var index: nat
    var stack: seq<TaskId>
    var onStack: set<TaskId>
    var indices: Numbers
    var lowlinks: Numbers
    var cyclic: set<TaskId>

    constructor (g: Graph)
      ensures graph == g && State() == Search(0, [], {}, map[], {}) && lowlinks == map[]
    {
      graph := g;
      index, stack, onStack := 0, [], {};
      indices, lowlinks, cyclic := map[], map[], {};
    }

    ghost function State(): Search
      reads this
    {
      Search(index, stack, onStack, indices, cyclic)
    }

    /** Takes tasks off the stack down to node; on return the component is what lay above. */
    method PopComponent(node: TaskId, ghost k: nat, ghost open: set<TaskId>) returns (component: seq<TaskId>)
      requires State().Ok(graph, open)
      requires k < |stack| && stack[k] == node
      modifies this
      ensures State() == Pop(old(State()), k) && lowlinks == old(lowlinks)
      ensures |component| == |old(stack)| - k && (set x | x in component) == Above(old(State()), k)
    {
      hide Search.Ok;
      component := [];
      ghost var s := State();
      var done := false;
      while |stack| > 0 && !done
        invariant k <= |stack| <= |s.stack| && stack == s.stack[..|stack|]
        invariant done <==> |stack| == k
        invariant |component| == |s.stack| - |stack|
        invariant (set x | x in component) == Above(s, |stack|)
        invariant State() == s.(stack := stack, onStack := s.onStack - Above(s, |stack|))
        invariant lowlinks == old(lowlinks)
        decreases |stack|
      {
        var member := stack[|stack| - 1];
        AboveStep(graph, open, s, |stack| - 1);
        stack := stack[..|stack| - 1];
        onStack := onStack - {member};
        component := component + [member];
        if member == node {
          done := true;
        }
      }
    }

    /** One nested visit. */
    method Visit(node: TaskId, ghost open: set<TaskId>)
      requires State().Ok(graph, open) && lowlinks.Keys == indices.Keys
      requires node in graph && node !in indices
      requires forall x :: x in open ==> Reaches(graph, x, node)
      modifies this
      ensures lowlinks.Keys == indices.Keys && node in indices
      ensures State().Visited(graph, open, old(State()), node, lowlinks[node])
      ensures forall x :: x in old(lowlinks) ==> x in lowlinks && lowlinks[x] == old(lowlinks)[x]
      decreases graph.Keys - indices.Keys, 0
    {
      hide Search.Ok, Search.Visiting, Search.Visited, Search.LinkOk, Reaches;
      ghost var s0 := State();
      indices := indices[node := index];
      lowlinks := lowlinks[node := index];
      index := index + 1;
      stack := stack + [node];
      onStack := onStack + {node};
      PushStarts(graph, open, s0, node);
      PushLink(graph, open, s0, node);
      VisitingFacts(graph, open, s0, State(), node);
      var k := 0;
      while k < |graph[node]|
        invariant 0 <= k <= |graph[node]|
        invariant lowlinks.Keys == indices.Keys && node in indices
        invariant s0.indices.Keys <= indices.Keys
        invariant State().Visiting(graph, open, s0, node)
        invariant State().LinkOk(graph, node, k, lowlinks[node])
        invariant forall x :: x in old(lowlinks) ==> x in lowlinks && lowlinks[x] == old(lowlinks)[x]
      {
        LookAt(node, k, open, s0);
        k := k + 1;
      }
      ghost var s := State();
      VisitingFacts(graph, open, s0, s, node);
      if lowlinks[node] != indices[node] {
        KeepOpenReturns(graph, open, s0, s, node, lowlinks[node]);
        return;
      }
      var component := PopComponent(node, |s0.stack|, open + {node});
      if |component| > 1 || node in graph[node] {
        cyclic := cyclic + set x | x in component;
      }
      assert s.cyclic + {} == s.cyclic;
      assert State() == Close(graph, s, |s0.stack|, node);
      CloseReturns(graph, open, s0, s, node);
    }

    /** The loop body of a visit: one target. */
    method LookAt(node: TaskId, k: nat, ghost open: set<TaskId>, ghost s0: Search)
      requires node in graph && k < |graph[node]| && node in indices
      requires lowlinks.Keys == indices.Keys && s0.indices.Keys <= indices.Keys
      requires State().Visiting(graph, open, s0, node)
      requires State().LinkOk(graph, node, k, lowlinks[node])
      requires s0.Ok(graph, open) && node !in s0.indices
      modifies this
      ensures lowlinks.Keys == indices.Keys && old(indices).Keys <= indices.Keys
      ensures State().Visiting(graph, open, s0, node)
      ensures State().LinkOk(graph, node, k + 1, lowlinks[node])
      ensures forall x :: x in old(lowlinks) && x != node ==> x in lowlinks && lowlinks[x] == old(lowlinks)[x]
      decreases graph.Keys - indices.Keys, 1
    {
      hide Search.Ok, Search.Visiting, Search.Visited, Search.LinkOk, Reaches;
      var target := graph[node][k];
      ghost var s, low := State(), lowlinks[node];
      VisitingFacts(graph, open, s0, s, node);
      if target in graph && target !in indices {
        TargetReached(graph, open, s0, s, node, target);
        Visit(target, open + {node});
        ghost var s1 := State();
        VisitedFacts(graph, open + {node}, s, s1, target, lowlinks[target]);
        ReturnKeepsVisiting(graph, open, s0, s, s1, node, target, lowlinks[target]);
        ReturnKeepsLink(graph, open, s, s1, node, k, low, lowlinks[target]);
        lowlinks := lowlinks[node := Least(lowlinks[node], lowlinks[target])];
      } else {
        if target in graph && target in onStack {
          lowlinks := lowlinks[node := Least(lowlinks[node], indices[target])];
        }
        BackKeepsLink(graph, open, s0, s, node, k, low, lowlinks[node]);
      }
    }
  }

  /** The index's cycle search over a finite dependency map, with unknown targets, duplicates and
      self-loops allowed. `order` is the sorted list of the map's keys. */
  method TaskCycles(g: Graph, order: seq<TaskId>) returns (cyclic: set<TaskId>)
    requires forall x :: x in g <==> x in order
    ensures cyclic == TasksOnCycles(g)
  {
    var search := new CycleSearch(g);
    for i := 0 to |order|
      invariant search.graph == g && fresh(search)
      invariant search.State().Ok(g, {}) && search.lowlinks.Keys == search.indices.Keys
      invariant forall j :: 0 <= j < i ==> order[j] in search.indices
    {
      hide Search.Ok, Search.Visited;
      if order[i] !in search.indices {
        ghost var s := search.State();
        search.Visit(order[i], {});
        VisitedFacts(g, {}, s, search.State(), order[i], search.lowlinks[order[i]]);
      }
    }
    AllVisited(g, search.State());
    cyclic := search.cyclic;
  }
}
