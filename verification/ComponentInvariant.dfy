/** What the index's strongly-connected-components search keeps true, step by step. */
module ComponentInvariant {
  import opened Graphs

  type Numbers = map<TaskId, nat>

  /** The variables the nested visit function shares, as one value; the lowlinks stay apart. */
  datatype Search = Search(index: nat, stack: seq<TaskId>, onStack: set<TaskId>, indices: Numbers, cyclic: set<TaskId>)
  {
    /** Visited tasks whose component has been taken off the stack. */
    ghost function Finished(): set<TaskId> {
      indices.Keys - onStack
    }

    /** The stack lists onStack, once each, in order of discovery. */
    ghost predicate Ordered(g: Graph) {
      && indices.Keys <= g.Keys
      && onStack <= indices.Keys
      && (forall i :: 0 <= i < |stack| ==> stack[i] in onStack)
      && (forall x :: x in onStack ==> x in stack)
      && (forall i, j :: 0 <= i < j < |stack| ==> indices[stack[i]] < indices[stack[j]])
      && (forall x :: x in indices ==> indices[x] < index)
    }

    /** A task whose visit has returned (one not open) has only visited targets. */
    ghost predicate Explored(g: Graph, open: set<TaskId>) {
      forall u, v :: u in indices && u !in open && Edge(g, u, v) ==> v in indices
    }

    /** Every stacked task reaches an open one discovered no later. */
    ghost predicate ReachesDown(g: Graph, open: set<TaskId>)
      requires open <= indices.Keys && onStack <= indices.Keys
    {
      forall x {:trigger Grounded(g, open, x)} :: x in onStack ==> Grounded(g, open, x)
    }

    ghost predicate Grounded(g: Graph, open: set<TaskId>, x: TaskId)
      requires open <= indices.Keys && x in indices
    {
      exists y :: y in open && indices[y] <= indices[x] && Reaches(g, x, y)
    }

    /** Every open task reaches everything stacked after it. */
    ghost predicate ReachesUp(g: Graph, open: set<TaskId>)
      requires open <= indices.Keys && onStack <= indices.Keys
    {
      forall x, y :: x in open && y in onStack && indices[x] <= indices[y] ==> Reaches(g, x, y)
    }

    ghost predicate Exact(g: Graph) {
      forall x :: x in cyclic <==> x in Finished() && OnCycle(g, x)
    }

    /** The invariant of the search while the visits of the tasks in open are running. */
    ghost predicate Ok(g: Graph, open: set<TaskId>) {
      && Ordered(g)
      && open <= onStack
      && Explored(g, open)
      && Closed(g, Finished())
      && ReachesDown(g, open)
      && ReachesUp(g, open)
      && Exact(g)
    }

    /** Nothing discovered before s0 has moved, and the stack of s0 is still at the bottom. */
    ghost predicate Extends(s0: Search) {
      && s0.index <= index
      && (forall x :: x in s0.indices ==> x in indices && indices[x] == s0.indices[x])
      && (forall x :: x in s0.indices ==> (x in onStack <==> x in s0.onStack))
      && (forall x :: x in indices && x !in s0.indices ==> s0.index <= indices[x])
      && |s0.stack| <= |stack| && stack[..|s0.stack|] == s0.stack
    }

    /** low is the discovery number of a stacked task that node reaches. */
    ghost predicate LowReached(g: Graph, node: TaskId, low: nat) {
      exists y :: y in onStack && y in indices && indices[y] == low && Reaches(g, node, y)
    }

    /** No edge from a stacked task discovered at `from` or later enters the stack below low. */
    ghost predicate LowBounds(g: Graph, from: nat, low: nat) {
      forall u, v :: u in onStack && u in indices && from <= indices[u] && Edge(g, u, v) && v in onStack && v in indices
        ==> low <= indices[v]
    }

    /** The first k targets of node have been visited, and those still stacked are not below low. */
    ghost predicate Scanned(g: Graph, node: TaskId, k: nat, low: nat)
      requires node in g && k <= |g[node]|
    {
      forall j :: 0 <= j < k && g[node][j] in g ==>
        && g[node][j] in indices
        && (g[node][j] in onStack ==> low <= indices[g[node][j]])
    }

    /** low is a sound lowlink for node once its first k targets have been looked at. */
    ghost predicate LinkOk(g: Graph, node: TaskId, k: nat, low: nat)
      requires node in g && k <= |g[node]| && node in indices
    {
      && low <= indices[node]
      && LowReached(g, node, low)
      && LowBounds(g, indices[node] + 1, low)
      && Scanned(g, node, k, low)
    }

    /** Inside the visit of node that started from s0. */
    ghost predicate Visiting(g: Graph, open: set<TaskId>, s0: Search, node: TaskId) {
      && Ok(g, open + {node}) && Extends(s0)
      && node in onStack && node in indices && indices[node] == s0.index
      && |s0.stack| < |stack| && stack[|s0.stack|] == node
    }

    /** The visit of node that started from s0 has returned low as its link. */
    ghost predicate Visited(g: Graph, open: set<TaskId>, s0: Search, node: TaskId, low: nat) {
      && Ok(g, open) && Extends(s0)
      && node in indices && node !in s0.indices && low <= indices[node]
      && LowBounds(g, s0.index, low)
      && if node in onStack then low < s0.index && LowReached(g, node, low)
         else stack == s0.stack && low == indices[node]
    }

    function Push(node: TaskId): Search {
      Search(index + 1, stack + [node], onStack + {node}, indices[node := index], cyclic)
    }
  }

  lemma PushOrdered(g: Graph, s0: Search, node: TaskId)
    requires s0.Ordered(g) && node in g && node !in s0.indices
    ensures s0.Push(node).Ordered(g)
  {
  }

  lemma PushReachesDown(g: Graph, open: set<TaskId>, s0: Search, node: TaskId)
    requires open <= s0.onStack <= s0.indices.Keys && node !in s0.indices
    requires s0.ReachesDown(g, open)
    ensures s0.Push(node).ReachesDown(g, open + {node})
  {
    var s := s0.Push(node);
    ReachesSelf(g, node);
    forall x | x in s.onStack
      ensures s.Grounded(g, open + {node}, x)
    {
      if x == node {
        assert node in open + {node};
      } else {
        assert s0.Grounded(g, open, x);
        var y :| y in open && s0.indices[y] <= s0.indices[x] && Reaches(g, x, y);
        assert y in open + {node};
      }
    }
  }

  lemma PushReachesUp(g: Graph, open: set<TaskId>, s0: Search, node: TaskId)
    requires open <= s0.onStack <= s0.indices.Keys && node !in s0.indices
    requires forall x :: x in s0.indices ==> s0.indices[x] < s0.index
    requires s0.ReachesUp(g, open)
    requires forall x :: x in open ==> Reaches(g, x, node)
    ensures s0.Push(node).ReachesUp(g, open + {node})
  {
    ReachesSelf(g, node);
  }

  lemma PushOk(g: Graph, open: set<TaskId>, s0: Search, node: TaskId)
    requires s0.Ok(g, open) && node in g && node !in s0.indices
    requires forall x :: x in open ==> Reaches(g, x, node)
    ensures s0.Push(node).Ok(g, open + {node})
  {
    var s := s0.Push(node);
    PushOrdered(g, s0, node);
    PushReachesDown(g, open, s0, node);
    PushReachesUp(g, open, s0, node);
    assert s.Finished() == s0.Finished();
  }

  lemma PushLink(g: Graph, open: set<TaskId>, s0: Search, node: TaskId)
    requires s0.Ok(g, open) && node in g && node !in s0.indices
    ensures s0.Push(node).LinkOk(g, node, 0, s0.index)
  {
    var s := s0.Push(node);
    ReachesSelf(g, node);
    assert node in s.onStack;
    assert forall x :: x in s.indices ==> s.indices[x] <= s0.index;
  }

  lemma PushStarts(g: Graph, open: set<TaskId>, s0: Search, node: TaskId)
    requires s0.Ok(g, open) && node in g && node !in s0.indices
    requires forall x :: x in open ==> Reaches(g, x, node)
    ensures s0.Push(node).Visiting(g, open, s0, node)
  {
    PushOk(g, open, s0, node);
  }

  /** Extending twice is extending. */
  lemma ExtendsTrans(s0: Search, s1: Search, s2: Search)
    requires s1.Extends(s0) && s2.Extends(s1)
    ensures s2.Extends(s0)
  {
  }

  lemma ReturnKeepsVisiting(g: Graph, open: set<TaskId>, s0: Search, s: Search, s1: Search, node: TaskId,
                            target: TaskId, low: nat)
    requires s.Visiting(g, open, s0, node)
    requires s1.Visited(g, open + {node}, s, target, low)
    ensures s1.Visiting(g, open, s0, node)
  {
    ExtendsTrans(s0, s, s1);
    assert s1.stack[..|s.stack|][|s0.stack|] == node;
  }

  function Least(a: nat, b: nat): nat {
    if b < a then b else a
  }

  lemma ReturnLowReached(g: Graph, s: Search, s1: Search, node: TaskId, target: TaskId, low: nat, inner: nat)
    requires Edge(g, node, target)
    requires s.LowReached(g, node, low) && s1.Extends(s)
    requires target in s1.indices && low < s1.indices[target]
    requires if target in s1.onStack then s1.LowReached(g, target, inner) else inner == s1.indices[target]
    ensures s1.LowReached(g, node, Least(low, inner))
  {
    if inner < low {
      EdgeReaches(g, node, target);
      var y :| y in s1.onStack && y in s1.indices && s1.indices[y] == inner && Reaches(g, target, y);
      ReachesTrans(g, node, target, y);
    } else {
      var y :| y in s.onStack && y in s.indices && s.indices[y] == low && Reaches(g, node, y);
      assert y in s1.onStack && s1.indices[y] == low;
    }
  }

  lemma ReturnLowBounds(g: Graph, s: Search, s1: Search, from: nat, low: nat, inner: nat)
    requires s.LowBounds(g, from, low) && s1.Extends(s) && s1.LowBounds(g, s.index, inner)
    requires low < s.index
    ensures s1.LowBounds(g, from, Least(low, inner))
  {
  }

  lemma ReturnScanned(g: Graph, s: Search, s1: Search, node: TaskId, k: nat, low: nat, inner: nat)
    requires node in g && k < |g[node]|
    requires s.Scanned(g, node, k, low) && s1.Extends(s)
    requires g[node][k] in s1.indices && inner <= s1.indices[g[node][k]]
    ensures s1.Scanned(g, node, k + 1, Least(low, inner))
  {
  }

  /** Folding the link of a returned visit into node's own keeps the link sound. */
  lemma ReturnKeepsLink(g: Graph, open: set<TaskId>, s: Search, s1: Search, node: TaskId, k: nat, low: nat, inner: nat)
    requires node in g && k < |g[node]| && node in s.indices && node in s1.indices && Edge(g, node, g[node][k])
    requires s.Ok(g, open + {node}) && s.LinkOk(g, node, k, low)
    requires s1.Visited(g, open + {node}, s, g[node][k], inner)
    ensures s1.LinkOk(g, node, k + 1, Least(low, inner))
  {
    ReturnLowReached(g, s, s1, node, g[node][k], low, inner);
    ReturnLowBounds(g, s, s1, s.indices[node] + 1, low, inner);
    ReturnScanned(g, s, s1, node, k, low, inner);
  }

  /** A visited target: lower to its number if it is stacked, leave the link alone if not. */
  lemma BackKeepsLink(g: Graph, open: set<TaskId>, s0: Search, s: Search, node: TaskId, k: nat, low: nat, low': nat)
    requires node in g && k < |g[node]| && node in s.indices
    requires s.Visiting(g, open, s0, node) && s.LinkOk(g, node, k, low)
    requires g[node][k] in g ==> g[node][k] in s.indices
    requires low' == if g[node][k] in g && g[node][k] in s.indices && g[node][k] in s.onStack
             then Least(low, s.indices[g[node][k]]) else low
    ensures s.LinkOk(g, node, k + 1, low')
  {
    var target := g[node][k];
    if low' != low {
      EdgeReaches(g, node, target);
      assert target in s.onStack && s.indices[target] == low';
    }
  }

  /** All targets done and a lower link found: node stays on the stack, its visit over. */
  lemma KeepOpenOk(g: Graph, open: set<TaskId>, s0: Search, s: Search, node: TaskId, low: nat)
    requires s0.Ok(g, open) && s.Visiting(g, open, s0, node) && node !in s0.indices && node in g
    requires s.LinkOk(g, node, |g[node]|, low) && low < s.indices[node]
    ensures s.Ok(g, open)
  {
    assert open == open + {node} - {node};
    assert s.Explored(g, open) by {
      forall u, v | u in s.indices && u !in open && Edge(g, u, v)
        ensures v in s.indices
      {
        if u == node {
          var j :| 0 <= j < |g[node]| && g[node][j] == v;
        }
      }
    }
    assert s.ReachesDown(g, open) by {
      forall x | x in s.onStack
        ensures s.Grounded(g, open, x)
      {
        KeepOpenGrounded(g, open, s0, s, node, low, x);
      }
    }
  }

  lemma KeepOpenGrounded(g: Graph, open: set<TaskId>, s0: Search, s: Search, node: TaskId, low: nat, x: TaskId)
    requires open <= s.onStack <= s.indices.Keys && node in s.indices && x in s.onStack
    requires s.ReachesDown(g, open + {node})
    requires low < s.indices[node] && s.LowReached(g, node, low)
    ensures s.Grounded(g, open, x)
  {
    assert s.Grounded(g, open + {node}, x);
    var y :| y in open + {node} && s.indices[y] <= s.indices[x] && Reaches(g, x, y);
    if y == node {
      var z :| z in s.onStack && z in s.indices && s.indices[z] == low && Reaches(g, node, z);
      assert s.Grounded(g, open + {node}, z);
      var w :| w in open + {node} && s.indices[w] <= s.indices[z] && Reaches(g, z, w);
      ReachesTrans(g, x, node, z);
      ReachesTrans(g, x, z, w);
      assert w in open;
    }
  }

  /** What is on the stack from position k on. */
  function Above(s: Search, k: nat): (r: set<TaskId>)
    requires k <= |s.stack|
    ensures forall x :: x in r <==> x in s.stack[k..]
  {
    set x | x in s.stack[k..]
  }

  function Pop(s: Search, k: nat): Search
    requires k <= |s.stack|
  {
    s.(stack := s.stack[..k], onStack := s.onStack - Above(s, k))
  }

  lemma AboveIsLater(g: Graph, s: Search, k: nat, x: TaskId)
    requires s.Ordered(g) && k < |s.stack| && x in s.onStack
    ensures x in Above(s, k) <==> s.indices[s.stack[k]] <= s.indices[x]
  {
  }

  lemma AboveStep(g: Graph, open: set<TaskId>, s: Search, n: nat)
    requires s.Ok(g, open) && n < |s.stack|
    ensures Above(s, n) == Above(s, n + 1) + {s.stack[n]}
    ensures forall k :: 0 <= k < n ==> s.stack[k] != s.stack[n]
  {
  }

  lemma PopOrdered(g: Graph, s: Search, k: nat)
    requires s.Ordered(g) && k < |s.stack|
    ensures Pop(s, k).Ordered(g)
  {
  }

  /** With nothing lower reached, no edge leaves the finished components and the popped part. */
  lemma PopClosed(g: Graph, open: set<TaskId>, s0: Search, s: Search, node: TaskId)
    requires s0.Ordered(g) && open <= s0.indices.Keys
    requires s.Visiting(g, open, s0, node) && node in g
    requires s.LinkOk(g, node, |g[node]|, s.indices[node])
    ensures Closed(g, s.Finished() + Above(s, |s0.stack|))
    ensures Pop(s, |s0.stack|).Finished() == s.Finished() + Above(s, |s0.stack|)
  {
    var k := |s0.stack|;
    forall u, v | u in s.Finished() + Above(s, k) && Edge(g, u, v)
      ensures v in s.Finished() + Above(s, k)
    {
      if u !in s.Finished() {
        AboveStacked(g, s, k, u);
        AboveIsLater(g, s, k, u);
        if u == node {
          var j :| 0 <= j < |g[node]| && g[node][j] == v;
        } else {
          assert u !in open;
        }
        assert v in s.indices;
        if v in s.onStack {
          AboveIsLater(g, s, k, v);
        }
      }
    }
    forall x | x in Above(s, k)
      ensures x in s.indices
    {
      AboveStacked(g, s, k, x);
    }
  }

  lemma AboveStacked(g: Graph, s: Search, k: nat, x: TaskId)
    requires s.Ordered(g) && k <= |s.stack| && x in Above(s, k)
    ensures x in s.onStack && x in s.indices
  {
  }

  /** The popped part is one strongly connected component. */
  lemma PopConnected(g: Graph, open: set<TaskId>, s0: Search, s: Search, node: TaskId, x: TaskId)
    requires s0.Ordered(g) && open <= s0.onStack
    requires s.Visiting(g, open, s0, node) && node in g
    requires s.LinkOk(g, node, |g[node]|, s.indices[node])
    requires x in Above(s, |s0.stack|)
    ensures Reaches(g, node, x) && Reaches(g, x, node)
  {
    var k := |s0.stack|;
    AboveStacked(g, s, k, x);
    AboveIsLater(g, s, k, x);
    PopClosed(g, open, s0, s, node);
    assert s.Grounded(g, open + {node}, x);
    var y :| y in open + {node} && s.indices[y] <= s.indices[x] && Reaches(g, x, y);
    ClosedKeepsReach(g, s.Finished() + Above(s, k), x, y);
    AboveIsLater(g, s, k, y);
    assert y == node;
  }

  /** Popping keeps the invariant, except that cyclic is still to be brought up to date. */
  lemma PopOk(g: Graph, open: set<TaskId>, s0: Search, s: Search, node: TaskId)
    requires s0.Ok(g, open)
    requires s.Visiting(g, open, s0, node) && node in g && node !in s0.indices
    requires s.LinkOk(g, node, |g[node]|, s.indices[node])
    ensures var t := Pop(s, |s0.stack|);
            && t.Ordered(g) && open <= t.onStack && t.Explored(g, open)
            && t.ReachesDown(g, open) && t.ReachesUp(g, open)
  {
    var k := |s0.stack|;
    var t := Pop(s, k);
    PopOrdered(g, s, k);
    forall x | x in open
      ensures x in t.onStack
    {
      AboveIsLater(g, s, k, x);
    }
    forall u, v | u in t.indices && u !in open && Edge(g, u, v)
      ensures v in t.indices
    {
      if u == node {
        var j :| 0 <= j < |g[node]| && g[node][j] == v;
      }
    }
    PopGrounded(g, open, s, k);
  }

  lemma PopGrounded(g: Graph, open: set<TaskId>, s: Search, k: nat)
    requires s.Ordered(g) && k < |s.stack| && open <= s.onStack
    requires s.ReachesDown(g, open + {s.stack[k]})
    ensures Pop(s, k).ReachesDown(g, open)
  {
    var node, t := s.stack[k], Pop(s, k);
    forall x | x in t.onStack
      ensures t.Grounded(g, open, x)
    {
      assert s.Grounded(g, open + {node}, x);
      var y :| y in open + {node} && s.indices[y] <= s.indices[x] && Reaches(g, x, y);
      AboveIsLater(g, s, k, x);
      assert y in open;
    }
  }

  lemma PopExtends(g: Graph, s0: Search, s: Search)
    requires s0.Ordered(g) && s.Ordered(g) && s.Extends(s0) && |s0.stack| < |s.stack|
    requires s.indices[s.stack[|s0.stack|]] == s0.index
    ensures Pop(s, |s0.stack|).Extends(s0)
  {
  }

  /** Which members of the popped part lie on a cycle: all of them, or just a self-loop. */
  lemma PopCycles(g: Graph, open: set<TaskId>, s0: Search, s: Search, node: TaskId, x: TaskId)
    requires s0.Ordered(g) && open <= s0.onStack
    requires s.Visiting(g, open, s0, node) && node in g
    requires s.LinkOk(g, node, |g[node]|, s.indices[node])
    requires x in Above(s, |s0.stack|)
    ensures OnCycle(g, x) <==> |s.stack| - |s0.stack| > 1 || node in g[node]
  {
    var k := |s0.stack|;
    PopConnected(g, open, s0, s, node, x);
    if |s.stack| - k > 1 {
      var y := if x == node then s.stack[k + 1] else node;
      assert s.stack[k + 1] == s.stack[k..][1] && s.stack[k] == s.stack[k..][0];
      assert y in Above(s, k) && y != x;
      PopConnected(g, open, s0, s, node, y);
      ReachesTrans(g, x, node, y);
      ReachesTrans(g, y, node, x);
      RoundTripCycles(g, x, y);
    } else {
      assert s.stack[k..] == [node];
      assert x == node;
      if node in g[node] {
        ReachesSelf(g, node);
        assert Edge(g, node, node);
      } else if OnCycle(g, node) {
        var z :| Edge(g, node, z) && Reaches(g, z, node);
        PopClosed(g, open, s0, s, node);
        assert z in s.Finished();
        ClosedKeepsReach(g, s.Finished(), z, node);
      }
    }
  }

  lemma RoundTripCycles(g: Graph, x: TaskId, y: TaskId)
    requires x != y && Reaches(g, x, y) && Reaches(g, y, x)
    ensures OnCycle(g, x)
  {
    var p :| Connects(g, p, x, y);
    var z := p[1];
    assert Edge(g, p[0], p[1]);
    assert Connects(g, p[1..], z, y);
    ReachesTrans(g, z, y, x);
  }

  /** The state after the pop, the component recorded when it is cyclic. */
  function Close(g: Graph, s: Search, k: nat, node: TaskId): Search
    requires k <= |s.stack| && node in g
  {
    Pop(s, k).(cyclic := s.cyclic + if |s.stack| - k > 1 || node in g[node] then Above(s, k) else {})
  }

  lemma CloseExact(g: Graph, open: set<TaskId>, s0: Search, s: Search, node: TaskId)
    requires s0.Ordered(g) && open <= s0.onStack
    requires s.Visiting(g, open, s0, node) && node in g
    requires s.LinkOk(g, node, |g[node]|, s.indices[node])
    ensures Close(g, s, |s0.stack|, node).Exact(g)
  {
    var k := |s0.stack|;
    forall x | x in Above(s, k)
      ensures x in s.onStack && (OnCycle(g, x) <==> |s.stack| - k > 1 || node in g[node])
    {
      AboveStacked(g, s, k, x);
      PopCycles(g, open, s0, s, node, x);
    }
    PopClosed(g, open, s0, s, node);
  }

  lemma CloseBounds(g: Graph, s0: Search, s: Search, low: nat)
    requires s.Ordered(g) && |s0.stack| < |s.stack| && s.indices[s.stack[|s0.stack|]] == s0.index
    ensures Pop(s, |s0.stack|).LowBounds(g, s0.index, low)
    ensures s.stack[|s0.stack|] !in Pop(s, |s0.stack|).onStack
  {
  }

  lemma CloseOk(g: Graph, open: set<TaskId>, s0: Search, s: Search, node: TaskId)
    requires s0.Ok(g, open)
    requires s.Visiting(g, open, s0, node) && node in g && node !in s0.indices
    requires s.LinkOk(g, node, |g[node]|, s.indices[node])
    ensures Close(g, s, |s0.stack|, node).Ok(g, open)
  {
    hide Reaches, OnCycle, Search.LinkOk;
    PopOk(g, open, s0, s, node);
    PopClosed(g, open, s0, s, node);
    CloseExact(g, open, s0, s, node);
    forall x | x in Close(g, s, |s0.stack|, node).onStack
      ensures Close(g, s, |s0.stack|, node).Grounded(g, open, x)
    {
      assert Pop(s, |s0.stack|).Grounded(g, open, x);
    }
  }

  lemma CloseReturns(g: Graph, open: set<TaskId>, s0: Search, s: Search, node: TaskId)
    requires s0.Ok(g, open)
    requires s.Visiting(g, open, s0, node) && node in g && node !in s0.indices
    requires s.LinkOk(g, node, |g[node]|, s.indices[node])
    ensures Close(g, s, |s0.stack|, node).Visited(g, open, s0, node, s.indices[node])
  {
    PopExtends(g, s0, s);
    CloseBounds(g, s0, s, s.indices[node]);
    CloseOk(g, open, s0, s, node);
  }

  lemma TargetReached(g: Graph, open: set<TaskId>, s0: Search, s: Search, node: TaskId, target: TaskId)
    requires s0.Ok(g, open)
    requires s.Visiting(g, open, s0, node) && Edge(g, node, target)
    ensures forall x :: x in open + {node} ==> Reaches(g, x, target)
  {
    EdgeReaches(g, node, target);
    forall x | x in open + {node}
      ensures Reaches(g, x, target)
    {
      ReachesUpTo(g, open, s0, s, node, x);
      ReachesTrans(g, x, node, target);
    }
  }

  lemma ReachesUpTo(g: Graph, open: set<TaskId>, s0: Search, s: Search, node: TaskId, x: TaskId)
    requires s.Visiting(g, open, s0, node) && x in open + {node}
    requires x == node || s.indices[x] <= s.indices[node]
    ensures Reaches(g, x, node)
  {
  }

  /** What the body of a visit may use without looking inside its invariant. */
  lemma VisitingFacts(g: Graph, open: set<TaskId>, s0: Search, s: Search, node: TaskId)
    requires s.Visiting(g, open, s0, node)
    ensures s.Ok(g, open + {node})
    ensures node in s.indices && s.indices[node] == s0.index
    ensures |s0.stack| < |s.stack| && s.stack[|s0.stack|] == node
    ensures forall x :: x in s0.indices ==> x in s.indices
  {
  }

  /** With no visit open the stack is empty, so what was recorded is exact. */
  lemma AllVisited(g: Graph, s: Search)
    requires s.Ok(g, {}) && forall x :: x in g ==> x in s.indices
    ensures s.cyclic == TasksOnCycles(g)
  {
    forall x
      ensures x !in s.onStack
    {
      assert x in s.onStack ==> s.Grounded(g, {}, x);
    }
    assert s.Finished() == g.Keys;
  }

  lemma VisitedFacts(g: Graph, open: set<TaskId>, s0: Search, s: Search, node: TaskId, low: nat)
    requires s.Visited(g, open, s0, node, low)
    ensures s.Ok(g, open)
    ensures forall x :: x in s0.indices ==> x in s.indices
  {
  }

  lemma KeepOpenReturns(g: Graph, open: set<TaskId>, s0: Search, s: Search, node: TaskId, low: nat)
    requires s0.Ok(g, open) && s.Visiting(g, open, s0, node) && node !in s0.indices && node in g
    requires s.LinkOk(g, node, |g[node]|, low) && low != s.indices[node]
    ensures s.Visited(g, open, s0, node, low)
  {
    KeepOpenOk(g, open, s0, s, node, low);
    KeepOpenBounds(g, s, node, low);
  }

  lemma KeepOpenBounds(g: Graph, s: Search, node: TaskId, low: nat)
    requires s.Ordered(g) && node in s.onStack && node in g
    requires s.LinkOk(g, node, |g[node]|, low)
    ensures s.LowBounds(g, s.indices[node], low)
  {
  }

  /** The set of tasks on some cycle, which is what the search has to return. */
  ghost function TasksOnCycles(g: Graph): set<TaskId> {
    set x | x in g && OnCycle(g, x)
  }
}
