/** Dependency graphs: a task mapped to the list of tasks it depends on.
    Targets that are not themselves tasks are not edges, as in both searches of the repository. */
module Graphs {
  datatype TaskId = TaskId(name: string)
  type Graph = map<TaskId, seq<TaskId>>

  ghost predicate Edge(g: Graph, u: TaskId, v: TaskId) {
    u in g && v in g && v in g[u]
  }

  ghost predicate IsPath(g: Graph, p: seq<TaskId>) {
    |p| > 0 && forall i, j :: 0 <= i < j < |p| && j == i + 1 ==> Edge(g, p[i], p[j])
  }

  ghost predicate Connects(g: Graph, p: seq<TaskId>, u: TaskId, v: TaskId) {
    IsPath(g, p) && p[0] == u && p[|p| - 1] == v
  }

  /** v can be reached from u along zero or more edges. */
  ghost predicate Reaches(g: Graph, u: TaskId, v: TaskId) {
    exists p :: Connects(g, p, u, v)
  }

  /** x lies on a cycle: one edge leaves it and a path comes back. */
  ghost predicate OnCycle(g: Graph, x: TaskId) {
    exists y :: Edge(g, x, y) && Reaches(g, y, x)
  }

  ghost predicate Acyclic(g: Graph) {
    forall x :: x in g ==> !OnCycle(g, x)
  }

  /** Every edge that starts in c ends in c. */
  ghost predicate Closed(g: Graph, c: set<TaskId>) {
    forall u, v :: u in c && Edge(g, u, v) ==> v in c
  }

  lemma ReachesSelf(g: Graph, u: TaskId)
    ensures Reaches(g, u, u)
  {
    assert Connects(g, [u], u, u);
  }

  lemma ReachesTrans(g: Graph, u: TaskId, v: TaskId, w: TaskId)
    requires Reaches(g, u, v) && Reaches(g, v, w)
    ensures Reaches(g, u, w)
  {
    var p :| Connects(g, p, u, v);
    var q :| Connects(g, q, v, w);
    var r := p + q[1..];
    forall i, j | 0 <= i < j < |r| && j == i + 1
      ensures Edge(g, r[i], r[j])
    {
      if i >= |p| - 1 {
        assert r[i] == q[i - |p| + 1] && r[j] == q[j - |p| + 1];
      }
    }
    assert Connects(g, r, u, w);
  }

  lemma EdgeReaches(g: Graph, u: TaskId, v: TaskId)
    requires Edge(g, u, v)
    ensures Reaches(g, u, v)
  {
    assert Connects(g, [u, v], u, v);
  }

  /** A set closed under edges cannot be left. */
  lemma ClosedKeepsReach(g: Graph, c: set<TaskId>, u: TaskId, v: TaskId)
    requires Closed(g, c) && u in c && Reaches(g, u, v)
    ensures v in c
  {
    var p :| Connects(g, p, u, v);
    var i := 0;
    while i < |p| - 1
      invariant 0 <= i < |p|
      invariant p[i] in c
    {
      assert Edge(g, p[i], p[i + 1]);
      i := i + 1;
    }
  }

  /** The non-empty walks: what an edge followed by a path can reach. */
  ghost function Beyond(g: Graph, u: TaskId): (r: set<TaskId>)
    ensures forall w :: w in r <==> w in g && exists v :: Edge(g, u, v) && Reaches(g, v, w)
  {
    set w | w in g && exists v :: Edge(g, u, v) && Reaches(g, v, w)
  }

  lemma BeyondShrinks(g: Graph, u: TaskId, v: TaskId)
    requires Edge(g, u, v) && !OnCycle(g, v)
    ensures Beyond(g, v) < Beyond(g, u)
  {
    ReachesSelf(g, v);
    assert v in Beyond(g, u) && v !in Beyond(g, v);
    forall w | w in Beyond(g, v)
      ensures w in Beyond(g, u)
    {
      var x :| Edge(g, v, x) && Reaches(g, x, w);
      EdgeReaches(g, v, x);
      ReachesTrans(g, v, x, w);
    }
  }

  /** In an acyclic graph every non-empty set of tasks has a member none of whose
      dependencies is in the set. */
  lemma {:induction false} SinkExists(g: Graph, u: set<TaskId>, start: TaskId) returns (sink: TaskId)
    requires Acyclic(g) && u <= g.Keys && start in u
    ensures sink in u && forall v :: v in u ==> !Edge(g, sink, v)
    decreases |Beyond(g, start)|
  {
    if v :| v in u && Edge(g, start, v) {
      BeyondShrinks(g, start, v);
      SubsetSmaller(Beyond(g, v), Beyond(g, start));
      sink := SinkExists(g, u, v);
    } else {
      sink := start;
    }
  }

  lemma SubsetSmaller(a: set<TaskId>, b: set<TaskId>)
    requires a < b
    ensures |a| < |b|
  {
    var d := b - a;
    assert b == a + d && |a + d| == |a| + |d|;
    var x :| x in b && x !in a;
    assert x in d;
  }
}
