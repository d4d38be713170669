/**
 * Reachability over finite directed graphs of tasks. This is the one reference
 * notion that both cycle algorithms, the dependency store and the scheduler's
 * progress argument are measured against.
 */
module Digraphs {
  import opened Identifiers

  /** `from` depends on `to`. */
  datatype Edge = Edge(from: TaskId, to: TaskId)

  ghost predicate IsPath(edges: set<Edge>, p: seq<TaskId>) {
    && |p| >= 1
    && forall i :: 0 <= i < |p| - 1 ==> Edge(p[i], p[i + 1]) in edges
  }

  ghost predicate Walk(edges: set<Edge>, p: seq<TaskId>, a: TaskId, b: TaskId) {
    IsPath(edges, p) && p[0] == a && p[|p| - 1] == b
  }

  /** A path of zero or more edges leads from `a` to `b`. */
  ghost predicate Reaches(edges: set<Edge>, a: TaskId, b: TaskId) {
    exists p :: Walk(edges, p, a, b)
  }

  /** Following one edge out of `v` and then some path leads back to `v`. */
  ghost predicate OnCycle(edges: set<Edge>, v: TaskId) {
    exists w :: Edge(v, w) in edges && Reaches(edges, w, v)
  }

  ghost predicate Acyclic(edges: set<Edge>) {
    forall v :: !OnCycle(edges, v)
  }

  ghost predicate Closed(edges: set<Edge>, nodes: set<TaskId>) {
    forall e :: e in edges && e.from in nodes ==> e.to in nodes
  }

  lemma ReachesSelf(edges: set<Edge>, a: TaskId)
    ensures Reaches(edges, a, a)
  {
    assert Walk(edges, [a], a, a);
  }

  lemma ReachesAlongEdge(edges: set<Edge>, a: TaskId, b: TaskId, c: TaskId)
    requires Edge(a, b) in edges && Reaches(edges, b, c)
    ensures Reaches(edges, a, c)
  {
    var p :| Walk(edges, p, b, c);
    assert Walk(edges, [a] + p, a, c);
  }

  lemma ReachesTransitive(edges: set<Edge>, a: TaskId, b: TaskId, c: TaskId)
    requires Reaches(edges, a, b) && Reaches(edges, b, c)
    ensures Reaches(edges, a, c)
  {
    var p :| Walk(edges, p, a, b);
    var q :| Walk(edges, q, b, c);
    var r := p + q[1..];
    forall i | 0 <= i < |r| - 1
      ensures Edge(r[i], r[i + 1]) in edges
    {
      if i >= |p| - 1 {
        assert r[i] == q[i - (|p| - 1)] && r[i + 1] == q[i + 1 - (|p| - 1)];
      }
    }
    assert Walk(edges, r, a, c);
  }

  lemma ReachesMonotone(small: set<Edge>, large: set<Edge>, a: TaskId, b: TaskId)
    requires small <= large && Reaches(small, a, b)
    ensures Reaches(large, a, b)
  {
    var p :| Walk(small, p, a, b);
    assert Walk(large, p, a, b);
  }

  lemma TailPath(edges: set<Edge>, p: seq<TaskId>)
    requires IsPath(edges, p) && |p| > 1
    ensures IsPath(edges, p[1..]) && Edge(p[0], p[1]) in edges
  {
    var q := p[1..];
    forall i | 0 <= i < |q| - 1
      ensures Edge(q[i], q[i + 1]) in edges
    {
      assert Edge(p[i + 1], p[i + 2]) in edges;
    }
  }

  /** Nothing outside a closed set can be reached from inside it. */
  lemma {:induction false} ClosedUnderPaths(edges: set<Edge>, nodes: set<TaskId>, p: seq<TaskId>)
    requires Closed(edges, nodes) && IsPath(edges, p) && p[0] in nodes
    ensures p[|p| - 1] in nodes
  {
    if |p| > 1 {
      TailPath(edges, p);
      ClosedUnderPaths(edges, nodes, p[1..]);
    }
  }

  lemma ClosedUnderReaches(edges: set<Edge>, nodes: set<TaskId>, a: TaskId, b: TaskId)
    requires Closed(edges, nodes) && a in nodes && Reaches(edges, a, b)
    ensures b in nodes
  {
    var p :| Walk(edges, p, a, b);
    ClosedUnderPaths(edges, nodes, p);
  }

  lemma AcyclicMonotone(small: set<Edge>, large: set<Edge>)
    requires small <= large && Acyclic(large)
    ensures Acyclic(small)
  {
    forall v
      ensures !OnCycle(small, v)
    {
      if OnCycle(small, v) {
        var w :| Edge(v, w) in small && Reaches(small, w, v);
        ReachesMonotone(small, large, w, v);
        assert OnCycle(large, v);
      }
    }
  }

  /** A path of the extended graph avoids the new edge, or enters and leaves through it. */
  lemma {:induction false} SplitAtNewEdge(edges: set<Edge>, from: TaskId, to: TaskId, p: seq<TaskId>)
    requires IsPath(edges + {Edge(from, to)}, p) && !Reaches(edges, to, from)
    ensures Reaches(edges, p[0], p[|p| - 1])
            || (Reaches(edges, p[0], from) && Reaches(edges, to, p[|p| - 1]))
  {
    if |p| == 1 {
      ReachesSelf(edges, p[0]);
    } else {
      var q := p[1..];
      var last := p[|p| - 1];
      TailPath(edges + {Edge(from, to)}, p);
      SplitAtNewEdge(edges, from, to, q);
      if Edge(p[0], q[0]) in edges {
        if Reaches(edges, q[0], last) {
          ReachesAlongEdge(edges, p[0], q[0], last);
        } else {
          ReachesAlongEdge(edges, p[0], q[0], from);
        }
      } else {
        ReachesSelf(edges, from);
      }
    }
  }

  /** Exactly the edges whose head does not already lead back to their tail keep a graph acyclic. */
  lemma AddEdgeKeepsAcyclic(edges: set<Edge>, from: TaskId, to: TaskId)
    requires Acyclic(edges)
    ensures Acyclic(edges + {Edge(from, to)}) <==> !Reaches(edges, to, from)
  {
    var larger := edges + {Edge(from, to)};
    if Reaches(edges, to, from) {
      ReachesMonotone(edges, larger, to, from);
      assert OnCycle(larger, from);
    } else {
      forall v
        ensures !OnCycle(larger, v)
      {
        if OnCycle(larger, v) {
          var w :| Edge(v, w) in larger && Reaches(larger, w, v);
          var p :| Walk(larger, p, w, v);
          NoWayBack(edges, from, to, v, w);
          SplitAtNewEdge(edges, from, to, p);
        }
      }
    }
  }

  lemma NoWayBack(edges: set<Edge>, from: TaskId, to: TaskId, v: TaskId, w: TaskId)
    requires Acyclic(edges) && !Reaches(edges, to, from) && Edge(v, w) in edges + {Edge(from, to)}
    ensures !Reaches(edges, w, v)
    ensures Reaches(edges, w, from) ==> !Reaches(edges, to, v)
  {
    if Edge(v, w) in edges {
      assert !OnCycle(edges, v);
      if Reaches(edges, w, from) && Reaches(edges, to, v) {
        ReachesAlongEdge(edges, v, w, from);
        ReachesTransitive(edges, to, v, from);
      }
    }
  }

  // ---- Well-foundedness: a non-empty finite set of an acyclic graph has a sink ----

  ghost predicate HasSuccessorIn(edges: set<Edge>, nodes: set<TaskId>, v: TaskId) {
    exists w :: w in nodes && Edge(v, w) in edges
  }

  ghost predicate Distinct(p: seq<TaskId>) {
    forall i, j :: 0 <= i < j < |p| ==> p[i] != p[j]
  }

  lemma {:induction false} DistinctFits(p: seq<TaskId>, nodes: set<TaskId>)
    requires Distinct(p) && forall x :: x in p ==> x in nodes
    ensures |p| <= |nodes|
  {
    if p != [] {
      var init, last := p[..|p| - 1], p[|p| - 1];
      assert last in nodes && last !in init;
      DistinctFits(init, nodes - {last});
    }
  }

  lemma SlicePath(edges: set<Edge>, p: seq<TaskId>, i: nat, j: nat)
    requires IsPath(edges, p) && i <= j < |p|
    ensures Reaches(edges, p[i], p[j])
  {
    var q := p[i..j + 1];
    forall k | 0 <= k < |q| - 1
      ensures Edge(q[k], q[k + 1]) in edges
    {
      assert Edge(p[i + k], p[(i + k) + 1]) in edges;
    }
    assert Walk(edges, q, p[i], p[j]);
  }

  lemma {:induction false} LongPath(edges: set<Edge>, nodes: set<TaskId>, start: TaskId, n: nat)
    returns (p: seq<TaskId>)
    requires start in nodes && forall v :: v in nodes ==> HasSuccessorIn(edges, nodes, v)
    ensures |p| == n + 1 && IsPath(edges, p) && forall x :: x in p ==> x in nodes
  {
    if n == 0 {
      p := [start];
    } else {
      var q := LongPath(edges, nodes, start, n - 1);
      assert q[|q| - 1] in q;
      assert HasSuccessorIn(edges, nodes, q[|q| - 1]);
      var w :| w in nodes && Edge(q[|q| - 1], w) in edges;
      p := q + [w];
    }
  }

  lemma SinkExists(edges: set<Edge>, nodes: set<TaskId>) returns (sink: TaskId)
    requires Acyclic(edges) && nodes != {}
    ensures sink in nodes && forall w :: w in nodes ==> Edge(sink, w) !in edges
  {
    if v :| v in nodes && !HasSuccessorIn(edges, nodes, v) {
      sink := v;
    } else {
      var start :| start in nodes;
      var p := LongPath(edges, nodes, start, |nodes|);
      if Distinct(p) {
        DistinctFits(p, nodes);
      }
      var i, j :| 0 <= i < j < |p| && p[i] == p[j];
      SlicePath(edges, p, i + 1, j);
      assert Edge(p[i], p[i + 1]) in edges;
      assert OnCycle(edges, p[i]);
      sink := start;
    }
  }
}
