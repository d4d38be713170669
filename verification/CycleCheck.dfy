/** The iterative cycle test a tracker runs before it adds a dependency. */
module CycleCheck {
  import opened Identifiers
  import opened Digraphs
  import opened GraphValidation

  type DependencyMap = map<TaskId, set<TaskId>>

  function DependenciesOf(deps: DependencyMap, v: TaskId): set<TaskId> {
    if v in deps then deps[v] else {}
  }

  function EdgesOf(deps: DependencyMap): set<Edge> {
    set v, w | v in deps && w in deps[v] :: Edge(v, w)
  }

  ghost function NodesOf(deps: DependencyMap, start: TaskId): set<TaskId> {
    {start} + deps.Keys + set v, w | v in deps && w in deps[v] :: w
  }

  ghost predicate Explored(edges: set<Edge>, visited: set<TaskId>, stack: seq<TaskId>) {
    forall e :: e in edges && e.from in visited ==> e.to in visited || e.to in stack
  }

  /**
   * Would the edge `from` -> `to` close a cycle? A depth-first walk from `to` with an
   * explicit stack; the order in which a node's dependencies are pushed is left open.
   */
  method WouldCreateCycle(deps: DependencyMap, from: TaskId, to: TaskId) returns (cycle: bool)
    ensures cycle <==> Reaches(EdgesOf(deps), to, from)
  {
    ghost var edges, nodes := EdgesOf(deps), NodesOf(deps, to);
    var visited: set<TaskId> := {};
    var stack := [to];
    ReachesSelf(edges, to);
    while |stack| > 0
      invariant forall v :: v in stack || v in visited ==> Reaches(edges, to, v)
      invariant forall v :: v in stack ==> v in nodes
      invariant Explored(edges, visited, stack)
      invariant to in visited || to in stack
      invariant from !in visited
      decreases nodes - visited, |stack|
    {
      var current := stack[|stack| - 1];
      ghost var before := stack;
      stack := stack[..|stack| - 1];
      assert before == stack + [current];
      if current == from {
        return true;
      }
      if current in visited {
        continue;
      }
      visited := visited + {current};
      var pending := DependenciesOf(deps, current);
      ghost var base := stack;
      while pending != {}
        invariant pending <= DependenciesOf(deps, current)
        invariant forall v :: v in stack <==> v in base || v in DependenciesOf(deps, current) - pending
      {
        var dep :| dep in pending;
        pending := pending - {dep};
        stack := stack + [dep];
      }
      forall v | v in stack
        ensures Reaches(edges, to, v) && v in nodes
      {
        if v !in base {
          assert Edge(current, v) in edges;
          ReachesSelf(edges, v);
          ReachesAlongEdge(edges, current, v, v);
          ReachesTransitive(edges, to, current, v);
        }
      }
      assert Explored(edges, visited, stack);
    }
    assert Closed(edges, visited);
    if Reaches(edges, to, from) {
      ClosedUnderReaches(edges, visited, to, from);
    }
    return false;
  }

  /**
   * The two cycle algorithms agree: on a graph the validator accepts, the validator
   * accepts one more blocking edge with a fresh id and key exactly when this test allows it.
   */
  lemma AllowedEdgeStaysAccepted(g: TaskGraph, d: Dependency, deps: DependencyMap)
    requires Accepted(g) && d.kind.Blocks? && EdgesOf(deps) == BlockingEdges(g.dependencies)
    requires d.taskId in g.taskIds && d.dependsOn in g.taskIds
    requires forall e :: e in g.dependencies ==> e.id != d.id && DependencyKey(e) != DependencyKey(d)
    ensures Accepted(g.(dependencies := g.dependencies + [d])) <==>
            !Reaches(EdgesOf(deps), d.dependsOn, d.taskId)
  {
    var larger := g.dependencies + [d];
    assert forall x :: x in larger <==> x in g.dependencies || x == d;
    assert BlockingEdges(larger) == BlockingEdges(g.dependencies) + {Edge(d.taskId, d.dependsOn)};
    AddEdgeKeepsAcyclic(BlockingEdges(g.dependencies), d.taskId, d.dependsOn);
    ReachesSelf(EdgesOf(deps), d.taskId);
    forall i, j | 0 <= i < j < |larger|
      ensures larger[i].id != larger[j].id && DependencyKey(larger[i]) != DependencyKey(larger[j])
    {
      assert larger[i] in g.dependencies;
    }
  }

  /**
   * The mock tracker tests against edges of every kind, so it may refuse more than the validator
   * would; what it allows, the validator accepts.
   */
  lemma AllowedByTrackerStaysAccepted(g: TaskGraph, d: Dependency, deps: DependencyMap)
    requires Accepted(g) && d.kind.Blocks? && BlockingEdges(g.dependencies) <= EdgesOf(deps)
    requires d.taskId in g.taskIds && d.dependsOn in g.taskIds
    requires forall e :: e in g.dependencies ==> e.id != d.id && DependencyKey(e) != DependencyKey(d)
    requires !Reaches(EdgesOf(deps), d.dependsOn, d.taskId)
    ensures Accepted(g.(dependencies := g.dependencies + [d]))
  {
    var larger := g.dependencies + [d];
    assert forall x :: x in larger <==> x in g.dependencies || x == d;
    assert BlockingEdges(larger) == BlockingEdges(g.dependencies) + {Edge(d.taskId, d.dependsOn)};
    if Reaches(BlockingEdges(g.dependencies), d.dependsOn, d.taskId) {
      ReachesMonotone(BlockingEdges(g.dependencies), EdgesOf(deps), d.dependsOn, d.taskId);
    }
    AddEdgeKeepsAcyclic(BlockingEdges(g.dependencies), d.taskId, d.dependsOn);
    ReachesSelf(EdgesOf(deps), d.taskId);
    forall i, j | 0 <= i < j < |larger|
      ensures larger[i].id != larger[j].id && DependencyKey(larger[i]) != DependencyKey(larger[j])
    {
      assert larger[i] in g.dependencies;
    }
  }
}
