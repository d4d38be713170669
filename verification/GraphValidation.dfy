/**
 * Task graphs and their validation: structural checks over the dependency list
 * followed by a three-colour depth-first search over the blocking edges.
 */
module GraphValidation {
  import opened Identifiers
  import opened Digraphs

  datatype DependencyKind = Blocks | Related

  datatype Dependency = Dependency(id: DependencyId, taskId: TaskId, dependsOn: TaskId, kind: DependencyKind)

  datatype TaskGraph = TaskGraph(taskIds: seq<TaskId>, dependencies: seq<Dependency>)

  datatype GraphError =
    | DuplicateTask
    | UnknownTask
    | SelfDependency
    | DuplicateDependencyId
    | DuplicateDependency
    | CyclicDependencies

  function KindName(kind: DependencyKind): string {
    if kind.Blocks? then "blocks" else "related"
  }

  /** The text the program compares when it looks for a repeated dependency. */
  function DependencyKey(d: Dependency): string {
    d.taskId.value + ":" + d.dependsOn.value + ":" + KindName(d.kind)
  }

  function BlockingEdges(dependencies: seq<Dependency>): set<Edge> {
    set d | d in dependencies && d.kind.Blocks? :: Edge(d.taskId, d.dependsOn)
  }

  ghost predicate NoDuplicates<T>(s: seq<T>) {
    forall i, j :: 0 <= i < j < |s| ==> s[i] != s[j]
  }

  // ---- What an accepted graph is ----

  ghost predicate DistinctIdsAndKeys(dependencies: seq<Dependency>) {
    forall i, j :: 0 <= i < j < |dependencies| ==>
      && dependencies[i].id != dependencies[j].id
      && DependencyKey(dependencies[i]) != DependencyKey(dependencies[j])
  }

  ghost predicate WellFormed(g: TaskGraph) {
    && NoDuplicates(g.taskIds)
    && (forall d :: d in g.dependencies ==> d.taskId in g.taskIds && d.dependsOn in g.taskIds)
    && (forall d :: d in g.dependencies ==> d.taskId != d.dependsOn)
    && DistinctIdsAndKeys(g.dependencies)
  }

  ghost predicate Accepted(g: TaskGraph) {
    WellFormed(g) && Acyclic(BlockingEdges(g.dependencies))
  }

  /** What is wrong with the k-th dependency, given the ones listed before it. */
  ghost function DependencyFault(g: TaskGraph, k: nat): Option<GraphError>
    requires k < |g.dependencies|
  {
    var d := g.dependencies[k];
    if d.taskId !in g.taskIds || d.dependsOn !in g.taskIds then Some(UnknownTask)
    else if d.taskId == d.dependsOn then Some(SelfDependency)
    else if exists j :: 0 <= j < k && g.dependencies[j].id == d.id then Some(DuplicateDependencyId)
    else if exists j :: 0 <= j < k && DependencyKey(g.dependencies[j]) == DependencyKey(d) then
      Some(DuplicateDependency)
    else None
  }

  ghost predicate FirstFault(g: TaskGraph, k: nat, error: GraphError) {
    && k < |g.dependencies|
    && DependencyFault(g, k) == Some(error)
    && forall j :: 0 <= j < k ==> DependencyFault(g, j) == None
  }

  /** The structural conditions are exactly the absence of a fault at every position. */
  lemma WellFormedMeansNoFault(g: TaskGraph)
    ensures WellFormed(g) <==>
            NoDuplicates(g.taskIds) && forall k :: 0 <= k < |g.dependencies| ==> DependencyFault(g, k) == None
  {
    if NoDuplicates(g.taskIds) && forall k :: 0 <= k < |g.dependencies| ==> DependencyFault(g, k) == None {
      forall d | d in g.dependencies
        ensures d.taskId in g.taskIds && d.dependsOn in g.taskIds && d.taskId != d.dependsOn
      {
        var k :| 0 <= k < |g.dependencies| && g.dependencies[k] == d;
        assert DependencyFault(g, k) == None;
      }
      forall i, j | 0 <= i < j < |g.dependencies|
        ensures g.dependencies[i].id != g.dependencies[j].id
        ensures DependencyKey(g.dependencies[i]) != DependencyKey(g.dependencies[j])
      {
        assert DependencyFault(g, j) == None;
      }
    }
  }

  // ---- Sets built from lists ----

  lemma {:induction false} SizeOfElements<T>(s: seq<T>)
    ensures |set x | x in s| <= |s|
    ensures |set x | x in s| == |s| <==> NoDuplicates(s)
  {
    if s != [] {
      var init, last := s[..|s| - 1], s[|s| - 1];
      SizeOfElements(init);
      var whole, part := set x | x in s, set x | x in init;
      assert s == init + [last];
      assert whole == part + {last};
      if last in init {
        assert whole == part;
        var i :| 0 <= i < |init| && init[i] == last;
        assert s[i] == s[|s| - 1];
      } else {
        assert forall i :: 0 <= i < |s| - 1 ==> s[i] == init[i];
      }
    }
  }

  // ---- Adjacency lists ----

  type Adjacency = map<TaskId, seq<TaskId>>

  function Successors(adjacency: Adjacency, v: TaskId): seq<TaskId> {
    if v in adjacency then adjacency[v] else []
  }

  ghost predicate Represents(adjacency: Adjacency, edges: set<Edge>) {
    forall v, w :: Edge(v, w) in edges <==> w in Successors(adjacency, v)
  }

  ghost predicate AllReach(edges: set<Edge>, nodes: set<TaskId>, target: TaskId) {
    forall g :: g in nodes ==> exists w :: Edge(g, w) in edges && Reaches(edges, w, target)
  }

  ghost predicate CycleFree(edges: set<Edge>, nodes: set<TaskId>) {
    forall v :: v in nodes ==> !OnCycle(edges, v)
  }

  lemma AllReachStep(edges: set<Edge>, nodes: set<TaskId>, v: TaskId, w: TaskId)
    requires AllReach(edges, nodes, v) && Edge(v, w) in edges
    ensures AllReach(edges, nodes + {v}, w)
  {
    ReachesSelf(edges, w);
    forall g | g in nodes
      ensures exists x :: Edge(g, x) in edges && Reaches(edges, x, w)
    {
      var x :| Edge(g, x) in edges && Reaches(edges, x, v);
      ReachesAlongEdge(edges, v, w, w);
      ReachesTransitive(edges, x, v, w);
    }
  }

  /** A node whose successors are all finished, and which is not finished itself, lies on no cycle. */
  lemma FinishNode(edges: set<Edge>, finished: set<TaskId>, v: TaskId)
    requires Closed(edges, finished) && v !in finished
    requires forall w :: Edge(v, w) in edges ==> w in finished
    ensures !OnCycle(edges, v)
  {
    if OnCycle(edges, v) {
      var w :| Edge(v, w) in edges && Reaches(edges, w, v);
      ClosedUnderReaches(edges, finished, w, v);
    }
  }

  /** The search state shared by the recursive visits. */
  class CycleSearch {
    const blockingEdges: Adjacency
    var visiting: set<TaskId>
    var visited: set<TaskId>

    constructor (blockingEdges: Adjacency)
      ensures this.blockingEdges == blockingEdges && visiting == {} && visited == {}
    {
      this.blockingEdges := blockingEdges;
      visiting, visited := {}, {};
    }

    ghost predicate Valid(edges: set<Edge>)
      reads this
    {
      && Represents(blockingEdges, edges)
      && visiting !! visited
      && Closed(edges, visited)
      && CycleFree(edges, visited)
    }

    /** Returns true where the program throws its cycle error. */
    method Visit(taskId: TaskId, ghost edges: set<Edge>, ghost nodes: set<TaskId>) returns (cycle: bool)
      requires Valid(edges) && Closed(edges, nodes)
      requires taskId in nodes && visiting <= nodes && AllReach(edges, visiting, taskId)
      modifies this
      ensures cycle ==> !Acyclic(edges)
      ensures !cycle ==>
                && Valid(edges) && visiting == old(visiting)
                && old(visited) <= visited && taskId in visited
      decreases nodes - visiting
    {
      if taskId in visiting {
        assert OnCycle(edges, taskId);
        return true;
      }
      if taskId in visited {
        return false;
      }
      ghost var outer := visiting;
      visiting := visiting + {taskId};
      var next := Successors(blockingEdges, taskId);
      for i := 0 to |next|
        invariant Valid(edges) && visiting == outer + {taskId} && old(visited) <= visited
        invariant forall j :: 0 <= j < i ==> next[j] in visited
      {
        assert Edge(taskId, next[i]) in edges;
        AllReachStep(edges, outer, taskId, next[i]);
        cycle := Visit(next[i], edges, nodes);
        if cycle {
          return true;
        }
      }
      FinishNode(edges, visited, taskId);
      visiting := visiting - {taskId};
      visited := visited + {taskId};
      assert visiting == outer;
      return false;
    }
  }

  /** The loop over the dependencies: the first fault, or the adjacency lists of the blocking edges. */
  method CollectBlockingEdges(g: TaskGraph) returns (error: Option<GraphError>, blockingEdges: Adjacency)
    ensures error == None ==>
              && (forall j :: 0 <= j < |g.dependencies| ==> DependencyFault(g, j) == None)
              && Represents(blockingEdges, BlockingEdges(g.dependencies))
    ensures error.Some? ==> exists k :: FirstFault(g, k, error.value)
  {
    var taskIds := set t | t in g.taskIds;
    var dependencyKeys: set<string> := {};
    var dependencyIds: set<DependencyId> := {};
    blockingEdges := map[];
    for k := 0 to |g.dependencies|
      invariant forall x :: x in dependencyIds <==> exists j :: 0 <= j < k && g.dependencies[j].id == x
      invariant forall x :: x in dependencyKeys <==>
                            exists j :: 0 <= j < k && DependencyKey(g.dependencies[j]) == x
      invariant Represents(blockingEdges, BlockingEdges(g.dependencies[..k]))
      invariant forall j :: 0 <= j < k ==> DependencyFault(g, j) == None
    {
      var d := g.dependencies[k];
      var fault := None;
      if d.taskId !in taskIds || d.dependsOn !in taskIds {
        fault := Some(UnknownTask);
      } else if d.taskId == d.dependsOn {
        fault := Some(SelfDependency);
      } else if d.id in dependencyIds {
        fault := Some(DuplicateDependencyId);
      } else if DependencyKey(d) in dependencyKeys {
        fault := Some(DuplicateDependency);
      }
      assert fault == DependencyFault(g, k);
      if fault.Some? {
        assert FirstFault(g, k, fault.value);
        return fault, blockingEdges;
      }
      dependencyIds := dependencyIds + {d.id};
      dependencyKeys := dependencyKeys + {DependencyKey(d)};
      AppendDependency(blockingEdges, g.dependencies, k);
      if d.kind.Blocks? {
        blockingEdges := blockingEdges[d.taskId := Successors(blockingEdges, d.taskId) + [d.dependsOn]];
      }
    }
    assert g.dependencies[..|g.dependencies|] == g.dependencies;
    error := None;
  }

  /** The program's entry point: duplicate tasks, then the dependency list, then the search from every task. */
  method ValidateTaskGraph(g: TaskGraph) returns (error: Option<GraphError>)
    ensures error == None <==> Accepted(g)
    ensures error == Some(DuplicateTask) <==> !NoDuplicates(g.taskIds)
    ensures error == Some(CyclicDependencies) <==> WellFormed(g) && !Acyclic(BlockingEdges(g.dependencies))
    ensures error.Some? && error.value !in {DuplicateTask, CyclicDependencies} ==>
              NoDuplicates(g.taskIds) && exists k :: FirstFault(g, k, error.value)
    // What each error says about the graph: the checks on a dependency come in this order.
    ensures error == Some(UnknownTask) ==>
              exists d :: d in g.dependencies && (d.taskId !in g.taskIds || d.dependsOn !in g.taskIds)
    ensures error == Some(SelfDependency) ==>
              exists d :: d in g.dependencies && d.taskId == d.dependsOn && d.taskId in g.taskIds
    ensures error == Some(DuplicateDependencyId) ==>
              exists i, j :: 0 <= i < j < |g.dependencies| && g.dependencies[i].id == g.dependencies[j].id
                && g.dependencies[j].taskId != g.dependencies[j].dependsOn
    ensures error == Some(DuplicateDependency) ==>
              exists i, j :: 0 <= i < j < |g.dependencies|
                && DependencyKey(g.dependencies[i]) == DependencyKey(g.dependencies[j])
                && g.dependencies[i].id != g.dependencies[j].id
  {
    WellFormedMeansNoFault(g);
    var taskIds := set t | t in g.taskIds;
    SizeOfElements(g.taskIds);
    if |taskIds| != |g.taskIds| {
      return Some(DuplicateTask);
    }
    var blockingEdges;
    error, blockingEdges := CollectBlockingEdges(g);
    if error.Some? {
      return;
    }
    ghost var edges := BlockingEdges(g.dependencies);
    var search := new CycleSearch(blockingEdges);
    for i := 0 to |g.taskIds|
      invariant search.Valid(edges) && search.visiting == {} && fresh(search)
      invariant forall j :: 0 <= j < i ==> g.taskIds[j] in search.visited
    {
      var cycle := search.Visit(g.taskIds[i], edges, taskIds);
      if cycle {
        return Some(CyclicDependencies);
      }
    }
    AllFinished(g, edges, search.visited);
    return None;
  }

  lemma AppendDependency(adjacency: Adjacency, dependencies: seq<Dependency>, k: nat)
    requires k < |dependencies| && Represents(adjacency, BlockingEdges(dependencies[..k]))
    ensures var d := dependencies[k];
            Represents(if d.kind.Blocks? then adjacency[d.taskId := Successors(adjacency, d.taskId) + [d.dependsOn]]
                       else adjacency,
                       BlockingEdges(dependencies[..k + 1]))
  {
    var d := dependencies[k];
    assert dependencies[..k + 1] == dependencies[..k] + [d];
    assert forall x :: x in dependencies[..k + 1] <==> x in dependencies[..k] || x == d;
    if d.kind.Blocks? {
      assert BlockingEdges(dependencies[..k + 1]) == BlockingEdges(dependencies[..k]) + {Edge(d.taskId, d.dependsOn)};
    } else {
      assert BlockingEdges(dependencies[..k + 1]) == BlockingEdges(dependencies[..k]);
    }
  }

  lemma AllFinished(g: TaskGraph, edges: set<Edge>, visited: set<TaskId>)
    requires edges == BlockingEdges(g.dependencies) && CycleFree(edges, visited)
    requires forall d :: d in g.dependencies ==> d.taskId in g.taskIds
    requires forall j :: 0 <= j < |g.taskIds| ==> g.taskIds[j] in visited
    ensures Acyclic(edges)
  {
    forall v
      ensures !OnCycle(edges, v)
    {
      if v in g.taskIds {
        assert v in visited;
      } else {
        assert forall w :: Edge(v, w) !in edges;
      }
    }
  }
}
