/**
 * The in-memory tracker's dependency store: a map of dependencies by id and, for
 * each task, the ids of its dependencies in the order they were added.
 */
module DependencyStore {
  import opened Identifiers
  import opened Digraphs
  import opened GraphValidation
  import opened DependencyKeys
  import opened DependencyIds
  import opened CycleCheck

  datatype Store = Store(dependencies: map<DependencyId, Dependency>, depsByTask: map<TaskId, seq<DependencyId>>)

  const EMPTY := Store(map[], map[])

  function StoredEdges(s: Store): set<Edge> {
    set id | id in s.dependencies :: Edge(s.dependencies[id].taskId, s.dependencies[id].dependsOn)
  }

  function IdsOf(s: Store, t: TaskId): seq<DependencyId> {
    if t in s.depsByTask then s.depsByTask[t] else []
  }

  // ---- Specification of the mutations ----

  function NewDependency(a: TaskId, b: TaskId, kind: DependencyKind): Dependency {
    Dependency(PrintDependencyId("mock", a, b), a, b, kind)
  }

  function Inserted(ids: seq<DependencyId>, id: DependencyId): seq<DependencyId> {
    if id in ids then ids else ids + [id]
  }

  function Without(ids: seq<DependencyId>, id: DependencyId): seq<DependencyId> {
    if ids == [] then [] else (if ids[0] == id then [] else [ids[0]]) + Without(ids[1..], id)
  }

  function Put(s: Store, d: Dependency): Store {
    Store(s.dependencies[d.id := d], s.depsByTask[d.taskId := Inserted(IdsOf(s, d.taskId), d.id)])
  }

  ghost function Added(s: Store, a: TaskId, b: TaskId, kind: DependencyKind): Store {
    if Reaches(StoredEdges(s), b, a) then s else Put(s, NewDependency(a, b, kind))
  }

  function Removed(s: Store, id: DependencyId): Store {
    if id !in s.dependencies then s
    else
      var t := s.dependencies[id].taskId;
      Store(s.dependencies - {id},
            if t in s.depsByTask then s.depsByTask[t := Without(s.depsByTask[t], id)] else s.depsByTask)
  }

  function Found(dependencies: map<DependencyId, Dependency>, ids: seq<DependencyId>): seq<Dependency> {
    if ids == [] then []
    else (if ids[0] in dependencies then [dependencies[ids[0]]] else []) + Found(dependencies, ids[1..])
  }

  /** What listing the dependencies of `t` returns. */
  function Listing(s: Store, t: TaskId): seq<Dependency> {
    Found(s.dependencies, IdsOf(s, t))
  }

  class MockTracker {
    var dependencies: map<DependencyId, Dependency>
    var depsByTask: map<TaskId, seq<DependencyId>>

    function State(): Store
      reads this
    {
      Store(dependencies, depsByTask)
    }

    constructor ()
      ensures State() == EMPTY
    {
      dependencies, depsByTask := map[], map[];
    }

    /** Edges of every kind take part in the cycle test. */
    method BuildDependencyGraph() returns (graph: DependencyMap)
      ensures EdgesOf(graph) == StoredEdges(State())
    {
      graph := map[];
      var pending := dependencies.Keys;
      while pending != {}
        invariant pending <= dependencies.Keys
        invariant EdgesOf(graph) == StoredEdges(Store(dependencies - pending, depsByTask))
      {
        var id :| id in pending;
        var dep := dependencies[id];
        ghost var before := graph;
        graph := graph[dep.taskId := DependenciesOf(graph, dep.taskId) + {dep.dependsOn}];
        assert EdgesOf(graph) == EdgesOf(before) + {Edge(dep.taskId, dep.dependsOn)};
        MoreEdges(State(), pending, id);
        pending := pending - {id};
      }
      assert dependencies - {} == dependencies;
    }

    method AddDependency(a: TaskId, b: TaskId, kind: DependencyKind) returns (r: Result<Dependency, GraphError>)
      modifies this
      ensures r == (if old(Reaches(StoredEdges(State()), b, a)) then Failure(CyclicDependencies)
                    else Success(NewDependency(a, b, kind)))
      ensures State() == Added(old(State()), a, b, kind)
      // What is stored and answered is the dependency asked for, under its printed id.
      ensures r.Success? ==>
                && r.value.taskId == a && r.value.dependsOn == b && r.value.kind == kind
                && r.value.id == PrintDependencyId("mock", a, b)
                && dependencies == old(dependencies)[r.value.id := r.value] && r.value.id in IdsOf(State(), a)
                && (forall t :: t != a ==> IdsOf(State(), t) == old(IdsOf(State(), t)))
      ensures r.Failure? ==> State() == old(State())
    {
      var graph := BuildDependencyGraph();
      var cycle := WouldCreateCycle(graph, a, b);
      if cycle {
        return Failure(CyclicDependencies);
      }
      var dep := NewDependency(a, b, kind);
      dependencies := dependencies[dep.id := dep];
      var ids := if a in depsByTask then depsByTask[a] else [];
      if dep.id !in ids {
        ids := ids + [dep.id];
      }
      depsByTask := depsByTask[a := ids];
      return Success(dep);
    }

    method RemoveDependency(id: DependencyId)
      modifies this
      ensures State() == Removed(old(State()), id)
      ensures dependencies == old(dependencies) - {id}
      ensures forall t :: t !in old(depsByTask) || !(id in old(dependencies) && old(dependencies)[id].taskId == t) ==>
                IdsOf(State(), t) == old(IdsOf(State(), t))
    {
      if id !in dependencies {
        return;
      }
      var t := dependencies[id].taskId;
      if t in depsByTask {
        depsByTask := depsByTask[t := Without(depsByTask[t], id)];
      }
      dependencies := dependencies - {id};
    }
  }

  lemma MoreEdges(s: Store, pending: set<DependencyId>, id: DependencyId)
    requires id in pending && pending <= s.dependencies.Keys
    ensures var (d, part) := (s.dependencies[id], s.(dependencies := s.dependencies - pending));
            StoredEdges(s.(dependencies := s.dependencies - (pending - {id})))
            == StoredEdges(part) + {Edge(d.taskId, d.dependsOn)}
  {
    var d, part := s.dependencies[id], s.(dependencies := s.dependencies - pending);
    var more := s.(dependencies := s.dependencies - (pending - {id}));
    assert forall x :: x in more.dependencies <==> x in part.dependencies || x == id;
    forall e | e in StoredEdges(part) + {Edge(d.taskId, d.dependsOn)}
      ensures e in StoredEdges(more)
    {
      if e in StoredEdges(part) {
        var x :| x in part.dependencies && e == Edge(part.dependencies[x].taskId, part.dependencies[x].dependsOn);
        assert x in more.dependencies;
      } else {
        assert id in more.dependencies;
      }
    }
  }

  // ---- Invariants ----

  ghost predicate KeyedById(s: Store) {
    forall id :: id in s.dependencies ==>
                   && s.dependencies[id].id == id
                   && id == PrintDependencyId("mock", s.dependencies[id].taskId, s.dependencies[id].dependsOn)
  }

  /** The per-task index lists exactly the stored dependencies of each task, each once. */
  ghost predicate IndexExact(s: Store) {
    && (forall t, id :: id in IdsOf(s, t) <==> id in s.dependencies && s.dependencies[id].taskId == t)
    && (forall t :: NoDuplicates(IdsOf(s, t)))
  }

  lemma {:induction false} WithoutElements(ids: seq<DependencyId>, id: DependencyId)
    ensures forall x :: x in Without(ids, id) <==> x in ids && x != id
    ensures NoDuplicates(ids) ==> NoDuplicates(Without(ids, id))
  {
    if ids != [] {
      WithoutElements(ids[1..], id);
      var rest := Without(ids[1..], id);
      assert forall x :: x in ids <==> x == ids[0] || x in ids[1..];
      assert Without(ids, id) == (if ids[0] == id then [] else [ids[0]]) + rest;
      if NoDuplicates(ids) {
        assert NoDuplicates(ids[1..]);
        assert ids[0] !in ids[1..];
      }
    }
  }

  /** Adding keeps the stored graph acyclic, whatever the ids look like. */
  lemma AddKeepsAcyclic(s: Store, a: TaskId, b: TaskId, kind: DependencyKind)
    requires Acyclic(StoredEdges(s))
    ensures Acyclic(StoredEdges(Added(s, a, b, kind)))
  {
    if !Reaches(StoredEdges(s), b, a) {
      AddEdgeKeepsAcyclic(StoredEdges(s), a, b);
      AcyclicMonotone(StoredEdges(Added(s, a, b, kind)), StoredEdges(s) + {Edge(a, b)});
    }
  }

  lemma RemoveKeepsAcyclic(s: Store, id: DependencyId)
    requires Acyclic(StoredEdges(s))
    ensures Acyclic(StoredEdges(Removed(s, id)))
  {
    AcyclicMonotone(StoredEdges(Removed(s, id)), StoredEdges(s));
  }

  /** Storing a dependency keeps the index exact exactly when its id was not taken by another task. */
  lemma PutKeepsIndex(s: Store, d: Dependency)
    requires IndexExact(s)
    ensures IndexExact(Put(s, d)) <==>
            !(d.id in s.dependencies && s.dependencies[d.id].taskId != d.taskId)
  {
    var s' := Put(s, d);
    var ids := Inserted(IdsOf(s, d.taskId), d.id);
    assert forall x :: x in ids <==> x in IdsOf(s, d.taskId) || x == d.id;
    assert forall t :: t != d.taskId ==> IdsOf(s', t) == IdsOf(s, t);
    if d.id in s.dependencies && s.dependencies[d.id].taskId != d.taskId {
      var t := s.dependencies[d.id].taskId;
      assert d.id in IdsOf(s', t) && s'.dependencies[d.id].taskId != t;
    } else {
      assert NoDuplicates(ids);
      forall t, id
        ensures id in IdsOf(s', t) <==> id in s'.dependencies && s'.dependencies[id].taskId == t
      {
        assert id in IdsOf(s, t) <==> id in s.dependencies && s.dependencies[id].taskId == t;
      }
    }
  }

  lemma RemoveKeepsIndex(s: Store, id: DependencyId)
    requires IndexExact(s)
    ensures IndexExact(Removed(s, id))
  {
    if id in s.dependencies {
      var t := s.dependencies[id].taskId;
      var s' := Removed(s, id);
      assert id in IdsOf(s, t);
      WithoutElements(IdsOf(s, t), id);
      forall u
        ensures NoDuplicates(IdsOf(s', u))
        ensures forall x :: x in IdsOf(s', u) <==> x in s'.dependencies && s'.dependencies[x].taskId == u
      {
        assert forall x :: x in IdsOf(s, u) <==> x in s.dependencies && s.dependencies[x].taskId == u;
      }
    }
  }

  // ---- What the mutations change ----

  /** An added dependency is listed last; the listings of other tasks stay as they were. */
  lemma AddedIsListedLast(s: Store, a: TaskId, b: TaskId, kind: DependencyKind, t: TaskId)
    requires KeyedById(s) && IndexExact(s) && !Reaches(StoredEdges(s), b, a)
    requires PrintDependencyId("mock", a, b) !in s.dependencies
    ensures Listing(Added(s, a, b, kind), t) ==
            Listing(s, t) + if t == a then [Dependency(PrintDependencyId("mock", a, b), a, b, kind)] else []
  {
    var d := NewDependency(a, b, kind);
    var s' := Added(s, a, b, kind);
    assert d.id !in IdsOf(s, t);
    FoundAgrees(s.dependencies, s'.dependencies, IdsOf(s, t));
    if t == a {
      FoundAppends(s'.dependencies, IdsOf(s, a), d.id);
    } else {
      assert Listing(s, t) + [] == Listing(s, t);
    }
  }

  /** A removed dependency is gone from the store and from every listing, and only it. */
  lemma RemovedIsUnlisted(s: Store, id: DependencyId, t: TaskId)
    requires KeyedById(s) && IndexExact(s)
    ensures id !in Removed(s, id).dependencies
    ensures forall d :: d in Listing(Removed(s, id), t) <==> d in Listing(s, t) && d.id != id
    ensures StoredEdges(Removed(s, id)) ==
            set x | x in s.dependencies && x != id :: Edge(s.dependencies[x].taskId, s.dependencies[x].dependsOn)
  {
    var s' := Removed(s, id);
    RemoveKeepsIndex(s, id);
    ListingExact(s, t);
    ListingExact(s', t);
  }

  /** Removing what was just added gives back every listing and the stored dependencies. */
  lemma RemoveUndoesAdd(s: Store, a: TaskId, b: TaskId, kind: DependencyKind, t: TaskId)
    requires KeyedById(s) && IndexExact(s) && !Reaches(StoredEdges(s), b, a)
    requires PrintDependencyId("mock", a, b) !in s.dependencies
    ensures var s' := Removed(Added(s, a, b, kind), PrintDependencyId("mock", a, b));
            s'.dependencies == s.dependencies && Listing(s', t) == Listing(s, t)
  {
    var id := PrintDependencyId("mock", a, b);
    var s' := Removed(Added(s, a, b, kind), id);
    assert s'.dependencies == s.dependencies;
    assert id !in IdsOf(s, t) && id !in IdsOf(s, a);
    WithoutLast(IdsOf(s, a), id);
  }

  lemma {:induction false} WithoutLast(ids: seq<DependencyId>, id: DependencyId)
    requires id !in ids
    ensures Without(ids + [id], id) == ids
  {
    if ids == [] {
      assert ([] + [id])[1..] == [];
    } else {
      assert (ids + [id])[1..] == ids[1..] + [id];
      WithoutLast(ids[1..], id);
    }
  }

  lemma {:induction false} FoundAgrees(m: map<DependencyId, Dependency>, m': map<DependencyId, Dependency>,
                                       ids: seq<DependencyId>)
    requires forall id :: id in ids ==> (id in m <==> id in m') && (id in m ==> m'[id] == m[id])
    ensures Found(m, ids) == Found(m', ids)
  {
    if ids != [] {
      FoundAgrees(m, m', ids[1..]);
    }
  }

  lemma {:induction false} FoundAppends(m: map<DependencyId, Dependency>, ids: seq<DependencyId>, id: DependencyId)
    requires id in m
    ensures Found(m, ids + [id]) == Found(m, ids) + [m[id]]
  {
    if ids == [] {
      assert ([] + [id])[1..] == [];
    } else {
      var head := if ids[0] in m then [m[ids[0]]] else [];
      assert (ids + [id])[1..] == ids[1..] + [id];
      FoundAppends(m, ids[1..], id);
      assert Found(m, ids + [id]) == head + (Found(m, ids[1..]) + [m[id]]);
    }
  }

  // ---- Runs of the store ----

  datatype Command =
    | Add(a: TaskId, b: TaskId, kind: DependencyKind)
    | Remove(id: DependencyId)

  ghost function Step(s: Store, c: Command): Store {
    match c
    case Add(a, b, kind) => Added(s, a, b, kind)
    case Remove(id) => Removed(s, id)
  }

  ghost function Run(s: Store, commands: seq<Command>): Store {
    if commands == [] then s
    else Step(Run(s, commands[..|commands| - 1]), commands[|commands| - 1])
  }

  /** Every run from the empty store stays acyclic. */
  lemma {:induction false} RunsStayAcyclic(commands: seq<Command>)
    ensures Acyclic(StoredEdges(Run(EMPTY, commands)))
  {
    if commands == [] {
      assert StoredEdges(EMPTY) == {};
    } else {
      var s := Run(EMPTY, commands[..|commands| - 1]);
      RunsStayAcyclic(commands[..|commands| - 1]);
      match commands[|commands| - 1]
      case Add(a, b, kind) => AddKeepsAcyclic(s, a, b, kind);
      case Remove(id) => RemoveKeepsAcyclic(s, id);
    }
  }

  ghost predicate ArrowFreeCommands(commands: seq<Command>) {
    forall c :: c in commands && c.Add? ==> ArrowFree(c.a.value)
  }

  ghost predicate ArrowFreeStore(s: Store) {
    forall id :: id in s.dependencies ==> ArrowFree(s.dependencies[id].taskId.value)
  }

  /** If no depending task's id contains an arrow, every run keeps the index exact. */
  lemma {:induction false} RunsKeepIndex(commands: seq<Command>)
    requires ArrowFreeCommands(commands)
    ensures var s := Run(EMPTY, commands); KeyedById(s) && IndexExact(s) && ArrowFreeStore(s)
  {
    if commands != [] {
      var last := commands[|commands| - 1];
      var s := Run(EMPTY, commands[..|commands| - 1]);
      RunsKeepIndex(commands[..|commands| - 1]);
      match last
      case Add(a, b, kind) =>
        assert last in commands;
        var d := NewDependency(a, b, kind);
        PutKeepsIndex(s, d);
        if d.id in s.dependencies {
          PrintInjective("mock", s.dependencies[d.id].taskId, s.dependencies[d.id].dependsOn, a, b);
        }
      case Remove(id) => RemoveKeepsIndex(s, id);
    }
  }

  /** With arrows in ids two edges can share an id; the first task then lists an edge that is not its own. */
  lemma SharedIdExample()
    ensures var x, y, z := StableId("x"), StableId("y"), StableId("z");
            var s := Run(EMPTY, [Add(x, StableId("y->z"), Blocks), Add(StableId("x->y"), z, Blocks)]);
            && |Listing(s, x)| == 1 && Listing(s, x)[0].taskId == StableId("x->y")
            && !IndexExact(s)
  {
    var x, z := StableId("x"), StableId("z");
    var xy, yz := StableId("x->y"), StableId("y->z");
    var first, second := Add(x, yz, Blocks), Add(xy, z, Blocks);
    var d, e := NewDependency(x, yz, Blocks), NewDependency(xy, z, Blocks);
    assert d.id.value == "mock:x->y->z" == e.id.value;
    assert |x.value| == |z.value| == 1 && |xy.value| == |yz.value| == 4 && x.value[0] == 'x' && z.value[0] == 'z';
    var s1 := Run(EMPTY, [first]);
    assert Run(EMPTY, [first, second]) == Step(Run(EMPTY, [first, second][..1]), second);
    assert [first, second][..1] == [first] && [first][..0] == [];
    assert StoredEdges(EMPTY) == {};
    NotReached({}, yz, x);
    assert s1 == Step(Run(EMPTY, []), first) == Put(EMPTY, d);
    assert d.id in s1.dependencies && s1.dependencies[d.id] == d;
    assert StoredEdges(s1) == {Edge(x, yz)};
    NotReached({Edge(x, yz)}, z, xy);
    var s := Put(s1, e);
    assert s == Run(EMPTY, [first, second]);
    assert IdsOf(s1, x) == [d.id];
    assert IdsOf(s, x) == [d.id];
    assert Found(s.dependencies, [d.id]) == [e] + Found(s.dependencies, [d.id][1..]);
    assert e.id in IdsOf(s, x) && s.dependencies[e.id].taskId != x;
  }

  lemma NotReached(edges: set<Edge>, a: TaskId, b: TaskId)
    requires a != b && forall e :: e in edges ==> e.from != a
    ensures !Reaches(edges, a, b)
  {
    if Reaches(edges, a, b) {
      ClosedUnderReaches(edges, {a}, a, b);
    }
  }

  // ---- What the scheduler is given: the listings of all known tasks, one after the other ----

  function Gathered(s: Store, tasks: seq<TaskId>): seq<Dependency> {
    if tasks == [] then [] else Gathered(s, tasks[..|tasks| - 1]) + Listing(s, tasks[|tasks| - 1])
  }

  function Restricted(deps: seq<Dependency>, known: seq<TaskId>): seq<Dependency> {
    if deps == [] then []
    else (if deps[0].dependsOn in known then [deps[0]] else []) + Restricted(deps[1..], known)
  }

  lemma {:induction false} FoundAll(dependencies: map<DependencyId, Dependency>, ids: seq<DependencyId>)
    requires forall id :: id in ids ==> id in dependencies
    ensures |Found(dependencies, ids)| == |ids|
    ensures forall i :: 0 <= i < |ids| ==> Found(dependencies, ids)[i] == dependencies[ids[i]]
  {
    if ids != [] {
      assert forall x :: x in ids[1..] ==> x in ids;
      FoundAll(dependencies, ids[1..]);
      assert ids[0] in dependencies;
    }
  }

  /** Under the invariants a listing is the task's stored dependencies, in order and without repetition. */
  lemma ListingExact(s: Store, t: TaskId)
    requires KeyedById(s) && IndexExact(s)
    ensures forall d :: d in Listing(s, t) <==> d.id in s.dependencies && s.dependencies[d.id] == d && d.taskId == t
    ensures forall i, j :: 0 <= i < j < |Listing(s, t)| ==> Listing(s, t)[i].id != Listing(s, t)[j].id
  {
    var ids := IdsOf(s, t);
    FoundAll(s.dependencies, ids);
    forall d
      ensures d in Listing(s, t) <==> d.id in s.dependencies && s.dependencies[d.id] == d && d.taskId == t
    {
      if d.id in s.dependencies && s.dependencies[d.id] == d && d.taskId == t {
        assert d.id in ids;
        var i :| 0 <= i < |ids| && ids[i] == d.id;
        assert Listing(s, t)[i] == d;
      }
    }
  }

  ghost predicate DistinctIds(deps: seq<Dependency>) {
    forall i, j :: 0 <= i < j < |deps| ==> deps[i].id != deps[j].id
  }

  lemma {:induction false} GatheredExact(s: Store, tasks: seq<TaskId>)
    requires KeyedById(s) && IndexExact(s) && NoDuplicates(tasks)
    ensures forall d :: d in Gathered(s, tasks) <==>
                        d.id in s.dependencies && s.dependencies[d.id] == d && d.taskId in tasks
    ensures DistinctIds(Gathered(s, tasks))
  {
    if tasks != [] {
      var init, t := tasks[..|tasks| - 1], tasks[|tasks| - 1];
      GatheredExact(s, init);
      ListingExact(s, t);
      var before, own := Gathered(s, init), Listing(s, t);
      assert forall x :: x in tasks <==> x in init || x == t;
      assert t !in init;
      var all: seq<Dependency> := before + own;
      forall i, j | 0 <= i < j < |all|
        ensures all[i].id != all[j].id
      {
        if i < |before| <= j {
          assert before[i] in before && own[j - |before|] in own;
        }
      }
    }
  }

  lemma {:induction false} RestrictedExact(deps: seq<Dependency>, known: seq<TaskId>)
    requires DistinctIds(deps)
    ensures forall d :: d in Restricted(deps, known) <==> d in deps && d.dependsOn in known
    ensures DistinctIds(Restricted(deps, known))
  {
    if deps != [] {
      assert DistinctIds(deps[1..]);
      RestrictedExact(deps[1..], known);
      assert forall d :: d in deps <==> d == deps[0] || d in deps[1..];
      assert forall d :: d in deps[1..] ==> d.id != deps[0].id;
    }
  }

  lemma StoredIsMeaningful(s: Store, tasks: seq<TaskId>, deps: seq<Dependency>)
    requires KeyedById(s) && Acyclic(StoredEdges(s)) && NoDuplicates(tasks) && DistinctIds(deps)
    requires forall d :: d in deps ==> d.id in s.dependencies && s.dependencies[d.id] == d
    requires forall d :: d in deps ==> d.taskId in tasks && d.dependsOn in tasks
    ensures Meaningful(TaskGraph(tasks, deps))
  {
    AcyclicMonotone(BlockingEdges(deps), StoredEdges(s));
    forall d | d in deps
      ensures d.taskId != d.dependsOn
    {
      if d.taskId == d.dependsOn {
        assert Edge(d.taskId, d.dependsOn) in StoredEdges(s);
        ReachesSelf(StoredEdges(s), d.taskId);
        assert OnCycle(StoredEdges(s), d.taskId);
      }
    }
  }

  /**
   * After any run whose ids are unambiguous, the dependencies gathered for the known tasks and
   * restricted to them form a graph the validator accepts; without the restriction, exactly when
   * no known task depends on an unknown one.
   */
  lemma ListingsAccepted(commands: seq<Command>, tasks: seq<TaskId>)
    requires ArrowFreeCommands(commands) && NoDuplicates(tasks) && Unambiguous(tasks)
    ensures var gathered := Gathered(Run(EMPTY, commands), tasks);
            && Accepted(TaskGraph(tasks, Restricted(gathered, tasks)))
            && (Accepted(TaskGraph(tasks, gathered)) <==> forall d :: d in gathered ==> d.dependsOn in tasks)
  {
    var s := Run(EMPTY, commands);
    RunsStayAcyclic(commands);
    RunsKeepIndex(commands);
    GatheredExact(s, tasks);
    var gathered := Gathered(s, tasks);
    RestrictedExact(gathered, tasks);
    StoredIsMeaningful(s, tasks, Restricted(gathered, tasks));
    AcceptsEveryMeaningfulGraph(tasks);
    if forall d :: d in gathered ==> d.dependsOn in tasks {
      StoredIsMeaningful(s, tasks, gathered);
    }
  }
}
