/**
 * The duplicate check compares texts built from the two task ids, so it can take
 * two different edges for one. This module says exactly when it does.
 */
module DependencyKeys {
  import opened Identifiers
  import opened Digraphs
  import opened GraphValidation

  ghost predicate SameEdge(d: Dependency, e: Dependency) {
    d.taskId == e.taskId && d.dependsOn == e.dependsOn && d.kind == e.kind
  }

  /** The graph a caller means to be valid: no edge listed twice, whatever the ids look like. */
  ghost predicate Meaningful(g: TaskGraph) {
    && NoDuplicates(g.taskIds)
    && (forall d :: d in g.dependencies ==>
          d.taskId in g.taskIds && d.dependsOn in g.taskIds && d.taskId != d.dependsOn)
    && (forall i, j :: 0 <= i < j < |g.dependencies| ==>
          && g.dependencies[i].id != g.dependencies[j].id
          && !SameEdge(g.dependencies[i], g.dependencies[j]))
    && Acyclic(BlockingEdges(g.dependencies))
  }

  function PairKey(a: TaskId, b: TaskId): string {
    a.value + ":" + b.value
  }

  /** Joining two different ids with a colon determines the two ids. */
  ghost predicate Unambiguous(ids: seq<TaskId>) {
    forall a, b, c, d :: a in ids && b in ids && c in ids && d in ids
      ==> a != b ==> c != d ==> PairKey(a, b) == PairKey(c, d) ==> a == c && b == d
  }

  /** No id continues another one with a colon. */
  ghost predicate SeparatorFree(ids: seq<TaskId>) {
    forall a, b :: a in ids && b in ids ==> !(a.value + ":" <= b.value)
  }

  lemma KeyDecomposes(d: Dependency, e: Dependency)
    ensures DependencyKey(d) == DependencyKey(e) <==>
            d.kind == e.kind && PairKey(d.taskId, d.dependsOn) == PairKey(e.taskId, e.dependsOn)
  {
    var p, q := PairKey(d.taskId, d.dependsOn) + ":", PairKey(e.taskId, e.dependsOn) + ":";
    var m, n := KindName(d.kind), KindName(e.kind);
    assert DependencyKey(d) == p + m && DependencyKey(e) == q + n;
    if DependencyKey(d) == DependencyKey(e) {
      var k := DependencyKey(d);
      assert k[|k| - 1] == m[|m| - 1] == n[|n| - 1];
      assert d.kind == e.kind;
      assert p == k[..|k| - |m|] == q;
      assert PairKey(d.taskId, d.dependsOn) == p[..|p| - 1];
      assert PairKey(e.taskId, e.dependsOn) == q[..|q| - 1];
    }
  }

  lemma SameKeyPrefix(a: TaskId, b: TaskId, c: TaskId, d: TaskId)
    requires PairKey(a, b) == PairKey(c, d) && |a.value| < |c.value|
    ensures a.value + ":" <= c.value
  {
    var k := PairKey(a, b);
    assert k[..|a.value| + 1] == a.value + ":";
    assert k[..|c.value|] == c.value;
  }

  lemma SeparatorFreeIsUnambiguous(ids: seq<TaskId>)
    requires SeparatorFree(ids)
    ensures Unambiguous(ids)
  {
    forall a, b, c, d | a in ids && b in ids && c in ids && d in ids && PairKey(a, b) == PairKey(c, d)
      ensures a == c && b == d
    {
      if |a.value| < |c.value| {
        SameKeyPrefix(a, b, c, d);
      } else if |c.value| < |a.value| {
        SameKeyPrefix(c, d, a, b);
      } else {
        var k := PairKey(a, b);
        assert a.value == k[..|a.value|] == c.value;
        assert b.value == k[|a.value| + 1..] == d.value;
      }
    }
  }

  /** Over given task ids, the validator accepts every meaningful graph exactly when the ids are unambiguous. */
  lemma AcceptsEveryMeaningfulGraph(ids: seq<TaskId>)
    requires NoDuplicates(ids)
    ensures (forall deps :: Meaningful(TaskGraph(ids, deps)) ==> Accepted(TaskGraph(ids, deps)))
            <==> Unambiguous(ids)
  {
    if Unambiguous(ids) {
      forall deps | Meaningful(TaskGraph(ids, deps))
        ensures Accepted(TaskGraph(ids, deps))
      {
        DistinctKeys(ids, deps);
      }
    } else {
      var a, b, c, d :| a in ids && b in ids && c in ids && d in ids && a != b && c != d
                        && PairKey(a, b) == PairKey(c, d) && !(a == c && b == d);
      var deps := [Dependency(StableId("1"), a, b, Related), Dependency(StableId("2"), c, d, Related)];
      var g := TaskGraph(ids, deps);
      assert BlockingEdges(deps) == {};
      assert StableId("1").value[0] != StableId("2").value[0];
      assert Meaningful(g);
      KeyDecomposes(g.dependencies[0], g.dependencies[1]);
      assert DependencyKey(g.dependencies[0]) == DependencyKey(g.dependencies[1]);
      assert !Accepted(g);
    }
  }

  lemma DistinctKeys(ids: seq<TaskId>, deps: seq<Dependency>)
    requires Unambiguous(ids) && Meaningful(TaskGraph(ids, deps))
    ensures DistinctIdsAndKeys(deps)
  {
    forall i, j | 0 <= i < j < |deps|
      ensures DependencyKey(deps[i]) != DependencyKey(deps[j])
    {
      KeyDecomposes(deps[i], deps[j]);
      assert deps[i] in deps && deps[j] in deps;
      assert !SameEdge(deps[i], deps[j]);
    }
  }

  /** Accepting never goes wrong in the other direction: an accepted graph is always meaningful. */
  lemma AcceptedIsMeaningful(g: TaskGraph)
    requires Accepted(g)
    ensures Meaningful(g)
  {
    forall i, j | 0 <= i < j < |g.dependencies|
      ensures !SameEdge(g.dependencies[i], g.dependencies[j])
    {
      KeyDecomposes(g.dependencies[i], g.dependencies[j]);
    }
  }

  /** Two unrelated edges that the validator takes for a repetition. */
  lemma CollidingKeysExample()
    ensures var ids := [StableId("a"), StableId("b:c"), StableId("a:b"), StableId("c")];
            var deps := [Dependency(StableId("1"), ids[0], ids[1], Blocks),
                         Dependency(StableId("2"), ids[2], ids[3], Blocks)];
            && Meaningful(TaskGraph(ids, deps))
            && FirstFault(TaskGraph(ids, deps), 1, DuplicateDependency)
  {
    var ids := [StableId("a"), StableId("b:c"), StableId("a:b"), StableId("c")];
    var deps := [Dependency(StableId("1"), ids[0], ids[1], Blocks),
                 Dependency(StableId("2"), ids[2], ids[3], Blocks)];
    assert |ids[0].value| == 1 && ids[0].value[0] == 'a' && ids[3].value[0] == 'c' && deps[0].id.value[0] == '1';
    assert ids[1].value[0] == 'b' && ids[2].value[0] == 'a' && deps[1].id.value[0] == '2';
    assert DependencyKey(deps[0]) == "a:b:c:blocks" == DependencyKey(deps[1]);
    var edges := BlockingEdges(deps);
    assert edges == {Edge(ids[0], ids[1]), Edge(ids[2], ids[3])};
    forall v
      ensures !OnCycle(edges, v)
    {
      if OnCycle(edges, v) {
        var w :| Edge(v, w) in edges && Reaches(edges, w, v);
        ClosedUnderReaches(edges, {ids[1], ids[3]}, w, v);
      }
    }
    assert DependencyFault(TaskGraph(ids, deps), 0) == None;
    assert DependencyFault(TaskGraph(ids, deps), 1) == Some(DuplicateDependency);
  }
}
