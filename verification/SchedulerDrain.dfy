/**
 * Progress of the scheduler: on an accepted graph with nothing in the way, every tick launches
 * something, and alternating ticks with completion of what was launched finishes all n tasks
 * within n rounds.
 */
module SchedulerDrain {
  import opened Identifiers
  import opened Digraphs
  import opened GraphValidation
  import opened Runs
  import opened Scheduling

  /** The tracker's tasks and the supervisor's bookkeeping. */
  datatype World = World(tasks: seq<Task>, supervisor: Supervisor)

  function Unfinished(tasks: seq<Task>): set<TaskId> {
    set t | t in tasks && !t.status.Completed? :: t.id
  }

  /** Nothing stands in the way of an unfinished task: not active, paused, or marked done only locally. */
  ghost predicate Quiescent(w: World) {
    && w.supervisor.active == map[]
    && w.supervisor.paused == {}
    && w.supervisor.completed <= CompletedIds(w.tasks)
    && forall t :: t in w.tasks ==> t.status.Completed? || t.status.Ready? || t.status.Backlog?
  }

  /** Promotion is on, and the limit allows at least one task. */
  predicate CanRun(cfg: Config) {
    cfg.autoPromoteDependents && cfg.maxParallelTasks >= 1
  }

  function Finished(tasks: seq<Task>, done: seq<TaskId>): seq<Task> {
    seq(|tasks|, i requires 0 <= i < |tasks| =>
      if tasks[i].id in done then tasks[i].(status := Completed) else tasks[i])
  }

  /** The tick as an event: the tracker accepts every promotion and every launch succeeds. */
  ghost function TickEvent(w: World, deps: seq<Dependency>, runs: TaskId -> RunId): Event {
    Tick(w.tasks, deps, id => true, id => Some(runs(id)))
  }

  ghost function Launched(w: World, cfg: Config, deps: seq<Dependency>, runs: TaskId -> RunId): seq<TaskId> {
    LaunchedBy(w.supervisor, cfg, TickEvent(w, deps, runs))
  }

  ghost function CompleteAll(s: Supervisor, cfg: Config, done: seq<TaskId>): Supervisor
    decreases |done|
  {
    if done == [] then s else CompleteAll(Step(s, cfg, Complete(done[0])), cfg, done[1..])
  }

  /** One tick, after which every launched task completes, in the tracker and in the supervisor. */
  ghost function Round(w: World, cfg: Config, deps: seq<Dependency>, runs: TaskId -> RunId): World {
    var launched := Launched(w, cfg, deps, runs);
    var promoted := Promoted(w.supervisor, cfg, w.tasks, deps, id => true);
    World(Finished(Effective(w.tasks, promoted), launched),
          CompleteAll(Step(w.supervisor, cfg, TickEvent(w, deps, runs)), cfg, launched))
  }

  ghost function Rounds(w: World, cfg: Config, deps: seq<Dependency>, runs: TaskId -> RunId, n: nat): World {
    Iterate(Rounder(cfg, deps, runs), w, n)
  }

  ghost function Rounder(cfg: Config, deps: seq<Dependency>, runs: TaskId -> RunId): World -> World {
    w => Round(w, cfg, deps, runs)
  }

  lemma {:induction false} AllLaunched(active: map<TaskId, RunId>, todo: seq<Task>, launcher: TaskId -> Option<RunId>)
    requires forall id :: launcher(id).Some?
    requires todo != [] && todo[0].id !in active
    ensures LaunchAll(active, todo, launcher).launched != []
  {
  }

  lemma TaskById(tasks: seq<Task>, id: TaskId) returns (t: Task)
    requires id in TaskIds(tasks)
    ensures t in tasks && t.id == id
  {
    var i :| 0 <= i < |tasks| && TaskIds(tasks)[i] == id;
    t := tasks[i];
  }

  /** Some unfinished task has only completed blockers: the sink of the unfinished part of the graph. */
  lemma UnblockedTaskExists(tasks: seq<Task>, deps: seq<Dependency>) returns (t: Task)
    requires Accepted(GraphOf(tasks, deps)) && Unfinished(tasks) != {}
    ensures t in tasks && !t.status.Completed? && Unblocked(CompletedIds(tasks), deps, t.id)
  {
    var sink := SinkExists(BlockingEdges(deps), Unfinished(tasks));
    t :| t in tasks && !t.status.Completed? && t.id == sink;
    forall d | d in deps && d.kind.Blocks? && d.taskId == t.id
      ensures d.dependsOn in CompletedIds(tasks)
    {
      assert Edge(sink, d.dependsOn) in BlockingEdges(deps);
      var u := TaskById(tasks, d.dependsOn);
    }
  }

  /** A tick in a quiescent world with unfinished tasks launches at least one of them. */
  lemma EveryTickLaunches(w: World, cfg: Config, deps: seq<Dependency>, runs: TaskId -> RunId)
    requires Accepted(GraphOf(w.tasks, deps)) && Quiescent(w) && CanRun(cfg) && Unfinished(w.tasks) != {}
    ensures Launched(w, cfg, deps, runs) != []
  {
    var s := w.supervisor;
    var t := UnblockedTaskExists(w.tasks, deps);
    var promoted := Promoted(s, cfg, w.tasks, deps, id => true);
    var effective := Effective(w.tasks, promoted);
    PromotedAreBacklog(s, cfg, w.tasks, deps, id => true);
    EffectiveFacts(w.tasks, promoted, deps);
    NotDoneLocally(w, t);
    var i :| 0 <= i < |w.tasks| && w.tasks[i] == t;
    var u := effective[i];
    assert u in effective && u.id == t.id && u.status.Ready? by {
      if t.status.Backlog? {
        assert IsPromotable(s, w.tasks, deps, t);
        assert t.id in promoted;
      }
    }
    CandidateMembers(s, effective, deps);
    assert u in Candidates(s, effective, deps);
    var todo := Plan(s, cfg, w.tasks, deps, id => true);
    assert todo != [];
    AllLaunched(s.active, todo, id => Some(runs(id)));
  }

  lemma NotDoneLocally(w: World, t: Task)
    requires NoDuplicates(TaskIds(w.tasks)) && Quiescent(w) && t in w.tasks && !t.status.Completed?
    ensures t.id !in w.supervisor.completed
  {
    if t.id in w.supervisor.completed {
      var u :| u in w.tasks && u.status.Completed? && u.id == t.id;
      UniqueTask(w.tasks, t, u);
    }
  }

  lemma {:induction false} CompleteAllFacts(s: Supervisor, cfg: Config, done: seq<TaskId>)
    ensures var s' := CompleteAll(s, cfg, done);
            && s'.paused == s.paused
            && (forall id :: id in s'.active <==> id in s.active && id !in done)
            && (forall id :: id in s'.completed <==> id in s.completed || id in done)
    decreases |done|
  {
    if done != [] {
      CompleteAllFacts(Step(s, cfg, Complete(done[0])), cfg, done[1..]);
      assert forall x :: x in done <==> x == done[0] || x in done[1..];
    }
  }

  /** What a round does to the tracker's tasks, one by one. */
  lemma RoundTasks(w: World, cfg: Config, deps: seq<Dependency>, runs: TaskId -> RunId)
    requires NoDuplicates(TaskIds(w.tasks)) && Quiescent(w)
    ensures var (w', launched) := (Round(w, cfg, deps, runs), Launched(w, cfg, deps, runs));
            && |w'.tasks| == |w.tasks|
            && forall i :: 0 <= i < |w.tasks| ==>
                 && w'.tasks[i].id == w.tasks[i].id
                 && (w'.tasks[i].status.Completed? <==> w.tasks[i].status.Completed? || w.tasks[i].id in launched)
                 && (w'.tasks[i].status.Completed? || w'.tasks[i].status.Ready? || w'.tasks[i].status.Backlog?)
  {
    PromotedAreBacklog(w.supervisor, cfg, w.tasks, deps, id => true);
    var promoted := Promoted(w.supervisor, cfg, w.tasks, deps, id => true);
    forall i | 0 <= i < |w.tasks|
      ensures w.tasks[i].id in promoted ==> w.tasks[i].status.Backlog?
      ensures w.tasks[i].status.Completed? || w.tasks[i].status.Ready? || w.tasks[i].status.Backlog?
    {
      assert w.tasks[i] in w.tasks;
    }
  }

  lemma UnfinishedByIndex(tasks: seq<Task>)
    ensures forall id :: id in Unfinished(tasks) <==>
              exists i :: 0 <= i < |tasks| && tasks[i].id == id && !tasks[i].status.Completed?
    ensures forall id :: id in CompletedIds(tasks) <==>
              exists i :: 0 <= i < |tasks| && tasks[i].id == id && tasks[i].status.Completed?
  {
  }

  lemma LaunchedAreUnfinished(w: World, cfg: Config, deps: seq<Dependency>, runs: TaskId -> RunId)
    ensures forall id :: id in Launched(w, cfg, deps, runs) ==> id in Unfinished(w.tasks)
  {
    var e := TickEvent(w, deps, runs);
    TickIsSafe(w.supervisor, cfg, e);
    forall id | id in Launched(w, cfg, deps, runs)
      ensures id in Unfinished(w.tasks)
    {
      assert Launchable(w.supervisor, cfg, e, id);
      assert Startable(cfg, e, id);
    }
  }

  lemma RoundSupervisor(w: World, cfg: Config, deps: seq<Dependency>, runs: TaskId -> RunId)
    requires w.supervisor.active == map[]
    ensures var (s, s', launched) := (w.supervisor, Round(w, cfg, deps, runs).supervisor, Launched(w, cfg, deps, runs));
            && s'.active == map[] && s'.paused == s.paused
            && (forall id :: id in s'.completed <==> id in s.completed || id in launched)
  {
    var e := TickEvent(w, deps, runs);
    TickIsSafe(w.supervisor, cfg, e);
    var launched := Launched(w, cfg, deps, runs);
    CompleteAllFacts(Step(w.supervisor, cfg, e), cfg, launched);
  }

  /** A round keeps the graph accepted and the world quiescent, and finishes exactly what it launched. */
  lemma RoundKeeps(w: World, cfg: Config, deps: seq<Dependency>, runs: TaskId -> RunId)
    requires Accepted(GraphOf(w.tasks, deps)) && Quiescent(w)
    ensures var (w', launched) := (Round(w, cfg, deps, runs), Launched(w, cfg, deps, runs));
            && Accepted(GraphOf(w'.tasks, deps)) && Quiescent(w')
            && (forall id :: id in Unfinished(w'.tasks) <==> id in Unfinished(w.tasks) && id !in launched)
            && (forall id :: id in launched ==> id in Unfinished(w.tasks))
  {
    var w', launched := Round(w, cfg, deps, runs), Launched(w, cfg, deps, runs);
    RoundTasks(w, cfg, deps, runs);
    RoundSupervisor(w, cfg, deps, runs);
    LaunchedAreUnfinished(w, cfg, deps, runs);
    RoundResult(w.tasks, w.supervisor, w', launched);
    assert TaskIds(w'.tasks) == TaskIds(w.tasks);
  }

  lemma RoundResult(tasks: seq<Task>, s: Supervisor, w': World, launched: seq<TaskId>)
    requires |w'.tasks| == |tasks| && s.completed <= CompletedIds(tasks) && s.paused == {}
    requires forall i :: 0 <= i < |tasks| ==>
               && w'.tasks[i].id == tasks[i].id
               && (w'.tasks[i].status.Completed? <==> tasks[i].status.Completed? || tasks[i].id in launched)
               && (w'.tasks[i].status.Completed? || w'.tasks[i].status.Ready? || w'.tasks[i].status.Backlog?)
    requires w'.supervisor.active == map[] && w'.supervisor.paused == s.paused
    requires forall id :: id in w'.supervisor.completed <==> id in s.completed || id in launched
    requires forall id :: id in launched ==> id in Unfinished(tasks)
    ensures Quiescent(w')
    ensures forall id :: id in Unfinished(w'.tasks) <==> id in Unfinished(tasks) && id !in launched
  {
    UnfinishedByIndex(tasks);
    UnfinishedByIndex(w'.tasks);
    forall id | id in w'.supervisor.completed
      ensures id in CompletedIds(w'.tasks)
    {
      var i :| 0 <= i < |tasks| && tasks[i].id == id && (tasks[i].status.Completed? || id in launched);
      assert w'.tasks[i].id == id;
    }
  }

  lemma SmallerSet(small: set<TaskId>, large: set<TaskId>, gone: TaskId)
    requires small <= large && gone in large && gone !in small
    ensures |small| < |large|
  {
    assert small <= large - {gone};
    SubsetSize(small, large - {gone});
  }

  lemma {:induction false} SubsetSize(small: set<TaskId>, large: set<TaskId>)
    requires small <= large
    ensures |small| <= |large|
  {
    if x :| x in small {
      SubsetSize(small - {x}, large - {x});
    }
  }

  /** A round leaves fewer unfinished tasks than there were, as long as there are any. */
  lemma RoundShrinks(w: World, cfg: Config, deps: seq<Dependency>, runs: TaskId -> RunId)
    requires Accepted(GraphOf(w.tasks, deps)) && Quiescent(w) && CanRun(cfg)
    ensures var (left, left') := (Unfinished(w.tasks), Unfinished(Round(w, cfg, deps, runs).tasks));
            |left'| < |left| || left == left' == {}
  {
    RoundKeeps(w, cfg, deps, runs);
    var left, left' := Unfinished(w.tasks), Unfinished(Round(w, cfg, deps, runs).tasks);
    if left != {} {
      EveryTickLaunches(w, cfg, deps, runs);
      var launched := Launched(w, cfg, deps, runs);
      assert launched[0] in launched;
      SmallerSet(left', left, launched[0]);
    } else {
      assert left' == {};
    }
  }

  /** At most `n` tasks are left, in a world whose rounds make progress. */
  ghost predicate Draining(w: World, cfg: Config, deps: seq<Dependency>, n: nat) {
    Accepted(GraphOf(w.tasks, deps)) && Quiescent(w) && CanRun(cfg) && |Unfinished(w.tasks)| <= n
  }

  lemma RoundDrains(w: World, cfg: Config, deps: seq<Dependency>, runs: TaskId -> RunId, n: nat)
    requires n > 0 && Draining(w, cfg, deps, n)
    ensures Draining(Round(w, cfg, deps, runs), cfg, deps, n - 1)
  {
    RoundKeeps(w, cfg, deps, runs);
    RoundShrinks(w, cfg, deps, runs);
  }

  lemma NothingLeft(w: World, cfg: Config, deps: seq<Dependency>)
    requires Draining(w, cfg, deps, 0)
    ensures Unfinished(w.tasks) == {}
  {
  }

  /** n rounds finish every task of a graph with at most n unfinished tasks. */
  lemma Drains(w: World, cfg: Config, deps: seq<Dependency>, runs: TaskId -> RunId, n: nat)
    requires Draining(w, cfg, deps, n)
    ensures Unfinished(Rounds(w, cfg, deps, runs, n).tasks) == {}
  {
    forall x, k: nat | k > 0 && Draining(x, cfg, deps, k)
      ensures Draining(Rounder(cfg, deps, runs)(x), cfg, deps, k - 1)
    {
      RoundDrains(x, cfg, deps, runs, k);
    }
    CountDown(Rounder(cfg, deps, runs), w, n, (x, k) => Draining(x, cfg, deps, k));
    NothingLeft(Rounds(w, cfg, deps, runs, n), cfg, deps);
  }

  /** In particular the number of tasks is enough rounds. */
  lemma DrainsWithinTaskCount(w: World, cfg: Config, deps: seq<Dependency>, runs: TaskId -> RunId)
    requires Accepted(GraphOf(w.tasks, deps)) && Quiescent(w) && CanRun(cfg)
    ensures Unfinished(Rounds(w, cfg, deps, runs, |w.tasks|).tasks) == {}
  {
    var ids := set t | t in TaskIds(w.tasks);
    SizeOfElements(TaskIds(w.tasks));
    forall id | id in Unfinished(w.tasks)
      ensures id in ids
    {
      var i :| 0 <= i < |w.tasks| && w.tasks[i].id == id;
      assert TaskIds(w.tasks)[i] == id;
    }
    SubsetSize(Unfinished(w.tasks), ids);
    Drains(w, cfg, deps, runs, |w.tasks|);
  }
}
