/** The run supervisor: ready-task selection, dependency promotion, launching and manual controls. */
module Scheduling {
  import opened Identifiers
  import opened Digraphs
  import opened GraphValidation
  import opened CycleCheck
  import opened Filtering
  import opened Runs

  type RunId = StableId

  datatype TaskStatus = Backlog | Ready | Active | Blocked | Completed | Cancelled

  datatype Task = Task(id: TaskId, status: TaskStatus)

  datatype Config = Config(maxParallelTasks: int, autoPromoteDependents: bool)

  datatype TickError =
    | CyclicGraph
    | InvalidGraph(error: GraphError)
    | LauncherFailed(taskId: TaskId)

  function TaskIds(tasks: seq<Task>): seq<TaskId> {
    seq(|tasks|, i requires 0 <= i < |tasks| => tasks[i].id)
  }

  function GraphOf(tasks: seq<Task>, deps: seq<Dependency>): TaskGraph {
    TaskGraph(TaskIds(tasks), deps)
  }

  function CompletedIds(tasks: seq<Task>): set<TaskId> {
    set t | t in tasks && t.status.Completed? :: t.id
  }

  // ---- Who is ready ----

  /** Every task that `t` depends on through a blocking edge is completed in the tracker. */
  predicate Unblocked(completed: set<TaskId>, deps: seq<Dependency>, t: TaskId) {
    forall d :: d in deps && d.kind.Blocks? && d.taskId == t ==> d.dependsOn in completed
  }

  predicate IsReady(tasks: seq<Task>, deps: seq<Dependency>, active: set<TaskId>, t: Task) {
    t.status.Ready? && t.id !in active && Unblocked(CompletedIds(tasks), deps, t.id)
  }

  function ReadyTasks(tasks: seq<Task>, deps: seq<Dependency>, active: set<TaskId>): seq<Task> {
    Filter(tasks, t => IsReady(tasks, deps, active, t))
  }

  ghost predicate BlockersOf(blockedBy: DependencyMap, deps: seq<Dependency>) {
    forall t, u :: u in DependenciesOf(blockedBy, t) <==>
                   exists d :: d in deps && d.kind.Blocks? && d.taskId == t && d.dependsOn == u
  }

  method CollectBlockers(deps: seq<Dependency>) returns (blockedBy: DependencyMap)
    ensures forall t, completed: set<TaskId> ::
              DependenciesOf(blockedBy, t) <= completed <==> Unblocked(completed, deps, t)
  {
    blockedBy := map[];
    for k := 0 to |deps|
      invariant BlockersOf(blockedBy, deps[..k])
    {
      var d := deps[k];
      AnotherBlocker(blockedBy, deps, k);
      if d.kind.Blocks? {
        blockedBy := blockedBy[d.taskId := DependenciesOf(blockedBy, d.taskId) + {d.dependsOn}];
      }
    }
    assert deps[..|deps|] == deps;
  }

  lemma AnotherBlocker(blockedBy: DependencyMap, deps: seq<Dependency>, k: nat)
    requires k < |deps| && BlockersOf(blockedBy, deps[..k])
    ensures var d := deps[k];
            BlockersOf(if d.kind.Blocks? then blockedBy[d.taskId := DependenciesOf(blockedBy, d.taskId) + {d.dependsOn}]
                       else blockedBy,
                       deps[..k + 1])
  {
    var d := deps[k];
    var more := if d.kind.Blocks? then blockedBy[d.taskId := DependenciesOf(blockedBy, d.taskId) + {d.dependsOn}]
                else blockedBy;
    assert forall x :: x in deps[..k + 1] <==> x in deps[..k] || x == d;
    forall t, u
      ensures u in DependenciesOf(more, t) <==>
              exists x :: x in deps[..k + 1] && x.kind.Blocks? && x.taskId == t && x.dependsOn == u
    {
      if u in DependenciesOf(more, t) {
        if u in DependenciesOf(blockedBy, t) {
          var x :| x in deps[..k] && x.kind.Blocks? && x.taskId == t && x.dependsOn == u;
          assert x in deps[..k + 1];
        } else {
          assert d in deps[..k + 1];
        }
      }
      if x :| x in deps[..k + 1] && x.kind.Blocks? && x.taskId == t && x.dependsOn == u {
        assert x == d || u in DependenciesOf(blockedBy, t);
      }
    }
  }

  method ComputeReadyTasks(tasks: seq<Task>, deps: seq<Dependency>, active: set<TaskId>)
    returns (r: Result<seq<Task>, TickError>)
    ensures r.Success? <==> Accepted(GraphOf(tasks, deps))
    ensures r.Success? ==> r.value == ReadyTasks(tasks, deps, active)
    ensures r == Failure(CyclicGraph) <==>
            WellFormed(GraphOf(tasks, deps)) && !Acyclic(BlockingEdges(deps))
    ensures r.Failure? ==> !r.error.LauncherFailed?
  {
    var error := ValidateTaskGraph(GraphOf(tasks, deps));
    if error.Some? {
      return Failure(if error.value.CyclicDependencies? then CyclicGraph else InvalidGraph(error.value));
    }
    var completed := CompletedIds(tasks);
    var blockedBy := CollectBlockers(deps);
    var select := (t: Task) => t.status.Ready? && t.id !in active && DependenciesOf(blockedBy, t.id) <= completed;
    FilterAgrees(tasks, select, t => IsReady(tasks, deps, active, t));
    return Success(Filter(tasks, select));
  }

  // ---- Specification of a tick ----

  datatype Supervisor = Supervisor(active: map<TaskId, RunId>, completed: set<TaskId>, paused: set<TaskId>)

  predicate IsPromotable(s: Supervisor, tasks: seq<Task>, deps: seq<Dependency>, t: Task) {
    && t.status.Backlog? && t.id !in s.active && t.id !in s.completed
    && Unblocked(CompletedIds(tasks), deps, t.id)
  }

  /** The ids promoted to ready; `sync(id)` says whether the tracker accepted the promotion. */
  function Promoted(s: Supervisor, cfg: Config, tasks: seq<Task>, deps: seq<Dependency>, sync: TaskId -> bool)
    : set<TaskId>
  {
    if !cfg.autoPromoteDependents then {}
    else set t | t in tasks && IsPromotable(s, tasks, deps, t) && sync(t.id) :: t.id
  }

  function Effective(tasks: seq<Task>, promoted: set<TaskId>): seq<Task> {
    seq(|tasks|, i requires 0 <= i < |tasks| =>
      if tasks[i].id in promoted then tasks[i].(status := Ready) else tasks[i])
  }

  lemma PromotedExactly(s: Supervisor, cfg: Config, tasks: seq<Task>, deps: seq<Dependency>, sync: TaskId -> bool,
                        i: nat)
    requires i < |tasks| && NoDuplicates(TaskIds(tasks))
    ensures tasks[i].id in Promoted(s, cfg, tasks, deps, sync) <==>
              cfg.autoPromoteDependents && IsPromotable(s, tasks, deps, tasks[i]) && sync(tasks[i].id)
  {
    if tasks[i].id in Promoted(s, cfg, tasks, deps, sync) {
      var k :| 0 <= k < |tasks| && tasks[k].id == tasks[i].id && IsPromotable(s, tasks, deps, tasks[k]);
      assert TaskIds(tasks)[k] == TaskIds(tasks)[i];
    }
  }

  function Candidates(s: Supervisor, effective: seq<Task>, deps: seq<Dependency>): seq<Task> {
    Filter(effective, t => IsReady(effective, deps, s.active.Keys, t) && t.id !in s.paused && t.id !in s.completed)
  }

  /** The tasks a tick sets out to launch; none on a graph the validator rejects. */
  ghost function Plan(s: Supervisor, cfg: Config, tasks: seq<Task>, deps: seq<Dependency>, sync: TaskId -> bool)
    : seq<Task>
  {
    var effective := Effective(tasks, Promoted(s, cfg, tasks, deps, sync));
    if !Accepted(GraphOf(tasks, deps)) then []
    else Take(Candidates(s, effective, deps), cfg.maxParallelTasks - |s.active|)
  }

  datatype Launch = Launch(active: map<TaskId, RunId>, launched: seq<TaskId>, failed: Option<TaskId>)

  /** Launch in order; the first launcher failure ends the tick, keeping what was launched before it. */
  function LaunchAll(active: map<TaskId, RunId>, todo: seq<Task>, launcher: TaskId -> Option<RunId>): Launch
    decreases |todo|
  {
    if todo == [] then Launch(active, [], None)
    else
      var id := todo[0].id;
      if id in active then LaunchAll(active, todo[1..], launcher)
      else
        match launcher(id)
        case None => Launch(active, [], Some(id))
        case Some(run) =>
          var rest := LaunchAll(active[id := run], todo[1..], launcher);
          rest.(launched := [id] + rest.launched)
  }

  ghost function Ticked(s: Supervisor, cfg: Config, tasks: seq<Task>, deps: seq<Dependency>,
                        sync: TaskId -> bool, launcher: TaskId -> Option<RunId>): Launch
  {
    LaunchAll(s.active, Plan(s, cfg, tasks, deps, sync), launcher)
  }

  lemma CandidatesInStages(s: Supervisor, effective: seq<Task>, deps: seq<Dependency>,
                           unpaused: Task -> bool, unfinished: Task -> bool)
    requires forall t: Task :: unpaused(t) == (t.id !in s.paused) && unfinished(t) == (t.id !in s.completed)
    ensures Filter(Filter(ReadyTasks(effective, deps, s.active.Keys), unpaused), unfinished)
            == Candidates(s, effective, deps)
  {
    var ready := (t: Task) => IsReady(effective, deps, s.active.Keys, t);
    var first := (t: Task) => ready(t) && unpaused(t);
    var all := (t: Task) => first(t) && unfinished(t);
    FilterAgrees(effective, ready, t => IsReady(effective, deps, s.active.Keys, t));
    FilterTwice(effective, ready, unpaused, first);
    FilterTwice(effective, first, unfinished, all);
    FilterAgrees(effective, all, t =>
      IsReady(effective, deps, s.active.Keys, t) && t.id !in s.paused && t.id !in s.completed);
  }

  // ---- The supervisor ----

  class RunSupervisor {
    const config: Config
    var activeRuns: map<TaskId, RunId>
    var completedTasks: set<TaskId>
    var manuallyPaused: set<TaskId>

    function State(): Supervisor
      reads this
    {
      Supervisor(activeRuns, completedTasks, manuallyPaused)
    }

    constructor (config: Config)
      ensures this.config == config && State() == Supervisor(map[], {}, {})
    {
      this.config := config;
      activeRuns, completedTasks, manuallyPaused := map[], {}, {};
    }

    method PromoteDependents(tasks: seq<Task>, deps: seq<Dependency>, sync: TaskId -> bool)
      returns (effective: seq<Task>)
      ensures effective == Effective(tasks, Promoted(State(), config, tasks, deps, sync))
      // With distinct ids: ready is what was, and what is backlog, untouched, unblocked and accepted by the tracker.
      ensures |effective| == |tasks| && forall i :: 0 <= i < |tasks| ==> effective[i].id == tasks[i].id
      ensures NoDuplicates(TaskIds(tasks)) ==>
                forall i :: 0 <= i < |tasks| ==>
                  var t := tasks[i];
                  if config.autoPromoteDependents && t.status.Backlog? && sync(t.id) && t.id !in activeRuns
                     && t.id !in completedTasks && Unblocked(CompletedIds(tasks), deps, t.id)
                  then effective[i] == t.(status := Ready) else effective[i] == t
    {
      if NoDuplicates(TaskIds(tasks)) {
        forall i | 0 <= i < |tasks| {
          PromotedExactly(State(), config, tasks, deps, sync, i);
        }
      }
      if !config.autoPromoteDependents {
        return Effective(tasks, {});
      }
      var completed := CompletedIds(tasks);
      var blockedBy := CollectBlockers(deps);
      var active, done := activeRuns, completedTasks;
      var select := (t: Task) => t.status.Backlog? && t.id !in active && t.id !in done
                                 && DependenciesOf(blockedBy, t.id) <= completed;
      var promotable := Filter(tasks, select);
      FilterMembers(tasks, select);
      var promoted := {};
      for i := 0 to |promotable|
        invariant promoted == set t | t in promotable[..i] && sync(t.id) :: t.id
      {
        assert promotable[..i + 1] == promotable[..i] + [promotable[i]];
        if sync(promotable[i].id) {
          promoted := promoted + {promotable[i].id};
        }
      }
      assert promotable[..|promotable|] == promotable;
      assert promoted == Promoted(State(), config, tasks, deps, sync);
      return Effective(tasks, promoted);
    }

    method Tick(tasks: seq<Task>, deps: seq<Dependency>, sync: TaskId -> bool, launcher: TaskId -> Option<RunId>)
      returns (r: Result<seq<TaskId>, TickError>)
      modifies this
      ensures var outcome := old(Ticked(State(), config, tasks, deps, sync, launcher));
              && State() == old(State()).(active := outcome.active)
              && (r.Success? <==> Accepted(GraphOf(tasks, deps)) && outcome.failed.None?)
              && (r.Success? ==> r.value == outcome.launched)
              && (r.Failure? && r.error.LauncherFailed? ==> outcome.failed == Some(r.error.taskId))
              && (r == Failure(CyclicGraph) <==>
                  WellFormed(GraphOf(tasks, deps)) && !Acyclic(BlockingEdges(deps)))
    {
      var effective := PromoteDependents(tasks, deps, sync);
      assert TaskIds(effective) == TaskIds(tasks);
      var ready := ComputeReadyTasks(effective, deps, activeRuns.Keys);
      if ready.Failure? {
        return Failure(ready.error);
      }
      var available := config.maxParallelTasks - |activeRuns|;
      var paused, done := manuallyPaused, completedTasks;
      var unpaused := (t: Task) => t.id !in paused;
      var unfinished := (t: Task) => t.id !in done;
      var candidates := Filter(Filter(ready.value, unpaused), unfinished);
      CandidatesInStages(State(), effective, deps, unpaused, unfinished);
      var toSchedule := Take(candidates, available);
      assert toSchedule == Plan(State(), config, tasks, deps, sync);
      var launched, failed := LaunchEach(toSchedule, launcher);
      if failed.Some? {
        return Failure(LauncherFailed(failed.value));
      }
      return Success(launched);
    }

    /** The launch loop of a tick; it stops at the first launcher that throws. */
    method LaunchEach(toSchedule: seq<Task>, launcher: TaskId -> Option<RunId>)
      returns (launched: seq<TaskId>, failed: Option<TaskId>)
      modifies this`activeRuns
      ensures Launch(activeRuns, launched, failed) == LaunchAll(old(activeRuns), toSchedule, launcher)
    {
      launched := [];
      for i := 0 to |toSchedule|
        invariant var rest := LaunchAll(activeRuns, toSchedule[i..], launcher);
                  LaunchAll(old(activeRuns), toSchedule, launcher)
                  == rest.(launched := launched + rest.launched)
      {
        var id := toSchedule[i].id;
        if id in activeRuns {
          continue;
        }
        var run := launcher(id);
        if run.None? {
          return launched, Some(id);
        }
        activeRuns := activeRuns[id := run.value];
        launched := launched + [id];
      }
      failed := None;
    }

    method CompleteTask(t: TaskId)
      modifies this
      ensures State() == Step(old(State()), config, Complete(t))
      ensures activeRuns == old(activeRuns) - {t} && completedTasks == old(completedTasks) + {t}
      ensures manuallyPaused == old(manuallyPaused)
    {
      activeRuns := activeRuns - {t};
      completedTasks := completedTasks + {t};
    }

    method FailTask(t: TaskId)
      modifies this
      ensures State() == Step(old(State()), config, Fail(t))
      ensures activeRuns == old(activeRuns) - {t} && completedTasks == old(completedTasks)
      ensures manuallyPaused == old(manuallyPaused)
    {
      activeRuns := activeRuns - {t};
    }

    method PauseTask(t: TaskId)
      modifies this
      ensures State() == Step(old(State()), config, Pause(t))
      ensures activeRuns == old(activeRuns) && completedTasks == old(completedTasks)
      ensures manuallyPaused == old(manuallyPaused) + {t}
    {
      manuallyPaused := manuallyPaused + {t};
    }

    method ResumeTask(t: TaskId)
      modifies this
      ensures State() == Step(old(State()), config, Resume(t))
      ensures activeRuns == old(activeRuns) && completedTasks == old(completedTasks)
      ensures manuallyPaused == old(manuallyPaused) - {t}
    {
      manuallyPaused := manuallyPaused - {t};
    }

    method StopTask(t: TaskId)
      modifies this
      ensures State() == Step(old(State()), config, Stop(t))
      ensures activeRuns == old(activeRuns) - {t} && completedTasks == old(completedTasks) - {t}
      ensures manuallyPaused == old(manuallyPaused) + {t}
    {
      activeRuns := activeRuns - {t};
      completedTasks := completedTasks - {t};
      manuallyPaused := manuallyPaused + {t};
    }

    method RetryTask(t: TaskId)
      modifies this
      ensures State() == Step(old(State()), config, Retry(t))
      ensures activeRuns == old(activeRuns) - {t} && completedTasks == old(completedTasks) - {t}
      ensures manuallyPaused == old(manuallyPaused) - {t}
    {
      activeRuns := activeRuns - {t};
      completedTasks := completedTasks - {t};
      manuallyPaused := manuallyPaused - {t};
    }

    method RecoverActive(t: TaskId, run: RunId)
      modifies this
      ensures State() == Step(old(State()), config, RecoverRunning(t, run))
      ensures activeRuns == old(activeRuns)[t := run] && completedTasks == old(completedTasks) - {t}
      ensures manuallyPaused == old(manuallyPaused)
    {
      activeRuns := activeRuns[t := run];
      completedTasks := completedTasks - {t};
    }

    method RecoverPaused(t: TaskId)
      modifies this
      ensures State() == Step(old(State()), config, RecoverGated(t))
      ensures activeRuns == old(activeRuns) - {t} && completedTasks == old(completedTasks) - {t}
      ensures manuallyPaused == old(manuallyPaused) + {t}
    {
      activeRuns := activeRuns - {t};
      completedTasks := completedTasks - {t};
      manuallyPaused := manuallyPaused + {t};
    }
  }

  // ---- Events and runs ----

  datatype Event =
    | Tick(tasks: seq<Task>, deps: seq<Dependency>, sync: TaskId -> bool, launcher: TaskId -> Option<RunId>)
    | Complete(t: TaskId)
    | Fail(t: TaskId)
    | Pause(t: TaskId)
    | Resume(t: TaskId)
    | Stop(t: TaskId)
    | Retry(t: TaskId)
    | RecoverRunning(t: TaskId, run: RunId)
    | RecoverGated(t: TaskId)

  ghost function Step(s: Supervisor, cfg: Config, e: Event): Supervisor {
    match e
    case Tick(tasks, deps, sync, launcher) => s.(active := Ticked(s, cfg, tasks, deps, sync, launcher).active)
    case Complete(t) => s.(active := s.active - {t}, completed := s.completed + {t})
    case Fail(t) => s.(active := s.active - {t})
    case Pause(t) => s.(paused := s.paused + {t})
    case Resume(t) => s.(paused := s.paused - {t})
    case Stop(t) => Supervisor(s.active - {t}, s.completed - {t}, s.paused + {t})
    case Retry(t) => Supervisor(s.active - {t}, s.completed - {t}, s.paused - {t})
    case RecoverRunning(t, run) => s.(active := s.active[t := run], completed := s.completed - {t})
    case RecoverGated(t) => Supervisor(s.active - {t}, s.completed - {t}, s.paused + {t})
  }

  ghost function LaunchedBy(s: Supervisor, cfg: Config, e: Event): seq<TaskId> {
    if e.Tick? then Ticked(s, cfg, e.tasks, e.deps, e.sync, e.launcher).launched else []
  }

  ghost function Stepper(cfg: Config): (Supervisor, Event) -> Supervisor {
    (s, e) => Step(s, cfg, e)
  }

  // ---- Safety of one tick ----

  lemma {:induction false} LaunchedAreNew(active: map<TaskId, RunId>, todo: seq<Task>,
                                          launcher: TaskId -> Option<RunId>)
    ensures var l := LaunchAll(active, todo, launcher);
            && (forall id :: id in l.launched ==> id !in active && exists t :: t in todo && t.id == id)
            && NoDuplicates(l.launched)
            && |l.launched| <= |todo|
    decreases |todo|
  {
    if todo != [] {
      var id := todo[0].id;
      if id in active {
        LaunchedAreNew(active, todo[1..], launcher);
      } else if launcher(id).Some? {
        var more := active[id := launcher(id).value];
        LaunchedAreNew(more, todo[1..], launcher);
        var rest := LaunchAll(more, todo[1..], launcher).launched;
        assert LaunchAll(active, todo, launcher).launched == [id] + rest;
        assert id in more && id !in rest;
        assert todo[0] in todo;
        assert forall x :: x in [id] + rest <==> x == id || x in rest;
      }
    }
  }

  lemma {:induction false} LaunchedAreActive(active: map<TaskId, RunId>, todo: seq<Task>,
                                             launcher: TaskId -> Option<RunId>)
    ensures var l := LaunchAll(active, todo, launcher);
            && (forall id :: id in l.active <==> id in active || id in l.launched)
            && |l.active| == |active| + |l.launched|
    decreases |todo|
  {
    if todo != [] {
      var id := todo[0].id;
      if id in active {
        LaunchedAreActive(active, todo[1..], launcher);
      } else if launcher(id).Some? {
        var more := active[id := launcher(id).value];
        LaunchedAreActive(more, todo[1..], launcher);
        var rest := LaunchAll(more, todo[1..], launcher).launched;
        assert LaunchAll(active, todo, launcher).launched == [id] + rest;
        assert forall x :: x in [id] + rest <==> x == id || x in rest;
        assert more.Keys == active.Keys + {id};
      }
    }
  }

  /** The tracker lists `id` as ready, or as backlog whose promotion it accepts where promotion is on. */
  ghost predicate Startable(cfg: Config, e: Event, id: TaskId)
    requires e.Tick?
  {
    exists t :: && t in e.tasks && t.id == id
                && (t.status.Ready? || (t.status.Backlog? && cfg.autoPromoteDependents && e.sync(id)))
  }

  lemma EffectiveFacts(tasks: seq<Task>, promoted: set<TaskId>, deps: seq<Dependency>)
    requires NoDuplicates(TaskIds(tasks))
    requires forall t :: t in tasks && t.id in promoted ==> t.status.Backlog?
    ensures CompletedIds(Effective(tasks, promoted)) == CompletedIds(tasks)
    ensures forall u :: u in Effective(tasks, promoted) ==>
              exists t :: t in tasks && t.id == u.id && (u == t || (t.id in promoted && u.status.Ready?))
  {
    var effective := Effective(tasks, promoted);
    forall u | u in effective
      ensures exists t :: t in tasks && t.id == u.id && (u == t || (t.id in promoted && u.status.Ready?))
    {
      var i :| 0 <= i < |effective| && effective[i] == u;
      assert tasks[i] in tasks;
    }
    forall t | t in tasks && t.status.Completed?
      ensures t in effective
    {
      var i :| 0 <= i < |tasks| && tasks[i] == t;
      assert effective[i] == t;
    }
  }

  lemma UniqueTask(tasks: seq<Task>, t: Task, u: Task)
    requires NoDuplicates(TaskIds(tasks)) && t in tasks && u in tasks && t.id == u.id
    ensures t == u
  {
    var i :| 0 <= i < |tasks| && tasks[i] == t;
    var j :| 0 <= j < |tasks| && tasks[j] == u;
    assert TaskIds(tasks)[i] == TaskIds(tasks)[j];
  }

  lemma PromotedAreBacklog(s: Supervisor, cfg: Config, tasks: seq<Task>, deps: seq<Dependency>, sync: TaskId -> bool)
    requires NoDuplicates(TaskIds(tasks))
    ensures forall t :: t in tasks && t.id in Promoted(s, cfg, tasks, deps, sync) ==> t.status.Backlog?
  {
    forall t | t in tasks && t.id in Promoted(s, cfg, tasks, deps, sync)
      ensures t.status.Backlog?
    {
      var u :| u in tasks && IsPromotable(s, tasks, deps, u) && sync(u.id) && u.id == t.id;
      UniqueTask(tasks, t, u);
    }
  }

  ghost predicate Launchable(s: Supervisor, cfg: Config, e: Event, id: TaskId)
    requires e.Tick?
  {
    && id !in s.active && id !in s.paused && id !in s.completed
    && Startable(cfg, e, id)
    && Unblocked(CompletedIds(e.tasks), e.deps, id)
  }

  lemma PlanFacts(s: Supervisor, cfg: Config, e: Event)
    requires e.Tick?
    ensures var todo := Plan(s, cfg, e.tasks, e.deps, e.sync);
            && (todo != [] ==> Accepted(GraphOf(e.tasks, e.deps)) && |s.active| + |todo| <= cfg.maxParallelTasks)
            && (forall t :: t in todo ==> Launchable(s, cfg, e, t.id))
  {
    var todo := Plan(s, cfg, e.tasks, e.deps, e.sync);
    if todo != [] {
      var promoted := Promoted(s, cfg, e.tasks, e.deps, e.sync);
      var effective := Effective(e.tasks, promoted);
      PromotedAreBacklog(s, cfg, e.tasks, e.deps, e.sync);
      EffectiveFacts(e.tasks, promoted, e.deps);
      CandidateMembers(s, effective, e.deps);
    }
  }

  lemma CandidateMembers(s: Supervisor, effective: seq<Task>, deps: seq<Dependency>)
    ensures forall t :: t in Candidates(s, effective, deps) <==>
              t in effective && IsReady(effective, deps, s.active.Keys, t) && t.id !in s.paused && t.id !in s.completed
  {
    FilterMembers(effective, t =>
      IsReady(effective, deps, s.active.Keys, t) && t.id !in s.paused && t.id !in s.completed);
  }

  /**
   * Everything a tick launches was startable, unblocked, and neither active, paused nor done; the
   * active set grows by exactly the launched tasks and never past the limit unless it was past it before.
   */
  lemma TickIsSafe(s: Supervisor, cfg: Config, e: Event)
    requires e.Tick?
    ensures var s', launched := Step(s, cfg, e), LaunchedBy(s, cfg, e);
            && s' == s.(active := s'.active)
            && (forall id :: id in s'.active <==> id in s.active || id in launched)
            && NoDuplicates(launched)
            && (forall id :: id in launched ==> Launchable(s, cfg, e, id))
            && (|s'.active| <= |s.active| || |s'.active| <= cfg.maxParallelTasks)
            && (launched != [] ==> Accepted(GraphOf(e.tasks, e.deps)))
  {
    PlanFacts(s, cfg, e);
    var todo := Plan(s, cfg, e.tasks, e.deps, e.sync);
    LaunchedAreNew(s.active, todo, e.launcher);
    LaunchedAreActive(s.active, todo, e.launcher);
    var launched := LaunchedBy(s, cfg, e);
    assert launched == LaunchAll(s.active, todo, e.launcher).launched;
    forall id | id in launched
      ensures Launchable(s, cfg, e, id)
    {
      var t :| t in todo && t.id == id;
    }
  }

  // ---- What a tick does not leave undone ----

  /** Each launched task runs as the run its launcher returned, and what was active stays as it was. */
  lemma {:induction false} LaunchesRecordRuns(active: map<TaskId, RunId>, todo: seq<Task>,
                                              launcher: TaskId -> Option<RunId>)
    ensures var l := LaunchAll(active, todo, launcher);
            && (forall id :: id in l.launched ==> id in l.active && launcher(id) == Some(l.active[id]))
            && (forall id :: id in active ==> id in l.active && l.active[id] == active[id])
    decreases |todo|
  {
    if todo != [] {
      var id := todo[0].id;
      if id in active {
        LaunchesRecordRuns(active, todo[1..], launcher);
      } else if launcher(id).Some? {
        LaunchesRecordRuns(active[id := launcher(id).value], todo[1..], launcher);
      }
    }
  }

  /** The first `k` tasks were launched; the launch ended there because all were, or because the next one threw. */
  ghost predicate StoppedAt(l: Launch, todo: seq<Task>, launcher: TaskId -> Option<RunId>, k: nat) {
    && k <= |todo| && l.launched == TaskIds(todo[..k])
    && (if l.failed.None? then k == |todo|
        else k < |todo| && l.failed == Some(todo[k].id) && launcher(todo[k].id).None?)
  }

  /** Launching distinct inactive tasks launches them in order, up to the first whose launcher throws. */
  lemma {:induction false} LaunchedPrefix(active: map<TaskId, RunId>, todo: seq<Task>,
                                          launcher: TaskId -> Option<RunId>) returns (k: nat)
    requires NoDuplicates(TaskIds(todo)) && forall t :: t in todo ==> t.id !in active
    ensures StoppedAt(LaunchAll(active, todo, launcher), todo, launcher, k)
    decreases |todo|
  {
    k := 0;
    if todo != [] {
      assert todo[0] in todo;
      if launcher(todo[0].id).Some? {
        var more := active[todo[0].id := launcher(todo[0].id).value];
        RestStaysNew(active, todo);
        var n := LaunchedPrefix(more, todo[1..], launcher);
        assert todo[..n + 1] == [todo[0]] + todo[1..][..n];
        assert TaskIds(todo[..n + 1]) == [todo[0].id] + TaskIds(todo[1..][..n]);
        k := n + 1;
      }
    }
  }

  lemma RestStaysNew(active: map<TaskId, RunId>, todo: seq<Task>)
    requires todo != [] && NoDuplicates(TaskIds(todo)) && forall t :: t in todo ==> t.id !in active
    ensures NoDuplicates(TaskIds(todo[1..])) && forall t :: t in todo[1..] ==> t.id !in active && t.id != todo[0].id
  {
    assert TaskIds(todo[1..]) == TaskIds(todo)[1..];
    forall t | t in todo[1..]
      ensures t.id != todo[0].id
    {
      var i :| 0 <= i < |todo[1..]| && todo[1..][i] == t;
      assert TaskIds(todo)[0] != TaskIds(todo)[i + 1];
    }
  }

  /** The candidates of a tick are one task for every launchable id, in the order of the list. */
  lemma CandidatesAreLaunchable(s: Supervisor, cfg: Config, e: Event)
    requires e.Tick? && Accepted(GraphOf(e.tasks, e.deps))
    ensures var candidates := Candidates(s, Effective(e.tasks, Promoted(s, cfg, e.tasks, e.deps, e.sync)), e.deps);
            && (forall t :: t in candidates ==> Launchable(s, cfg, e, t.id))
            && (forall id :: Launchable(s, cfg, e, id) ==> exists t :: t in candidates && t.id == id)
  {
    var promoted := Promoted(s, cfg, e.tasks, e.deps, e.sync);
    var effective := Effective(e.tasks, promoted);
    PromotedAreBacklog(s, cfg, e.tasks, e.deps, e.sync);
    EffectiveFacts(e.tasks, promoted, e.deps);
    CandidateMembers(s, effective, e.deps);
    forall id | Launchable(s, cfg, e, id)
      ensures exists t :: t in Candidates(s, effective, e.deps) && t.id == id
    {
      var i := LaunchableIsReady(s, cfg, e, id);
      assert effective[i] in effective;
      assert effective[i] in Candidates(s, effective, e.deps);
    }
  }

  lemma LaunchableIsReady(s: Supervisor, cfg: Config, e: Event, id: TaskId) returns (i: nat)
    requires e.Tick? && Launchable(s, cfg, e, id)
    ensures i < |e.tasks| && e.tasks[i].id == id
    ensures var u := Effective(e.tasks, Promoted(s, cfg, e.tasks, e.deps, e.sync))[i]; u.id == id && u.status.Ready?
  {
    var t :| t in e.tasks && t.id == id
          && (t.status.Ready? || (t.status.Backlog? && cfg.autoPromoteDependents && e.sync(id)));
    i :| 0 <= i < |e.tasks| && e.tasks[i] == t;
    if t.status.Backlog? {
      assert IsPromotable(s, e.tasks, e.deps, t);
      assert id in Promoted(s, cfg, e.tasks, e.deps, e.sync);
    }
  }

  lemma {:induction false} DistinctCandidates(s: Supervisor, effective: seq<Task>, deps: seq<Dependency>)
    requires NoDuplicates(TaskIds(effective))
    ensures NoDuplicates(TaskIds(Candidates(s, effective, deps)))
  {
    DistinctSelection(effective, t =>
      IsReady(effective, deps, s.active.Keys, t) && t.id !in s.paused && t.id !in s.completed);
  }

  lemma {:induction false} DistinctSelection(tasks: seq<Task>, p: Task -> bool)
    requires NoDuplicates(TaskIds(tasks))
    ensures NoDuplicates(TaskIds(Filter(tasks, p)))
  {
    if tasks != [] {
      assert TaskIds(tasks[1..]) == TaskIds(tasks)[1..];
      DistinctSelection(tasks[1..], p);
      FilterMembers(tasks[1..], p);
      var rest := Filter(tasks[1..], p);
      if p(tasks[0]) {
        assert TaskIds(Filter(tasks, p)) == [tasks[0].id] + TaskIds(rest);
        forall k | 0 <= k < |rest|
          ensures rest[k].id != tasks[0].id
        {
          assert rest[k] in tasks[1..];
          var i :| 0 <= i < |tasks[1..]| && tasks[1..][i] == rest[k];
          assert TaskIds(tasks)[0] != TaskIds(tasks)[i + 1];
        }
      } else {
        assert Filter(tasks, p) == rest;
      }
    }
  }

  /** What a tick launched are the first candidates; `k` says how many. */
  lemma TickLaunchesFirst(s: Supervisor, cfg: Config, e: Event) returns (k: nat)
    requires e.Tick? && Accepted(GraphOf(e.tasks, e.deps))
    ensures var candidates := Candidates(s, Effective(e.tasks, Promoted(s, cfg, e.tasks, e.deps, e.sync)), e.deps);
            var l := Ticked(s, cfg, e.tasks, e.deps, e.sync, e.launcher);
            && k <= |candidates| && l.launched == TaskIds(candidates[..k])
            && (if l.failed.Some? then k < |candidates| && l.failed == Some(candidates[k].id)
                                       && e.launcher(candidates[k].id).None?
                else k == |candidates| || |s.active| + k >= cfg.maxParallelTasks)
  {
    var effective := Effective(e.tasks, Promoted(s, cfg, e.tasks, e.deps, e.sync));
    var candidates := Candidates(s, effective, e.deps);
    var todo := Plan(s, cfg, e.tasks, e.deps, e.sync);
    assert TaskIds(effective) == TaskIds(e.tasks);
    DistinctCandidates(s, effective, e.deps);
    CandidateMembers(s, effective, e.deps);
    TakeIsPrefix(candidates, cfg.maxParallelTasks - |s.active|);
    assert TaskIds(todo) == TaskIds(candidates)[..|todo|];
    k := LaunchedPrefix(s.active, todo, e.launcher);
    assert todo[..k] == candidates[..k];
  }

  lemma TakeIsPrefix<T>(all: seq<T>, n: int)
    ensures |Take(all, n)| <= |all| && Take(all, n) == all[..|Take(all, n)|]
    ensures |Take(all, n)| == |all| || |Take(all, n)| >= n
  {
  }

  /**
   * A tick leaves no slot idle: afterwards the limit is reached, or every launchable task is active,
   * or the tick was ended by a launchable task whose launcher threw.
   */
  lemma TickLeavesNothingIdle(s: Supervisor, cfg: Config, e: Event)
    requires e.Tick? && Accepted(GraphOf(e.tasks, e.deps))
    ensures var (s', failed) := (Step(s, cfg, e), Ticked(s, cfg, e.tasks, e.deps, e.sync, e.launcher).failed);
            || |s'.active| >= cfg.maxParallelTasks
            || (forall id :: Launchable(s, cfg, e, id) ==> id in s'.active)
            || (failed.Some? && Launchable(s, cfg, e, failed.value) && e.launcher(failed.value).None?)
  {
    var candidates := Candidates(s, Effective(e.tasks, Promoted(s, cfg, e.tasks, e.deps, e.sync)), e.deps);
    var k := TickLaunchesFirst(s, cfg, e);
    CandidatesAreLaunchable(s, cfg, e);
    TickIsSafe(s, cfg, e);
    LaunchedAreActive(s.active, Plan(s, cfg, e.tasks, e.deps, e.sync), e.launcher);
    if Ticked(s, cfg, e.tasks, e.deps, e.sync, e.launcher).failed.Some? {
      assert candidates[k] in candidates;
    } else if k == |candidates| {
      forall id | Launchable(s, cfg, e, id)
        ensures id in Step(s, cfg, e).active
      {
        var t :| t in candidates && t.id == id;
        var i :| 0 <= i < |candidates| && candidates[i] == t;
        assert TaskIds(candidates[..k])[i] == id;
      }
    }
  }

  lemma CandidatesKeepOrder(s: Supervisor, effective: seq<Task>, deps: seq<Dependency>, k: nat, i: nat, j: nat)
    requires NoDuplicates(TaskIds(effective)) && i < j < |effective|
    requires k <= |Candidates(s, effective, deps)| && effective[j] in Candidates(s, effective, deps)[..k]
    requires effective[i] in Candidates(s, effective, deps)
    ensures effective[i] in Candidates(s, effective, deps)[..k]
  {
    CandidateMembers(s, effective, deps);
    OneIndexPerId(effective);
    var p := (t: Task) => IsReady(effective, deps, s.active.Keys, t) && t.id !in s.paused && t.id !in s.completed;
    FilterAgrees(effective, p, t =>
      IsReady(effective, deps, s.active.Keys, t) && t.id !in s.paused && t.id !in s.completed);
    FilterKeepsOrder(effective, p, k, i, j);
  }

  /** Tasks are launched in the order of the list. */
  lemma TickLaunchesInOrder(s: Supervisor, cfg: Config, e: Event, i: nat, j: nat)
    requires e.Tick? && Accepted(GraphOf(e.tasks, e.deps)) && i < j < |e.tasks|
    requires e.tasks[j].id in LaunchedBy(s, cfg, e) && Launchable(s, cfg, e, e.tasks[i].id)
    ensures e.tasks[i].id in LaunchedBy(s, cfg, e)
  {
    var effective := Effective(e.tasks, Promoted(s, cfg, e.tasks, e.deps, e.sync));
    var candidates := Candidates(s, effective, e.deps);
    var k := TickLaunchesFirst(s, cfg, e);
    CandidatesAreLaunchable(s, cfg, e);
    var t :| t in candidates && t.id == e.tasks[i].id;
    assert TaskIds(effective) == TaskIds(e.tasks);
    assert effective[i].id == e.tasks[i].id && effective[j].id == e.tasks[j].id;
    InOrder(s, effective, e.deps, k, t, i, j);
  }

  lemma InOrder(s: Supervisor, effective: seq<Task>, deps: seq<Dependency>, k: nat, t: Task, i: nat, j: nat)
    requires NoDuplicates(TaskIds(effective)) && i < j < |effective| && k <= |Candidates(s, effective, deps)|
    requires effective[j].id in TaskIds(Candidates(s, effective, deps)[..k])
    requires t in Candidates(s, effective, deps) && t.id == effective[i].id
    ensures effective[i].id in TaskIds(Candidates(s, effective, deps)[..k])
  {
    CandidateMembers(s, effective, deps);
    IdInPrefix(effective, Candidates(s, effective, deps), k, j);
    IdInPrefix(effective, Candidates(s, effective, deps), k, i);
    UniqueTask(effective, t, effective[i]);
    CandidatesKeepOrder(s, effective, deps, k, i, j);
  }

  /** Among distinct ids, an id is selected exactly when its task is. */
  lemma IdInPrefix(tasks: seq<Task>, selected: seq<Task>, k: nat, i: nat)
    requires k <= |selected| && i < |tasks| && NoDuplicates(TaskIds(tasks))
    requires forall t :: t in selected ==> t in tasks
    ensures tasks[i].id in TaskIds(selected[..k]) <==> tasks[i] in selected[..k]
  {
    if tasks[i].id in TaskIds(selected[..k]) {
      var n :| 0 <= n < k && TaskIds(selected[..k])[n] == tasks[i].id;
      assert selected[n] in selected;
      UniqueTask(tasks, selected[n], tasks[i]);
    }
    if tasks[i] in selected[..k] {
      var n :| 0 <= n < k && selected[..k][n] == tasks[i];
      assert TaskIds(selected[..k])[n] == tasks[i].id;
    }
  }

  lemma OneIndexPerId(tasks: seq<Task>)
    requires NoDuplicates(TaskIds(tasks))
    ensures forall t, i :: t in tasks && 0 <= i < |tasks| && tasks[i].id == t.id ==> t == tasks[i]
    ensures forall m, n :: 0 <= m < n < |tasks| ==> tasks[m] != tasks[n]
  {
    forall t, i | t in tasks && 0 <= i < |tasks| && tasks[i].id == t.id
      ensures t == tasks[i]
    {
      UniqueTask(tasks, t, tasks[i]);
    }
    forall m, n | 0 <= m < n < |tasks|
      ensures tasks[m] != tasks[n]
    {
      assert TaskIds(tasks)[m] != TaskIds(tasks)[n];
    }
  }

  /** Each launched task runs as the run its launcher returned; the runs that were active stay what they were. */
  lemma TickRecordsRuns(s: Supervisor, cfg: Config, e: Event)
    requires e.Tick?
    ensures var s' := Step(s, cfg, e);
            && (forall id :: id in LaunchedBy(s, cfg, e) ==> id in s'.active && e.launcher(id) == Some(s'.active[id]))
            && (forall id :: id in s.active ==> id in s'.active && s'.active[id] == s.active[id])
  {
    LaunchesRecordRuns(s.active, Plan(s, cfg, e.tasks, e.deps, e.sync), e.launcher);
  }

  // ---- What the controls let a tick do ----

  /** A retried task, a resumed one and a failed one are launchable once the tracker has them ready and unblocked. */
  lemma LaunchableAgain(s: Supervisor, cfg: Config, e: Event, t: TaskId)
    requires e.Tick? && Startable(cfg, e, t) && Unblocked(CompletedIds(e.tasks), e.deps, t)
    ensures Launchable(Step(s, cfg, Retry(t)), cfg, e, t)
    ensures t !in s.active && t !in s.completed ==> Launchable(Step(s, cfg, Resume(t)), cfg, e, t)
    ensures t !in s.completed && t !in s.paused ==> Launchable(Step(s, cfg, Fail(t)), cfg, e, t)
  {
  }

  /** The controls after which a paused task may be launched again. */
  predicate Unpauses(e: Event, t: TaskId) {
    (e.Resume? || e.Retry?) && e.t == t
  }

  /** A task that was paused, stopped or recovered as paused is not launched before it is resumed or retried. */
  lemma NotLaunchedWhilePaused(s: Supervisor, cfg: Config, control: Event, later: seq<Event>, e: Event, t: TaskId)
    requires (control.Pause? || control.Stop? || control.RecoverGated?) && control.t == t
    requires forall x :: x in later ==> !Unpauses(x, t)
    ensures t !in LaunchedBy(Fold(Stepper(cfg), Step(s, cfg, control), later), cfg, e)
  {
    var s' := Step(s, cfg, control);
    assert t in s'.paused;
    forall x: Supervisor, y | y in later && t in x.paused
      ensures t in Stepper(cfg)(x, y).paused
    {
    }
    FoldInvariant(Stepper(cfg), s', later, (x: Supervisor) => t in x.paused);
    if e.Tick? {
      TickIsSafe(Fold(Stepper(cfg), s', later), cfg, e);
    }
  }

  // ---- Safety over whole runs ----

  ghost predicate Disjoint(s: Supervisor) {
    s.active.Keys !! s.completed
  }

  lemma StepKeepsDisjoint(s: Supervisor, cfg: Config, e: Event)
    requires Disjoint(s)
    ensures Disjoint(Step(s, cfg, e))
  {
    if e.Tick? {
      TickIsSafe(s, cfg, e);
    }
  }

  const INITIAL := Supervisor(map[], {}, {})

  /** From the initial state, whatever ticks and controls happen, no task is both active and completed. */
  lemma RunsStayDisjoint(cfg: Config, events: seq<Event>)
    ensures Disjoint(Fold(Stepper(cfg), INITIAL, events))
  {
    forall s, e | Disjoint(s)
      ensures Disjoint(Stepper(cfg)(s, e))
    {
      StepKeepsDisjoint(s, cfg, e);
    }
    FoldInvariant(Stepper(cfg), INITIAL, events, s => Disjoint(s));
  }

  /** The controls after which a task may be launched again. */
  predicate Releases(e: Event, t: TaskId) {
    (e.Fail? || e.Stop? || e.Retry? || e.RecoverGated?) && e.t == t
  }

  ghost predicate Held(s: Supervisor, t: TaskId) {
    t in s.active || t in s.completed
  }

  /** A task that is active or completed stays so until a control releases it. */
  lemma HeldUntilReleased(s: Supervisor, cfg: Config, e: Event, t: TaskId)
    requires Held(s, t) && !Releases(e, t)
    ensures Held(Step(s, cfg, e), t)
  {
    if e.Tick? {
      TickIsSafe(s, cfg, e);
    }
  }

  lemma LaunchHolds(s: Supervisor, cfg: Config, e: Event, t: TaskId)
    requires t in LaunchedBy(s, cfg, e)
    ensures !Held(s, t) && Held(Step(s, cfg, e), t)
  {
    if e.Tick? {
      TickIsSafe(s, cfg, e);
    }
  }

  /** No task is launched twice unless it was failed, stopped, retried or recovered as paused in between. */
  lemma NoDoubleLaunch(s: Supervisor, cfg: Config, events: seq<Event>, i: nat, j: nat, t: TaskId)
    requires i < j < |events|
    requires t in LaunchedBy(Fold(Stepper(cfg), s, events[..i]), cfg, events[i])
    requires t in LaunchedBy(Fold(Stepper(cfg), s, events[..j]), cfg, events[j])
    ensures exists k :: i < k < j && Releases(events[k], t)
  {
    var fires := (x, e) => t in LaunchedBy(x, cfg, e);
    var held := x => Held(x, t);
    var releases := e => Releases(e, t);
    forall x, e | fires(x, e)
      ensures !held(x) && held(Stepper(cfg)(x, e))
    {
      LaunchHolds(x, cfg, e, t);
    }
    forall x, e | held(x) && !releases(e)
      ensures held(Stepper(cfg)(x, e))
    {
      HeldUntilReleased(x, cfg, e, t);
    }
    NothingFiresTwice(Stepper(cfg), s, events, i, j, x => true, fires, held, releases);
  }
}
