/**
 * One task execution by the daemon: superseding old incidents, running the workflow and the
 * pull-request lifecycle, and settling the task in the supervisor and the intervention store.
 */
module DaemonLoop {
  import opened Identifiers
  import opened Runs
  import I = Interventions
  import S = Scheduling
  import L = PrLifecycle
  import LifecycleServices

  /** The kinds a new execution of the task supersedes. */
  predicate IsOperational(k: I.Kind) {
    k.AgentFailure? || k.MergeConflict? || k.StuckAgent? || k.Auth? || k.Quota? || k.RateLimit?
  }

  /** The classification a failed workflow may carry. */
  type FailureKind = k: I.Kind | k in {I.Auth, I.Quota, I.RateLimit, I.MergeConflict, I.AgentFailure}
    witness I.AgentFailure

  /** What running the task's workflow comes to. */
  datatype WorkflowOutcome =
    | Succeeded(result: L.WorkflowResult, options: L.Options)
    | Failed(kind: Option<FailureKind>, summary: string)
    | GateRaised  // the workflow already created a durable human gate and stopped
    | Threw(kind: Option<FailureKind>, message: string)

  datatype Ending = Finished | Awaiting | PausedWithIncident | PausedAtGate | Escaped

  // ---- Incidents of a task ----

  /** An active operational intervention on the task. */
  predicate IsIncident(r: I.Intervention, t: TaskId) {
    I.IsActive(r.status) && r.scope.TaskScope? && r.target == t && IsOperational(r.kind)
  }

  predicate Supersedable(r: I.Intervention, t: TaskId) {
    r.scope.TaskScope? && r.target == t && IsOperational(r.kind)
  }

  ghost predicate NoIncident(store: I.Store, t: TaskId) {
    forall id :: id in store ==> !IsIncident(store[id], t)
  }

  ghost predicate OneIncident(store: I.Store, t: TaskId) {
    exists id :: OnlyIncident(store, t, id)
  }

  /** The one incident of the task, of this kind. */
  ghost predicate OneIncidentOf(store: I.Store, t: TaskId, kind: I.Kind) {
    exists id :: OnlyIncident(store, t, id) && store[id].kind == kind
  }

  /** Every record that is not a supersedable one of this task is as it was. */
  ghost predicate OthersKept(before: I.Store, after: I.Store, t: TaskId) {
    forall id :: id in before ==> id in after && (!Supersedable(before[id], t) ==> after[id] == before[id])
  }

  function DismissedRecord(r: I.Intervention, t: TaskId): I.Intervention {
    if IsIncident(r, t) then r.(status := I.Dismissed) else r
  }

  // ---- The texts and keys the daemon reports with ----

  function FailureInput(t: TaskId, execution: string, kind: Option<FailureKind>, text: string): I.Input {
    I.Input(if kind.Some? then kind.value else I.AgentFailure, I.TaskScope, t,
            "Workflow failed for task " + t.value + ": " + text, "", "workflow-failure:" + t.value + ":" + execution)
  }

  function LifecycleInput(t: TaskId, execution: string, conflict: bool, text: string): I.Input {
    I.Input(if conflict then I.MergeConflict else I.AgentFailure, I.TaskScope, t,
            "PR lifecycle failed " + text, "", "lifecycle-failure:" + t.value + ":" + execution)
  }

  function ErrorInput(t: TaskId, execution: string, kind: Option<FailureKind>, message: string): I.Input {
    I.Input(if kind.Some? then kind.value else I.AgentFailure, I.TaskScope, t,
            "Unexpected error for task " + t.value + ": " + message, "", "error:" + t.value + ":" + execution)
  }

  /** The kind an incident has: as classified, a merge conflict if the lifecycle ended in one, else an agent failure. */
  function IncidentKind(outcome: WorkflowOutcome, lifecycle: Option<L.LifecycleResult>): I.Kind {
    match outcome
    case Succeeded(_, _) =>
      if lifecycle.Some? && lifecycle.value.state.MergeConflict? then I.MergeConflict else I.AgentFailure
    case Failed(kind, _) => if kind.Some? then kind.value else I.AgentFailure
    case Threw(kind, _) => if kind.Some? then kind.value else I.AgentFailure
    case GateRaised => I.AgentFailure
  }

  /** The lifecycle left an open pull request behind because merging it is not automatic. */
  ghost predicate AwaitsApproval(outcome: WorkflowOutcome, t: TaskId, lifecycle: Option<L.LifecycleResult>,
                                 prs: map<nat, LifecycleServices.PullRequest>)
  {
    && outcome.Succeeded? && lifecycle.Some? && !outcome.options.autoMerge
    && L.ReachesPullRequest(outcome.result.(taskId := t), outcome.options)
    && L.LeftOpen(lifecycle.value.pullRequest, prs)
  }

  /** The intervention service accepts a report of this error. */
  predicate Reportable(t: TaskId, execution: string, message: string) {
    I.ValidInput(ErrorInput(t, execution, None, message))
  }

  /** The text of the error a refused report raises. */
  function RefusedText(input: I.Input): string
    requires !I.ValidInput(input)
  {
    "Error: " + I.Refusal(input).value
  }

  /** The text of an error the intervention service raises for an input it refuses. */
  ghost predicate IsRefusal(text: string) {
    exists input :: !I.ValidInput(input) && text == RefusedText(input)
  }

  /** No record was created under this execution's keys yet. */
  ghost predicate FreshExecution(hash: string -> int, store: I.Store, t: TaskId, execution: string) {
    && I.ForKey(hash("workflow-failure:" + t.value + ":" + execution)) !in store
    && I.ForKey(hash("lifecycle-failure:" + t.value + ":" + execution)) !in store
    && I.ForKey(hash("error:" + t.value + ":" + execution)) !in store
  }

  /** Reporting under a fresh key, when no incident is active, creates a record. */
  lemma ReportCreates(hash: string -> int, s: I.ServiceState, t: TaskId, input: I.Input)
    requires NoIncident(s.store, t) && I.ValidInput(input)
    requires input.scope.TaskScope? && input.target == t && IsOperational(input.kind)
    requires input.key != "" && I.KeysAgree(hash, s.activeByKey) && I.ForKey(hash(input.key)) !in s.store
    ensures I.Create(hash, s, input).0 == I.Inserted(hash, s, input)
  {
    var same := I.ActiveSame(s.store, input.kind, input.scope, input.target);
    if same.Some? {
      assert IsIncident(s.store[same.value], t);
    }
  }

  ghost predicate OnlyIncident(store: I.Store, t: TaskId, id: I.Id) {
    && id in store && IsIncident(store[id], t)
    && forall other :: other in store && IsIncident(store[other], t) ==> other == id
  }

  /** It leaves exactly the reported incident. */
  lemma ReportedOnce(store: I.Store, t: TaskId, id: I.Id, record: I.Intervention)
    requires NoIncident(store, t) && id !in store && IsIncident(record, t)
    ensures OnlyIncident(store[id := record], t, id)
    ensures OthersKept(store, store[id := record], t)
  {
  }

  class Daemon {
    const supervisor: S.RunSupervisor
    const interventions: I.InterventionService
    const lifecycle: L.PrLifecycleOrchestrator
    var activeTasks: set<TaskId>

    constructor (supervisor: S.RunSupervisor, interventions: I.InterventionService,
                 lifecycle: L.PrLifecycleOrchestrator)
      ensures this.supervisor == supervisor && this.interventions == interventions && this.lifecycle == lifecycle
      ensures activeTasks == {}
    {
      this.supervisor, this.interventions, this.lifecycle := supervisor, interventions, lifecycle;
      activeTasks := {};
    }

    ghost predicate Ready()
      reads this, interventions, lifecycle, lifecycle.services
    {
      interventions.Valid() && lifecycle.services.Valid()
    }

    method DismissIfSupersedable(id: I.Id, t: TaskId)
      requires interventions.Valid() && id in interventions.store
      modifies interventions
      ensures interventions.Valid()
      ensures interventions.store == old(interventions.store)[id := DismissedRecord(old(interventions.store)[id], t)]
    {
      if Supersedable(interventions.store[id], t) {
        var dismissed := interventions.Dismiss(id);
      }
    }

    /** A new execution dismisses the task's operational incidents and nothing else. */
    method Supersede(t: TaskId)
      requires interventions.Valid()
      modifies interventions
      ensures interventions.Valid() && NoIncident(interventions.store, t)
      ensures interventions.store.Keys == old(interventions.store).Keys
      ensures OthersKept(old(interventions.store), interventions.store, t)
      // Each incident becomes dismissed; everything else stays as it was.
      ensures forall id :: id in interventions.store ==>
                var was := old(interventions.store)[id];
                interventions.store[id] == if IsIncident(was, t) then was.(status := I.Dismissed) else was
    {
      ghost var before := interventions.store;
      var pending := interventions.store.Keys;
      while pending != {}
        invariant interventions.Valid() && pending <= before.Keys
        invariant interventions.store.Keys == before.Keys
        invariant forall id :: id in before ==>
                    interventions.store[id] == if id in pending then before[id] else DismissedRecord(before[id], t)
      {
        var id :| id in pending;
        pending := pending - {id};
        DismissIfSupersedable(id, t);
      }
    }

    /** Reports an incident and pauses the task; false when the intervention service refuses the input. */
    method ReportAndPause(t: TaskId, input: I.Input) returns (ok: bool)
      requires Ready() && NoIncident(interventions.store, t)
      requires input.scope.TaskScope? && input.target == t && IsOperational(input.kind) && input.key != ""
      requires I.ForKey(interventions.hash(input.key)) !in interventions.store
      modifies supervisor, interventions
      ensures interventions.Valid() && (ok <==> I.ValidInput(input))
      ensures ok ==> OneIncident(interventions.store, t) && OneIncidentOf(interventions.store, t, input.kind)
      ensures ok ==> supervisor.State() == Paused(old(supervisor.State()), supervisor.config, t)
      ensures !ok ==> supervisor.State() == old(supervisor.State()) && interventions.store == old(interventions.store)
      ensures OthersKept(old(interventions.store), interventions.store, t)
    {
      if I.ValidInput(input) {
        ReportCreates(interventions.hash, interventions.State(), t, input);
        var id := I.ForKey(interventions.hash(input.key));
        ReportedOnce(interventions.store, t, id, I.NewRecord(id, input));
      }
      var created := interventions.CreateIntervention(input);
      if created.Failure? {
        return false;
      }
      supervisor.FailTask(t);
      supervisor.PauseTask(t);
      return true;
    }

    /**
     * The guarded part: the workflow and the lifecycle. Failure(error) is what the outer handler
     * catches. `text` is the state and error message the lifecycle reports.
     */
    method Execute(t: TaskId, execution: string, outcome: WorkflowOutcome, text: string)
      returns (r: Result<Ending, (Option<FailureKind>, string)>, ghost seg: seq<LifecycleServices.Effect>,
               ghost result: Option<L.LifecycleResult>)
      requires Ready() && NoIncident(interventions.store, t)
      requires FreshExecution(interventions.hash, interventions.store, t, execution)
      modifies supervisor, interventions, lifecycle.services
      ensures Ready() && lifecycle.services.log == old(lifecycle.services.log) + seg
      ensures OthersKept(old(interventions.store), interventions.store, t)
      ensures r.Failure? ==>
                supervisor.State() == old(supervisor.State()) && interventions.store == old(interventions.store)
      ensures r.Success? ==> supervisor.State() == Settled(old(supervisor.State()), supervisor.config, t, r.value)
      ensures r.Success? ==> (if r.value.PausedWithIncident? then OneIncident(interventions.store, t)
                              else NoIncident(interventions.store, t))
      ensures r.Success? ==> !r.value.Escaped? && (r.value.PausedAtGate? <==> outcome.GateRaised?)
      ensures r.Success? && r.value.Finished? <==> TrackerDone(outcome, t, seg)
      ensures r.Success? && r.value.Awaiting? <==> AwaitsApproval(outcome, t, result, lifecycle.services.prs)
      ensures r.Success? && r.value.PausedWithIncident? ==>
                OneIncidentOf(interventions.store, t, IncidentKind(outcome, result))
      ensures outcome.Threw? ==> r.Failure? && r.error == (outcome.kind, outcome.message)
      ensures !outcome.Threw? && r.Failure? ==> !outcome.GateRaised? && r.error.0.None? && IsRefusal(r.error.1)
    {
      seg, result := [], None;
      var report;
      match outcome {
        case GateRaised =>
          supervisor.FailTask(t);
          supervisor.PauseTask(t);
          return Success(PausedAtGate), seg, result;
        case Threw(kind, message) =>
          return Failure((kind, message)), seg, result;
        case Failed(kind, summary) =>
          report := FailureInput(t, execution, kind, summary);
        case Succeeded(workflow, options) =>
          var settled, conflict;
          ghost var l;
          settled, conflict, seg, l := RunLifecycle(t, workflow, options);
          result := Some(l);
          if settled.Some? {
            return Success(settled.value), seg, result;
          }
          report := LifecycleInput(t, execution, conflict, text);
      }
      var reported := ReportAndPause(t, report);
      return if reported then Success(PausedWithIncident) else Failure((None, RefusedText(report))), seg, result;
    }

    /** The lifecycle, and the endings of it that are no failure; `conflict` tells the failures apart. */
    method RunLifecycle(t: TaskId, workflow: L.WorkflowResult, options: L.Options)
      returns (r: Option<Ending>, conflict: bool, ghost seg: seq<LifecycleServices.Effect>, ghost l: L.LifecycleResult)
      requires lifecycle.services.Valid()
      modifies supervisor, lifecycle.services
      ensures lifecycle.services.Valid() && lifecycle.services.log == old(lifecycle.services.log) + seg
      ensures r.Some? ==> r.value.Finished? || r.value.Awaiting?
      ensures r == Some(Finished) <==> TrackerDone(Succeeded(workflow, options), t, seg)
      ensures r == Some(Awaiting) <==>
                AwaitsApproval(Succeeded(workflow, options), t, Some(l), lifecycle.services.prs)
      ensures conflict <==> l.state.MergeConflict?
      ensures supervisor.State() ==
              if r == Some(Finished) then S.Step(old(supervisor.State()), supervisor.config, S.Complete(t))
              else old(supervisor.State())
    {
      var outcome;
      ghost var lookup;
      outcome, seg, lookup := lifecycle.Run(workflow.(taskId := t), options);
      l := outcome;
      conflict := outcome.state.MergeConflict?;
      if outcome.state.MergedState? || outcome.state.NoCodeOutcome? {
        supervisor.CompleteTask(t);
        return Some(Finished), conflict, seg, l;
      }
      return if outcome.state.AwaitingApproval? then Some(Awaiting) else None, conflict, seg, l;
    }

    /** The outer handler; the error escapes it when the intervention service refuses the report. */
    method HandleError(t: TaskId, execution: string, kind: Option<FailureKind>, message: string)
      returns (ending: Ending)
      requires Ready() && NoIncident(interventions.store, t)
      requires FreshExecution(interventions.hash, interventions.store, t, execution)
      modifies supervisor, interventions
      ensures Ready() && OthersKept(old(interventions.store), interventions.store, t)
      ensures ending == if Reportable(t, execution, message) then PausedWithIncident else Escaped
      ensures supervisor.State() == Settled(old(supervisor.State()), supervisor.config, t, ending)
      ensures if ending.PausedWithIncident? then OneIncident(interventions.store, t)
              else NoIncident(interventions.store, t)
      ensures ending.PausedWithIncident? ==>
                OneIncidentOf(interventions.store, t, if kind.Some? then kind.value else I.AgentFailure)
    {
      var reported := ReportAndPause(t, ErrorInput(t, execution, kind, message));
      return if reported then PausedWithIncident else Escaped;
    }

    /** Ticks, other tasks' runs and controls act on the supervisor. */
    method Meanwhile(events: seq<S.Event>)
      modifies supervisor
      ensures supervisor.State() == Fold(S.Stepper(supervisor.config), old(supervisor.State()), events)
    {
      ghost var start, step := supervisor.State(), S.Stepper(supervisor.config);
      for i := 0 to |events|
        invariant supervisor.State() == Fold(step, start, events[..i])
      {
        ghost var before := supervisor.State();
        TakeEvent(events[i]);
        assert events[..i + 1] == events[..i] + [events[i]];
        FoldSplits(step, start, events[..i], [events[i]]);
        FoldTrace(step, [before, supervisor.State()], [events[i]]);
      }
      assert events[..|events|] == events;
    }

    method TakeEvent(e: S.Event)
      modifies supervisor
      ensures supervisor.State() == S.Step(old(supervisor.State()), supervisor.config, e)
    {
      match e
      case Tick(tasks, deps, sync, launcher) => var launched := supervisor.Tick(tasks, deps, sync, launcher);
      case Complete(t) => supervisor.CompleteTask(t);
      case Fail(t) => supervisor.FailTask(t);
      case Pause(t) => supervisor.PauseTask(t);
      case Resume(t) => supervisor.ResumeTask(t);
      case Stop(t) => supervisor.StopTask(t);
      case Retry(t) => supervisor.RetryTask(t);
      case RecoverRunning(t, run) => supervisor.RecoverActive(t, run);
      case RecoverGated(t) => supervisor.RecoverPaused(t);
    }

    /**
     * Runs one task. `meanwhile` is all that others do to the supervisor while the run awaits; the run
     * does not look at the supervisor before it settles the task, so one place for it is enough.
     * `caught` is the text of the error that reached the outer handler, if one did.
     */
    method RunTask(t: TaskId, execution: string, outcome: WorkflowOutcome, text: string, meanwhile: seq<S.Event>)
      returns (ending: Ending, ghost caught: Option<string>, ghost seg: seq<LifecycleServices.Effect>,
               ghost result: Option<L.LifecycleResult>)
      requires Ready() && FreshExecution(interventions.hash, interventions.store, t, execution)
      modifies this, supervisor, interventions, lifecycle.services
      ensures Ready() && activeTasks == old(activeTasks) - {t}
      // The supervisor ends in exactly the state the ending says, after what happened meanwhile.
      ensures supervisor.State() ==
              Settled(Fold(S.Stepper(supervisor.config), old(supervisor.State()), meanwhile),
                      supervisor.config, t, ending)
      // A task is finished exactly when this run got the tracker completed and the worktree released.
      ensures ending.Finished? <==> TrackerDone(outcome, t, seg)
      // It stays active exactly when its pull request was left open for approval.
      ensures ending.Awaiting? <==> AwaitsApproval(outcome, t, result, lifecycle.services.prs)
      ensures ending.PausedAtGate? <==> outcome.GateRaised?
      ensures lifecycle.services.log == old(lifecycle.services.log) + seg
      // Exactly one incident when paused for a failure, none otherwise; other interventions are untouched.
      ensures ending.PausedWithIncident? ==> OneIncident(interventions.store, t)
      ensures !ending.PausedWithIncident? ==> NoIncident(interventions.store, t)
      ensures ending.PausedWithIncident? ==>
                OneIncidentOf(interventions.store, t,
                              if caught.Some? && !outcome.Threw? then I.AgentFailure else IncidentKind(outcome, result))
      ensures OthersKept(old(interventions.store), interventions.store, t)
      // An error escapes exactly when its report is refused.
      ensures ending.Escaped? <==> caught.Some? && !Reportable(t, execution, caught.value)
      ensures outcome.Threw? ==> caught == Some(outcome.message)
      ensures !outcome.Threw? && caught.Some? ==> IsRefusal(caught.value)
      // With ids of moderate length: exactly when the workflow threw a text too long to report.
      ensures !IsBlank(t.value) && |t.value| + |execution| <= 1900 ==>
                (ending.Escaped? <==> outcome.Threw? && |outcome.message| > LongestReportable(t))
    {
      activeTasks := activeTasks + {t};
      caught := None;
      Supersede(t);
      Meanwhile(meanwhile);
      var r;
      r, seg, result := Execute(t, execution, outcome, text);
      if r.Success? {
        ending := r.value;
      } else {
        caught := Some(r.error.1);
        ending := HandleError(t, execution, r.error.0, r.error.1);
      }
      activeTasks := activeTasks - {t};
      if !IsBlank(t.value) && |t.value| + |execution| <= 1900 && caught.Some? {
        OnlyLongErrorsEscape(t, execution, caught.value);
      }
    }
  }

  /** The lifecycle of this run completed the tracker task and, where there is a release, released the worktree. */
  ghost predicate TrackerDone(outcome: WorkflowOutcome, t: TaskId, seg: seq<LifecycleServices.Effect>) {
    && outcome.Succeeded? && LifecycleServices.TrackerCompleted(t) in seg
    && (outcome.options.hasRelease ==> LifecycleServices.WorktreeReleased(t) in seg)
  }

  // ---- Where a task ends up ----

  ghost function Paused(s: S.Supervisor, cfg: S.Config, t: TaskId): S.Supervisor {
    S.Step(S.Step(s, cfg, S.Fail(t)), cfg, S.Pause(t))
  }

  ghost function Settled(s: S.Supervisor, cfg: S.Config, t: TaskId, ending: Ending): S.Supervisor {
    match ending
    case Finished => S.Step(s, cfg, S.Complete(t))
    case Awaiting => s
    case PausedWithIncident => Paused(s, cfg, t)
    case PausedAtGate => Paused(s, cfg, t)
    case Escaped => s
  }

  predicate CompletedState(s: S.Supervisor, t: TaskId) { t !in s.active && t in s.completed && t !in s.paused }
  predicate ActiveState(s: S.Supervisor, t: TaskId) { t in s.active && t !in s.completed && t !in s.paused }
  predicate PausedState(s: S.Supervisor, t: TaskId) { t !in s.active && t !in s.completed && t in s.paused }

  /** A tick, or a control or another run's settlement of another task. */
  predicate Foreign(e: S.Event, t: TaskId) {
    e.Tick? || e.t != t
  }

  ghost predicate AllForeign(events: seq<S.Event>, t: TaskId) {
    forall e :: e in events ==> Foreign(e, t)
  }

  predicate SameFor(s: S.Supervisor, s': S.Supervisor, t: TaskId) {
    && (t in s.active <==> t in s'.active)
    && (t in s.completed <==> t in s'.completed)
    && (t in s.paused <==> t in s'.paused)
  }

  /** A task that is active, completed or paused stays exactly that, whatever is done to other tasks. */
  lemma ForeignStepKeeps(s: S.Supervisor, cfg: S.Config, e: S.Event, t: TaskId)
    requires Foreign(e, t) && (t in s.active || t in s.completed || t in s.paused)
    ensures SameFor(s, S.Step(s, cfg, e), t) && t !in S.LaunchedBy(s, cfg, e)
  {
    if e.Tick? {
      S.TickIsSafe(s, cfg, e);
    }
  }

  lemma ForeignRunKeeps(s: S.Supervisor, cfg: S.Config, events: seq<S.Event>, t: TaskId)
    requires AllForeign(events, t) && (t in s.active || t in s.completed || t in s.paused)
    ensures SameFor(s, Fold(S.Stepper(cfg), s, events), t)
    ensures forall i :: 0 <= i < |events| ==>
              t !in S.LaunchedBy(Fold(S.Stepper(cfg), s, events[..i]), cfg, events[i])
  {
    forall x, e | e in events && SameFor(s, x, t)
      ensures SameFor(s, S.Stepper(cfg)(x, e), t)
    {
      ForeignStepKeeps(x, cfg, e, t);
    }
    FoldInvariant(S.Stepper(cfg), s, events, x => SameFor(s, x, t));
    forall i | 0 <= i < |events|
      ensures t !in S.LaunchedBy(Fold(S.Stepper(cfg), s, events[..i]), cfg, events[i])
    {
      FoldInvariant(S.Stepper(cfg), s, events[..i], x => SameFor(s, x, t));
      ForeignStepKeeps(Fold(S.Stepper(cfg), s, events[..i]), cfg, events[i], t);
    }
  }

  /**
   * A launched task that no control touches, among any number of ticks and other tasks' runs before
   * and after its own settlement, ends in exactly one of three states, one per ending, and no tick
   * launches it again; an escaped error is the one failure that leaves it active.
   */
  lemma TaskAccounting(s: S.Supervisor, cfg: S.Config, t: TaskId, meanwhile: seq<S.Event>, ending: Ending,
                       later: seq<S.Event>)
    requires ActiveState(s, t) && AllForeign(meanwhile, t) && AllForeign(later, t)
    ensures var settled := Settled(Fold(S.Stepper(cfg), s, meanwhile), cfg, t, ending);
            var s' := Fold(S.Stepper(cfg), settled, later);
            && (CompletedState(s', t) <==> ending.Finished?)
            && (ActiveState(s', t) <==> ending.Awaiting? || ending.Escaped?)
            && (PausedState(s', t) <==> ending.PausedWithIncident? || ending.PausedAtGate?)
            && (forall i :: 0 <= i < |meanwhile| ==>
                  t !in S.LaunchedBy(Fold(S.Stepper(cfg), s, meanwhile[..i]), cfg, meanwhile[i]))
            && (forall i :: 0 <= i < |later| ==>
                  t !in S.LaunchedBy(Fold(S.Stepper(cfg), settled, later[..i]), cfg, later[i]))
  {
    ForeignRunKeeps(s, cfg, meanwhile, t);
    ForeignRunKeeps(Settled(Fold(S.Stepper(cfg), s, meanwhile), cfg, t, ending), cfg, later, t);
  }

  /** Settling a task does nothing to the others. */
  lemma SettlementIsOwn(s: S.Supervisor, cfg: S.Config, t: TaskId, ending: Ending, u: TaskId)
    requires u != t
    ensures SameFor(s, Settled(s, cfg, t, ending), u)
  {
  }

  // ---- Errors that escape ----

  /** The longest error text that fits into its report. */
  function LongestReportable(t: TaskId): int {
    16000 - 28 - |t.value|
  }

  /** With ids short enough for the keys, an error escapes only if the thrown text itself is too long to report. */
  lemma OnlyLongErrorsEscape(t: TaskId, execution: string, message: string)
    requires !IsBlank(t.value) && |t.value| + |execution| <= 1900
    ensures IsRefusal(message) ==> Reportable(t, execution, message)
    ensures Reportable(t, execution, message) <==> |message| <= LongestReportable(t)
  {
    var input := ErrorInput(t, execution, None, message);
    assert input.summary[0] == 'U' && !IsTrimmed('U');
    assert |"Unexpected error for task "| == 26;
  }

  /** An error of 15972 characters escapes the run of task "t", which stays active without an incident. */
  method EscapingErrorExample(daemon: Daemon, execution: string) returns (ending: Ending)
    requires daemon.Ready() && |execution| <= 1899
    requires FreshExecution(daemon.interventions.hash, daemon.interventions.store, StableId("t"), execution)
    modifies daemon, daemon.supervisor, daemon.interventions, daemon.lifecycle.services
    ensures ending.Escaped? && NoIncident(daemon.interventions.store, StableId("t"))
    ensures daemon.supervisor.State() == old(daemon.supervisor.State())
  {
    assert "t"[0] == 't';
    ghost var caught, seg, result;
    ending, caught, seg, result := daemon.RunTask(StableId("t"), execution, Threw(None, seq(15972, _ => 'x')), "", []);
  }
}
