/**
 * What the pull-request lifecycle acts on: the in-memory SCM adapter, the tracker's task
 * status and the worktree release. Every call may fail without effect, and between calls
 * other parties may push, rerun checks, change mergeability or open pull requests; nobody
 * else merges or closes one. A ghost log records the effects in order.
 */
module LifecycleServices {
  import opened Identifiers

  datatype CheckStatus = QueuedCheck | RunningCheck | Passed | FailedCheck | CancelledCheck

  datatype Check = Check(name: string, status: CheckStatus)

  datatype PrState = Open | Closed | Merged

  datatype Mergeability = Mergeable | Conflicting | Unknown

  datatype PullRequest = PullRequest(number: nat, source: string, target: string, state: PrState,
                                     checks: seq<Check>, headSha: Option<string>, mergeability: Mergeability)

  datatype Effect =
    | Created(source: string, pr: nat)
    | Polled(checks: Option<seq<Check>>)
    | HeadRead(head: string)
    | BodyUpdated(pr: nat)
    | MergeCalled(pr: nat, head: string, before: Option<PrState>, outcome: MergeOutcome)
    | BaseMergeTried
    | Verified(pr: nat)
    | TrackerCompleted(task: TaskId)
    | BranchDeleted(branch: string)
    | WorktreeReleased(task: TaskId)

  datatype MergeOutcome = MergeDone | MergeFailed(conflict: bool)

  datatype BaseMergeOutcome = BaseMerged | BaseConflict | BaseError

  predicate CheckPassed(checks: seq<Check>, name: string) {
    exists i :: 0 <= i < |checks| && checks[i] == Check(name, Passed)
             && forall j :: 0 <= j < i ==> checks[j].name != name
  }

  predicate AllPassed(required: seq<string>, checks: seq<Check>) {
    forall name :: name in required ==> CheckPassed(checks, name)
  }

  /** What other parties may do to the pull requests. */
  predicate Moves(prs: map<nat, PullRequest>, next: map<nat, PullRequest>) {
    forall n :: n in prs ==>
      && n in next
      && next[n].number == prs[n].number && next[n].state == prs[n].state
      && next[n].source == prs[n].source && next[n].target == prs[n].target
  }

  /** `findMockReusable` without a target: some open pull request of the branch, else some merged one. */
  ghost predicate Reusable(prs: map<nat, PullRequest>, source: string, n: nat) {
    && n in prs && prs[n].source == source
    && (prs[n].state.Open? || (prs[n].state.Merged? &&
          forall k :: k in prs && prs[k].source == source ==> !prs[k].state.Open?))
  }

  ghost predicate NoneReusable(prs: map<nat, PullRequest>, source: string) {
    forall n :: n in prs && prs[n].source == source ==> prs[n].state.Closed?
  }

  /** `n` is the only pull request of the pair that is not closed. */
  ghost predicate OnlyLiveOfPair(prs: map<nat, PullRequest>, source: string, target: string, n: nat) {
    forall k :: k in prs && prs[k].source == source && prs[k].target == target && !prs[k].state.Closed? ==> k == n
  }

  ghost predicate NotCreated(log: seq<Effect>, source: string) {
    forall e :: e in log && e.Created? ==> e.source != source
  }

  // ---- Invariants of the log over any number of runs ----

  ghost predicate AtMostOneCreated(log: seq<Effect>) {
    forall i, j :: 0 <= i < j < |log| && log[i].Created? && log[j].Created? ==> log[i].source != log[j].source
  }

  ghost predicate NeverMergesMerged(log: seq<Effect>) {
    forall i :: 0 <= i < |log| && log[i].MergeCalled? ==> log[i].before != Some(Merged)
  }

  ghost predicate LogMatches(log: seq<Effect>, prs: map<nat, PullRequest>) {
    && (forall e :: e in log && e.Created? ==>
          e.pr in prs && prs[e.pr].source == e.source && !prs[e.pr].state.Closed?)
    && (forall e :: e in log && e.Verified? ==> e.pr in prs && prs[e.pr].state.Merged?)
  }

  /** The head a merge is bound to; "" when the pull request has none. */
  function HeadOf(pr: PullRequest): string {
    if pr.headSha.Some? then pr.headSha.value else ""
  }

  class Services {
    /** Whether no call fails and nobody else acts. */
    const quiet: bool
    var prs: map<nat, PullRequest>
    var nextNumber: nat
    var completedTasks: set<TaskId>
    ghost var log: seq<Effect>

    ghost predicate Valid()
      reads this
    {
      && (forall n :: n in prs ==> prs[n].number == n && n < nextNumber)
      && LogMatches(log, prs)
    }

    constructor (prs: map<nat, PullRequest>, nextNumber: nat, quiet: bool)
      requires forall n :: n in prs ==> prs[n].number == n < nextNumber
      ensures Valid() && log == [] && this.prs == prs && this.quiet == quiet
    {
      this.quiet, this.prs, this.nextNumber := quiet, prs, nextNumber;
      completedTasks, log := {}, [];
    }

    /** Other parties act. */
    method Environment()
      requires Valid()
      modifies this`prs, this`nextNumber
      ensures Valid() && Moves(old(prs), prs)
      ensures quiet ==> prs == old(prs)
    {
      var next: map<nat, PullRequest> := *;
      var number: nat := *;
      if !quiet && Moves(prs, next) && forall n :: n in next ==> next[n].number == n && n < number {
        prs, nextNumber := next, number;
      }
    }

    /** None: the call failed. Some(None): the branch has no reusable pull request. */
    method FindByBranch(source: string) returns (r: Option<Option<PullRequest>>)
      requires Valid()
      modifies this`prs, this`nextNumber
      ensures Valid() && Moves(old(prs), prs)
      ensures r.Some? && r.value.None? ==> NoneReusable(prs, source)
      ensures r.Some? && r.value.Some? ==>
                var pr := r.value.value;
                Reusable(prs, source, pr.number) && prs[pr.number] == pr
      ensures quiet ==> r.Some? && prs == old(prs)
    {
      Environment();
      var fails: bool := *;
      if fails && !quiet {
        return None;
      }
      if n :| n in prs && prs[n].source == source && prs[n].state.Open? {
        return Some(Some(prs[n]));
      }
      if n :| n in prs && prs[n].source == source && prs[n].state.Merged? {
        return Some(Some(prs[n]));
      }
      return Some(None);
    }

    /** Answers with an open or merged pull request of the pair, and creates one only if there is none. */
    method CreatePullRequest(source: string, target: string) returns (r: Option<PullRequest>)
      requires Valid()
      modifies this`prs, this`nextNumber, this`log
      ensures Valid() && Moves(old(prs), prs)
      ensures r.None? ==> log == old(log)
      ensures r.Some? ==>
                && r.value.number in prs && prs[r.value.number] == r.value
                && r.value.source == source && r.value.target == target && !r.value.state.Closed?
                && (log == old(log) || (log == old(log) + [Created(source, r.value.number)]
                                        && OnlyLiveOfPair(prs, source, target, r.value.number)))
      ensures quiet ==> r.Some?
      ensures log != old(log) ==> r.value.state.Open?
      ensures quiet && NoneReusable(old(prs), source) ==> log != old(log)
    {
      Environment();
      var fails: bool := *;
      if fails && !quiet {
        return None;
      }
      if n :| n in prs && prs[n].source == source && prs[n].target == target && prs[n].state.Open? {
        return Some(prs[n]);
      }
      if n :| n in prs && prs[n].source == source && prs[n].target == target && prs[n].state.Merged? {
        return Some(prs[n]);
      }
      var head: string := *;
      var pr := PullRequest(nextNumber, source, target, Open, [], Some(head), Unknown);
      prs := prs[nextNumber := pr];
      nextNumber := nextNumber + 1;
      log := log + [Created(source, pr.number)];
      return Some(pr);
    }

    method UpdateBody(n: nat) returns (ok: bool)
      requires Valid()
      modifies this`prs, this`nextNumber, this`log
      ensures Valid() && Moves(old(prs), prs)
      ensures log == old(log) + if ok then [BodyUpdated(n)] else []
      ensures quiet ==> ok && prs == old(prs)
    {
      Environment();
      ok := *;
      ok := ok || quiet;
      if ok {
        log := log + [BodyUpdated(n)];
      }
    }

    method GetPullRequest(n: nat) returns (r: Option<PullRequest>)
      requires Valid()
      modifies this`prs, this`nextNumber
      ensures Valid() && Moves(old(prs), prs)
      ensures r.Some? ==> n in prs && prs[n] == r.value
      ensures quiet ==> prs == old(prs) && (n in prs ==> r.Some?)
    {
      Environment();
      var fails: bool := *;
      if (fails && !quiet) || n !in prs {
        return None;
      }
      return Some(prs[n]);
    }

    method PollChecks(n: nat) returns (r: Option<seq<Check>>)
      requires Valid()
      modifies this`prs, this`nextNumber, this`log
      ensures Valid() && Moves(old(prs), prs) && log == old(log) + [Polled(r)]
      ensures quiet ==> prs == old(prs) && (n in prs ==> r == Some(prs[n].checks))
    {
      Environment();
      var fails: bool := *;
      r := if fails && !quiet then None else if n in prs then Some(prs[n].checks) else Some([]);
      log := log + [Polled(r)];
    }

    /** The refresh of the head the merge is bound to; "" when the pull request has none. */
    method ReadMergeHead(n: nat) returns (r: Option<string>)
      requires Valid()
      modifies this`prs, this`nextNumber, this`log
      ensures Valid() && Moves(old(prs), prs)
      ensures log == old(log) + if r.Some? then [HeadRead(r.value)] else []
      ensures quiet ==> prs == old(prs) && (n in prs ==> r == Some(HeadOf(prs[n])))
    {
      var pr := GetPullRequest(n);
      if pr.None? {
        return None;
      }
      var head := HeadOf(pr.value);
      log := log + [HeadRead(head)];
      return Some(head);
    }

    /** Merges behind the required checks and the expected head, if any; a refusal changes nothing. */
    method Merge(n: nat, expectedHead: string, required: seq<string>) returns (r: MergeOutcome)
      requires Valid()
      modifies this`prs, this`nextNumber, this`log
      ensures Valid()
      ensures exists before :: log == old(log) + [MergeCalled(n, expectedHead, before, r)]
                            && (n in old(prs) ==> before == Some(old(prs)[n].state))
      ensures r.MergeFailed? ==> Moves(old(prs), prs)
      ensures r.MergeDone? ==>
                && n in prs && prs[n].state.Merged? && (expectedHead != "" ==> prs[n].headSha == Some(expectedHead))
                && AllPassed(required, prs[n].checks)
                && (n in old(prs) ==> Moves(old(prs)[n := old(prs)[n].(state := Merged)], prs))
      ensures quiet && n in old(prs) && AllPassed(required, old(prs)[n].checks) ==>
                old(prs)[n].headSha == Some(expectedHead) ==> r.MergeDone?
    {
      Environment();
      var conflict: bool := *;
      var fails: bool := *;
      if (fails && !quiet) || n !in prs || !AllPassed(required, prs[n].checks)
         || (expectedHead != "" && prs[n].headSha != Some(expectedHead)) {
        r := MergeFailed(conflict);
      } else {
        r := MergeDone;
      }
      log := log + [MergeCalled(n, expectedHead, if n in prs then Some(prs[n].state) else None, r)];
      if r.MergeDone? {
        prs := prs[n := prs[n].(state := Merged)];
      }
    }

    /** Merging the base branch into the worktree's branch and pushing it. */
    method MergeBaseIntoBranch() returns (r: BaseMergeOutcome)
      requires Valid()
      modifies this`prs, this`nextNumber, this`log
      ensures Valid() && Moves(old(prs), prs) && log == old(log) + [BaseMergeTried]
      ensures quiet ==> r.BaseMerged? && prs == old(prs)
    {
      Environment();
      log := log + [BaseMergeTried];
      r := *;
      r := if quiet then BaseMerged else r;
    }

    /** Confirms only what is merged; it may fail, and it may fail to confirm. */
    method VerifyMerged(n: nat) returns (r: Option<bool>)
      requires Valid()
      modifies this`prs, this`nextNumber, this`log
      ensures Valid() && Moves(old(prs), prs)
      ensures r == Some(true) ==> n in prs && prs[n].state.Merged?
      ensures log == old(log) + if r == Some(true) then [Verified(n)] else []
      ensures quiet && n in old(prs) && old(prs)[n].state.Merged? ==> r == Some(true)
    {
      Environment();
      r := *;
      r := if quiet then Some(true) else r;
      if r == Some(true) {
        if n in prs && prs[n].state.Merged? {
          log := log + [Verified(n)];
        } else {
          r := Some(false);
        }
      }
    }

    method CompleteTrackerTask(task: TaskId) returns (ok: bool)
      requires Valid()
      modifies this`completedTasks, this`log
      ensures Valid() && log == old(log) + if ok then [TrackerCompleted(task)] else []
      ensures quiet ==> ok
      ensures completedTasks == old(completedTasks) + if ok then {task} else {}
    {
      ok := *;
      ok := ok || quiet;
      if ok {
        completedTasks := completedTasks + {task};
        log := log + [TrackerCompleted(task)];
      }
    }

    method DeleteBranch(branch: string) returns (ok: bool)
      requires Valid()
      modifies this`log
      ensures Valid() && log == old(log) + if ok then [BranchDeleted(branch)] else []
      ensures quiet ==> ok
    {
      ok := *;
      ok := ok || quiet;
      if ok {
        log := log + [BranchDeleted(branch)];
      }
    }

    method ReleaseWorktree(task: TaskId) returns (ok: bool)
      requires Valid()
      modifies this`log
      ensures Valid() && log == old(log) + if ok then [WorktreeReleased(task)] else []
      ensures quiet ==> ok
    {
      ok := *;
      ok := ok || quiet;
      if ok {
        log := log + [WorktreeReleased(task)];
      }
    }
  }
}
