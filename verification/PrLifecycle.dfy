/**
 * The pull-request lifecycle: gates on the workflow result, creating or reusing the pull
 * request, the bounded merge loop, verified merge, tracker completion and cleanup.
 */
module PrLifecycle {
  import opened Identifiers
  import opened LifecycleServices

  datatype ProofStatus = ProofPassed | ProofFailed | ProofBlocked

  datatype Proof = Proof(profileId: string, status: ProofStatus, evidenceRefs: seq<string>)

  /** `bodyLength` is the length of the rendered pull-request body. */
  datatype WorkflowResult = WorkflowResult(
    taskId: TaskId, summary: string, testsPassed: bool, reviewPassed: bool, commits: seq<string>,
    evidenceRefs: seq<string>, verificationResults: seq<Proof>, worktreeClean: Option<bool>,
    noCodeOutcome: bool, bodyLength: nat)

  datatype Options = Options(
    sourceBranch: string, targetBranch: string, requiredChecks: seq<string>, autoMerge: bool,
    requiredProfiles: seq<string>, deleteHeadBranch: bool, hasWorktree: bool, externalFixPolls: Option<int>,
    hasRelease: bool, isSafeRef: string -> bool)

  datatype LifecycleState =
    | ChecksFailed | PrFailed | MergeRefused | MergeConflict | MergedState | TrackerCloseFailed
    | VerificationFailed | WorkflowInvalid | MergeVerificationFailed | WorktreeReleaseFailed
    | AwaitingApproval | NoCodeOutcome

  datatype LifecycleResult = LifecycleResult(
    pullRequest: Option<nat>, merged: bool, trackerClosed: bool, worktreeReleased: bool, state: LifecycleState)

  function Stopped(pr: Option<nat>, state: LifecycleState): LifecycleResult {
    LifecycleResult(pr, false, false, false, state)
  }

  // ---- Verification proofs ----

  ghost predicate LatestProof(proofs: seq<Proof>, profile: string, k: nat) {
    && k < |proofs| && proofs[k].profileId == profile
    && forall j :: k < j < |proofs| ==> proofs[j].profileId != profile
  }

  function EvidenceCount(proofs: seq<Proof>): nat {
    if proofs == [] then 0
    else EvidenceCount(proofs[..|proofs| - 1]) + |proofs[|proofs| - 1].evidenceRefs|
  }

  ghost predicate RefsSafe(o: Options, refs: seq<string>) {
    forall ref :: ref in refs ==> o.isSafeRef(ref)
  }

  /** Every required profile is named and its latest proof passed with evidence. */
  ghost predicate ProfileProved(w: WorkflowResult, profile: string) {
    && !IsBlank(profile)
    && exists k: nat :: LatestProof(w.verificationResults, profile, k)
                && w.verificationResults[k].status.ProofPassed?
                && w.verificationResults[k].evidenceRefs != []
  }

  ghost predicate ProofsValid(w: WorkflowResult, o: Options) {
    && |w.verificationResults| <= 50
    && (forall p :: p in w.verificationResults ==> !IsBlank(p.profileId) && RefsSafe(o, p.evidenceRefs))
    && |w.evidenceRefs| + EvidenceCount(w.verificationResults) <= 100
    && (forall profile :: profile in o.requiredProfiles ==> ProfileProved(w, profile))
    && RefsSafe(o, w.evidenceRefs)
  }

  lemma LatestUnique(proofs: seq<Proof>, profile: string)
    ensures forall j: nat, k: nat :: LatestProof(proofs, profile, j) && LatestProof(proofs, profile, k) ==> j == k
  {
  }

  method AllSafe(o: Options, refs: seq<string>) returns (ok: bool)
    ensures ok <==> RefsSafe(o, refs)
  {
    for i := 0 to |refs|
      invariant forall j :: 0 <= j < i ==> o.isSafeRef(refs[j])
    {
      if !o.isSafeRef(refs[i]) {
        return false;
      }
    }
    return true;
  }

  method FindLatest(proofs: seq<Proof>, profile: string) returns (k: Option<nat>)
    ensures k.Some? ==> LatestProof(proofs, profile, k.value)
    ensures k.None? ==> forall j: nat :: !LatestProof(proofs, profile, j)
  {
    for i := |proofs| downto 0
      invariant forall j :: i <= j < |proofs| ==> proofs[j].profileId != profile
    {
      if proofs[i].profileId == profile {
        return Some(i);
      }
    }
    return None;
  }

  /** Returns whether the proofs are in order; the program returns the first problem's text instead of false. */
  method ValidateVerificationProofs(w: WorkflowResult, o: Options) returns (ok: bool)
    ensures ok <==> ProofsValid(w, o)
  {
    var proofs := w.verificationResults;
    if |proofs| > 50 {
      return false;
    }
    var evidenceCount := |w.evidenceRefs|;
    for i := 0 to |proofs|
      invariant evidenceCount == |w.evidenceRefs| + EvidenceCount(proofs[..i])
      invariant forall j :: 0 <= j < i ==> !IsBlank(proofs[j].profileId) && RefsSafe(o, proofs[j].evidenceRefs)
    {
      if IsBlank(proofs[i].profileId) {
        return false;
      }
      assert proofs[..i + 1][..i] == proofs[..i];
      evidenceCount := evidenceCount + |proofs[i].evidenceRefs|;
      var safe := AllSafe(o, proofs[i].evidenceRefs);
      if !safe {
        return false;
      }
    }
    assert proofs[..|proofs|] == proofs;
    if evidenceCount > 100 {
      return false;
    }
    for i := 0 to |o.requiredProfiles|
      invariant forall j :: 0 <= j < i ==> ProfileProved(w, o.requiredProfiles[j])
    {
      var profile := o.requiredProfiles[i];
      if IsBlank(profile) {
        assert !ProfileProved(w, profile);
        return false;
      }
      var k := FindLatest(proofs, profile);
      if k.None? || !proofs[k.value].status.ProofPassed? || proofs[k.value].evidenceRefs == [] {
        LatestUnique(proofs, profile);
        assert !ProfileProved(w, profile);
        return false;
      }
    }
    ok := AllSafe(o, w.evidenceRefs);
  }

  // ---- The gates in front of the pull request ----

  ghost predicate GatesPass(w: WorkflowResult, o: Options) {
    && !IsBlank(w.summary) && w.testsPassed && w.reviewPassed && w.worktreeClean != Some(false)
    && ProofsValid(w, o)
  }

  /** What a result with code must look like before a pull request is touched. */
  ghost predicate CodeReady(w: WorkflowResult, o: Options) {
    && w.commits != [] && (forall c :: c in w.commits ==> !IsBlank(c))
    && !IsBlank(o.sourceBranch) && !IsBlank(o.targetBranch) && o.sourceBranch != o.targetBranch
    && w.bodyLength <= 60000
  }

  /** The first gate that stops the result, as the state the run ends in. */
  method CheckGates(w: WorkflowResult, o: Options) returns (failure: Option<LifecycleState>)
    ensures failure.None? <==> GatesPass(w, o)
    ensures failure == Some(ChecksFailed) <==> !IsBlank(w.summary) && !w.testsPassed
    ensures failure == Some(WorkflowInvalid) <==>
              IsBlank(w.summary) || (w.testsPassed && !(w.reviewPassed && w.worktreeClean != Some(false)))
    ensures failure == Some(VerificationFailed) <==>
              && !IsBlank(w.summary) && w.testsPassed && w.reviewPassed && w.worktreeClean != Some(false)
              && !ProofsValid(w, o)
  {
    if IsBlank(w.summary) {
      return Some(WorkflowInvalid);
    }
    if !w.testsPassed {
      return Some(ChecksFailed);
    }
    if !w.reviewPassed || w.worktreeClean == Some(false) {
      return Some(WorkflowInvalid);
    }
    var proved := ValidateVerificationProofs(w, o);
    return if proved then None else Some(VerificationFailed);
  }

  method CheckCode(w: WorkflowResult, o: Options) returns (failure: Option<LifecycleState>)
    ensures failure.None? <==> CodeReady(w, o)
    ensures failure == Some(ChecksFailed) <==> w.commits == []
    ensures failure == Some(WorkflowInvalid) <==> w.commits != [] && !CodeReady(w, o)
  {
    if w.commits == [] {
      return Some(ChecksFailed);
    }
    if exists c :: c in w.commits && IsBlank(c) {
      return Some(WorkflowInvalid);
    }
    if IsBlank(o.sourceBranch) || IsBlank(o.targetBranch) || o.sourceBranch == o.targetBranch || w.bodyLength > 60000 {
      return Some(WorkflowInvalid);
    }
    return None;
  }

  // ---- Shapes of the log of one run ----

  /** The effects one pass of the merge loop may have. */
  ghost predicate AttemptShape(seg: seq<Effect>, pr: nat, required: seq<string>) {
    || seg == []
    || seg == [BaseMergeTried]
    || (|seg| == 1 && seg[0].Polled?)
    || (|seg| == 2 && seg[0].Polled? && seg[1].HeadRead?)
    || ((|seg| == 3 || (|seg| == 4 && seg[3].BaseMergeTried?)) && MergeAt(seg, 2, pr, required))
  }

  /** A merge call right after reading its head, right after a poll in which every required check passed. */
  ghost predicate MergeAt(seg: seq<Effect>, i: int, pr: nat, required: seq<string>) {
    && 2 <= i < |seg| && required != []
    && seg[i - 2].Polled? && seg[i - 2].checks.Some? && AllPassed(required, seg[i - 2].checks.value)
    && seg[i - 1].HeadRead? && seg[i - 1].head != ""
    && seg[i].MergeCalled? && seg[i].pr == pr && seg[i].head == seg[i - 1].head && seg[i].before == Some(Open)
  }

  /** What follows a poll in which every required check passed. */
  ghost predicate MergeShape(seg: seq<Effect>, pr: nat) {
    || seg == []
    || (|seg| == 1 && seg[0].HeadRead?)
    || ((|seg| == 2 || (|seg| == 3 && seg[2].BaseMergeTried?))
        && seg[0].HeadRead? && seg[0].head != ""
        && seg[1].MergeCalled? && seg[1].pr == pr && seg[1].head == seg[0].head && seg[1].before == Some(Open))
  }

  /** Missing from the report, or reported as not finished yet. */
  predicate Pending(checks: seq<Check>, name: string) {
    || (forall i :: 0 <= i < |checks| ==> checks[i].name != name)
    || (exists i :: 0 <= i < |checks| && checks[i].name == name
                 && (checks[i].status.QueuedCheck? || checks[i].status.RunningCheck?)
                 && forall j :: 0 <= j < i ==> checks[j].name != name)
  }

  /**
   * The reasons for another attempt: the base was merged into the branch, or checks failed while the
   * head moved since the last failure or some check is still pending. `next` is the head to compare with.
   */
  ghost predicate RetryJustified(seg: seq<Effect>, required: seq<string>, last: Option<string>, next: Option<string>) {
    || (seg == [BaseMergeTried] && next == last)
    || (|seg| == 4 && seg[3].BaseMergeTried? && next.None?)
    || (|seg| == 1 && seg[0].Polled? && seg[0].checks.Some? && !AllPassed(required, seg[0].checks.value)
        && next.Some? && (next != last || exists name :: name in required && Pending(seg[0].checks.value, name)))
  }

  /**
   * The reason a pass ends the run in `state`: a conflict that no base merge resolved, a poll that failed
   * or left a required check unpassed, a head that could not be read, or a refused merge.
   */
  ghost predicate StopJustified(seg: seq<Effect>, required: seq<string>, state: LifecycleState) {
    if seg == [] || seg[|seg| - 1].BaseMergeTried? then state.MergeConflict?
    else if |seg| == 1 then
      && seg[0].Polled?
      && state == if seg[0].checks.Some? && AllPassed(required, seg[0].checks.value) then MergeRefused else ChecksFailed
    else if |seg| == 2 then state.MergeRefused?
    else |seg| == 3 && seg[2].MergeCalled? && seg[2].outcome.MergeFailed?
         && state == if seg[2].outcome.conflict then MergeConflict else MergeRefused
  }

  /** The reason a pass ends the run after a poll in which every required check passed. */
  ghost predicate RefusalJustified(seg: seq<Effect>, state: LifecycleState) {
    if |seg| < 2 then state.MergeRefused?
    else if |seg| == 2 then
      && seg[1].MergeCalled? && seg[1].outcome.MergeFailed?
      && state == if seg[1].outcome.conflict then MergeConflict else MergeRefused
    else |seg| == 3 && seg[2].BaseMergeTried? && state.MergeConflict?
  }

  predicate InLoop(e: Effect) {
    e.Polled? || e.HeadRead? || e.MergeCalled? || e.BaseMergeTried?
  }

  /** How a run gets hold of its pull request: it creates it, or brings the body of an open one up to date. */
  predicate IsOpening(e: Effect) {
    e.Created? || e.BodyUpdated?
  }

  predicate NamesPr(e: Effect) {
    IsOpening(e) || e.MergeCalled? || e.Verified?
  }

  ghost predicate LoopShape(seg: seq<Effect>, pr: nat, required: seq<string>) {
    && (forall e :: e in seg ==> InLoop(e))
    && forall i :: 0 <= i < |seg| && seg[i].MergeCalled? ==> MergeAt(seg, i, pr, required)
  }

  ghost function Count(seg: seq<Effect>, p: Effect -> bool): nat {
    if seg == [] then 0 else Count(seg[..|seg| - 1], p) + if p(seg[|seg| - 1]) then 1 else 0
  }

  lemma {:induction false} CountSplits(a: seq<Effect>, b: seq<Effect>, p: Effect -> bool)
    ensures Count(a + b, p) == Count(a, p) + Count(b, p)
  {
    if b == [] {
      assert a + b == a;
    } else {
      assert (a + b)[..|a + b| - 1] == a + b[..|b| - 1];
      CountSplits(a, b[..|b| - 1], p);
    }
  }

  lemma CountShort(seg: seq<Effect>, p: Effect -> bool)
    requires |seg| <= 4
    ensures Count(seg, p) == (if |seg| > 0 && p(seg[0]) then 1 else 0) + (if |seg| > 1 && p(seg[1]) then 1 else 0)
                             + (if |seg| > 2 && p(seg[2]) then 1 else 0) + (if |seg| > 3 && p(seg[3]) then 1 else 0)
  {
    if |seg| > 0 { assert seg == seg[..1] + seg[1..]; assert Count(seg[..0], p) == 0; }
    if |seg| > 1 { assert seg[..2][..1] == seg[..1]; }
    if |seg| > 2 { assert seg[..3][..2] == seg[..2]; }
    if |seg| > 3 { assert seg[..4][..3] == seg[..3]; }
    assert seg[..|seg|] == seg;
    assert |seg| > 0 ==> Count(seg[..1], p) == Count(seg[..1][..0], p) + if p(seg[0]) then 1 else 0;
  }

  const IS_POLL := (e: Effect) => e.Polled?
  const IS_MERGE := (e: Effect) => e.MergeCalled?
  const IS_BASE_MERGE := (e: Effect) => e.BaseMergeTried?

  /** At most `polls` check polls and merge calls, and `bases` automatic base merges. */
  ghost predicate Bounded(seg: seq<Effect>, polls: int, bases: int) {
    && Count(seg, IS_POLL) <= polls && Count(seg, IS_MERGE) <= polls && Count(seg, IS_BASE_MERGE) <= bases
  }

  lemma AttemptAppends(seg: seq<Effect>, more: seq<Effect>, pr: nat, required: seq<string>, polls: int, bases: int)
    requires LoopShape(seg, pr, required) && Bounded(seg, polls, bases)
    requires AttemptShape(more, pr, required)
    ensures LoopShape(seg + more, pr, required)
    ensures Bounded(seg + more, polls + 1, bases + 1)
    ensures BaseMergeTried !in more ==> Bounded(seg + more, polls + 1, bases)
  {
    CountSplits(seg, more, IS_POLL);
    CountSplits(seg, more, IS_MERGE);
    CountSplits(seg, more, IS_BASE_MERGE);
    CountShort(more, IS_POLL);
    CountShort(more, IS_MERGE);
    CountShort(more, IS_BASE_MERGE);
    var all: seq<Effect> := seg + more;
    forall i | 0 <= i < |all| && all[i].MergeCalled?
      ensures MergeAt(all, i, pr, required)
    {
      if i < |seg| {
        assert MergeAt(seg, i, pr, required);
      } else {
        assert MergeAt(more, i - |seg|, pr, required);
      }
    }
  }

  /** After the loop: verification, tracker completion, then cleanup, each only if the one before succeeded. */
  ghost predicate FinishShape(seg: seq<Effect>, w: WorkflowResult, o: Options, pr: nat, r: LifecycleResult) {
    || (seg == [] && r == Stopped(Some(pr), MergeVerificationFailed))
    || (seg == [Verified(pr)] && r == LifecycleResult(Some(pr), true, false, false, TrackerCloseFailed))
    || exists deleted, released ::
         && (released ==> o.hasRelease) && (deleted ==> o.deleteHeadBranch)
         && seg == [Verified(pr), TrackerCompleted(w.taskId)] + Cleanup(w, o, deleted, released)
         && r == LifecycleResult(Some(pr), true, true, released,
                                 if o.hasRelease && !released then WorktreeReleaseFailed else MergedState)
  }

  function Cleanup(w: WorkflowResult, o: Options, deleted: bool, released: bool): seq<Effect> {
    (if deleted then [BranchDeleted(o.sourceBranch)] else [])
    + (if released then [WorktreeReleased(w.taskId)] else [])
  }

  /** A result without code: tracker completion, then the release. */
  ghost predicate NoCodeShape(seg: seq<Effect>, w: WorkflowResult, o: Options, r: LifecycleResult) {
    || (seg == [] && r == Stopped(None, TrackerCloseFailed))
    || (!o.hasRelease && seg == [TrackerCompleted(w.taskId)]
        && r == LifecycleResult(None, false, true, false, NoCodeOutcome))
    || (o.hasRelease && seg == [TrackerCompleted(w.taskId)]
        && r == LifecycleResult(None, false, true, false, WorktreeReleaseFailed))
    || (o.hasRelease && seg == [TrackerCompleted(w.taskId), WorktreeReleased(w.taskId)]
        && r == LifecycleResult(None, false, true, true, NoCodeOutcome))
  }

  // ---- What every run guarantees ----

  ghost predicate VerifiedBefore(seg: seq<Effect>, i: nat) {
    exists j :: 0 <= j < i <= |seg| && seg[j].Verified?
  }

  /**
   * The tracker is completed only behind the gates; only the source branch is deleted, and only the
   * task's worktree released, each if asked for and behind the tracker.
   */
  ghost predicate CompletionOrder(seg: seq<Effect>, w: WorkflowResult, o: Options) {
    forall i :: 0 <= i < |seg| ==> InOrder(seg, i, w, o)
  }

  ghost predicate InOrder(seg: seq<Effect>, i: nat, w: WorkflowResult, o: Options)
    requires i < |seg|
  {
    match seg[i]
    case TrackerCompleted(task) =>
      && task == w.taskId && GatesPass(w, o)
      && ((w.noCodeOutcome && w.commits == []) || (CodeReady(w, o) && VerifiedBefore(seg, i)))
    case BranchDeleted(branch) =>
      branch == o.sourceBranch && o.deleteHeadBranch && TrackerCompleted(w.taskId) in seg[..i]
    case WorktreeReleased(task) =>
      task == w.taskId && o.hasRelease && TrackerCompleted(w.taskId) in seg[..i]
    case _ => true
  }

  /** Merging happens only with auto-merge on, behind the gates, each call bound to a fully passed poll. */
  ghost predicate MergeDiscipline(seg: seq<Effect>, w: WorkflowResult, o: Options) {
    forall i :: 0 <= i < |seg| && seg[i].MergeCalled? ==>
      && MergeAt(seg, i, seg[i].pr, o.requiredChecks)
      && o.autoMerge && GatesPass(w, o) && CodeReady(w, o) && !w.noCodeOutcome
  }

  /** Everything created, merged or verified is the pull request the result reports. */
  ghost predicate OnlyReported(seg: seq<Effect>, r: LifecycleResult) {
    forall e :: e in seg && NamesPr(e) ==> r.pullRequest == Some(e.pr)
  }

  ghost predicate ResultMatches(seg: seq<Effect>, o: Options, w: WorkflowResult, r: LifecycleResult) {
    && OnlyReported(seg, r)
    && (r.merged <==> r.pullRequest.Some? && Verified(r.pullRequest.value) in seg)
    && (r.trackerClosed <==> TrackerCompleted(w.taskId) in seg)
    && (r.worktreeReleased <==> WorktreeReleased(w.taskId) in seg)
    && (r.state in {MergedState, NoCodeOutcome} <==> r.trackerClosed && (o.hasRelease ==> r.worktreeReleased))
    && (r.state.MergedState? ==> r.merged)
    && (r.merged && !r.trackerClosed ==> r.state.TrackerCloseFailed?)
    && (r.state.TrackerCloseFailed? ==> !r.trackerClosed && (r.merged || w.noCodeOutcome))
    && (r.state.WorktreeReleaseFailed? <==> r.trackerClosed && o.hasRelease && !r.worktreeReleased)
    && (r.state.NoCodeOutcome? ==> w.noCodeOutcome && !r.merged)
    && (r.state.AwaitingApproval? ==> !o.autoMerge && !r.merged && !r.trackerClosed && r.pullRequest.Some?)
  }

  ghost predicate RunGuarantee(seg: seq<Effect>, w: WorkflowResult, o: Options, r: LifecycleResult) {
    && CompletionOrder(seg, w, o) && MergeDiscipline(seg, w, o)
    && Bounded(seg, MaxAttempts(o), MaxAttempts(o) - 1)
    && ResultMatches(seg, o, w, r)
  }

  lemma NothingDone(w: WorkflowResult, o: Options, r: LifecycleResult, seg: seq<Effect>)
    requires r == Stopped(r.pullRequest, r.state)
    requires r.state !in {MergedState, NoCodeOutcome, TrackerCloseFailed, WorktreeReleaseFailed}
    requires r.state.AwaitingApproval? ==> !o.autoMerge && r.pullRequest.Some?
    requires seg == [] || (|seg| == 1 && IsOpening(seg[0]) && r.pullRequest == Some(seg[0].pr))
    ensures RunGuarantee(seg, w, o, r)
  {
    CountShort(seg, IS_POLL);
    CountShort(seg, IS_MERGE);
    CountShort(seg, IS_BASE_MERGE);
  }

  lemma NoCodeGuarantee(w: WorkflowResult, o: Options, r: LifecycleResult, seg: seq<Effect>)
    requires GatesPass(w, o) && w.noCodeOutcome && w.commits == [] && NoCodeShape(seg, w, o, r)
    ensures RunGuarantee(seg, w, o, r)
  {
    CountShort(seg, IS_POLL);
    CountShort(seg, IS_MERGE);
    CountShort(seg, IS_BASE_MERGE);
    if |seg| > 0 {
      assert TrackerCompleted(w.taskId) in seg;
      assert |seg| == 2 ==> seg[..1][0] == TrackerCompleted(w.taskId);
    }
  }

  /** A prefix without completion effects changes none of the guarantees of what follows it. */
  lemma PrefixKeeps(tail: seq<Effect>, pr: nat, w: WorkflowResult, o: Options, r: LifecycleResult,
                    created: seq<Effect>, loop: seq<Effect>)
    requires created == [] || (|created| == 1 && IsOpening(created[0]))
    requires LoopShape(loop, pr, o.requiredChecks) && Bounded(loop, MaxAttempts(o), MaxAttempts(o) - 1)
    requires GatesPass(w, o) && CodeReady(w, o) && !w.noCodeOutcome
    requires loop != [] ==> o.autoMerge
    requires CompletionOrder(tail, w, o) && ResultMatches(tail, o, w, r)
    requires forall e :: e in tail ==> !InLoop(e)
    requires r.pullRequest == Some(pr) && (created == [] || created[0].pr == pr)
    ensures RunGuarantee(created + loop + tail, w, o, r)
  {
    LoopOnly(loop, pr, o.requiredChecks);
    CountsOfParts(created, loop, tail, IS_POLL);
    CountsOfParts(created, loop, tail, IS_MERGE);
    CountsOfParts(created, loop, tail, IS_BASE_MERGE);
    PrefixKeepsDiscipline(created, loop, tail, pr, w, o);
    PrefixKeepsOrder(created + loop, tail, w, o);
    PrefixKeepsResult(created + loop, tail, w, o, r);
  }

  lemma PrefixKeepsDiscipline(created: seq<Effect>, loop: seq<Effect>, tail: seq<Effect>, pr: nat, w: WorkflowResult,
                              o: Options)
    requires created == [] || (|created| == 1 && IsOpening(created[0]))
    requires LoopShape(loop, pr, o.requiredChecks) && forall e :: e in tail ==> !InLoop(e)
    requires GatesPass(w, o) && CodeReady(w, o) && !w.noCodeOutcome && (loop != [] ==> o.autoMerge)
    ensures MergeDiscipline(created + loop + tail, w, o)
  {
    var all: seq<Effect> := created + loop + tail;
    assert forall k :: |created| + |loop| <= k < |all| ==> all[k] in tail;
    forall i | 0 <= i < |all| && all[i].MergeCalled?
      ensures MergeAt(all, i, all[i].pr, o.requiredChecks) && o.autoMerge
    {
      assert MergeAt(loop, i - |created|, pr, o.requiredChecks);
    }
  }

  lemma PrefixKeepsResult(head: seq<Effect>, tail: seq<Effect>, w: WorkflowResult, o: Options, r: LifecycleResult)
    requires forall e :: e in head ==> InLoop(e) || IsOpening(e)
    requires ResultMatches(tail, o, w, r) && OnlyReported(head, r)
    ensures ResultMatches(head + tail, o, w, r)
  {
    assert forall e :: e in head + tail <==> e in head || e in tail;
  }

  lemma PrefixKeepsOrder(head: seq<Effect>, tail: seq<Effect>, w: WorkflowResult, o: Options)
    requires forall e :: e in head ==> InLoop(e) || IsOpening(e)
    requires CompletionOrder(tail, w, o)
    ensures CompletionOrder(head + tail, w, o)
  {
    var all: seq<Effect> := head + tail;
    forall i | 0 <= i < |all|
      ensures InOrder(all, i, w, o)
    {
      if i < |head| {
        assert all[i] in head;
      } else {
        var k := i - |head|;
        assert all[..i] == head + tail[..k];
        assert all[i] == tail[k] && InOrder(tail, k, w, o);
        if VerifiedBefore(tail, k) {
          var j :| 0 <= j < k <= |tail| && tail[j].Verified?;
          assert all[|head| + j].Verified?;
        }
      }
    }
  }

  /** The loop merges only its own pull request. */
  lemma LoopOnly(loop: seq<Effect>, pr: nat, required: seq<string>)
    requires LoopShape(loop, pr, required)
    ensures forall e :: e in loop && NamesPr(e) ==> e.pr == pr
    ensures forall e :: e in loop ==> !IsOpening(e)
  {
    forall e | e in loop
      ensures !IsOpening(e) && !e.Verified? && (e.MergeCalled? ==> e.pr == pr)
    {
      assert InLoop(e);
      var i :| 0 <= i < |loop| && loop[i] == e;
      assert e.MergeCalled? ==> MergeAt(loop, i, pr, required);
    }
  }

  lemma CountsOfParts(created: seq<Effect>, loop: seq<Effect>, tail: seq<Effect>, p: Effect -> bool)
    requires |created| <= 1 && forall e :: e in created || e in tail ==> !p(e)
    ensures Count(created + loop + tail, p) == Count(loop, p)
  {
    CountSplits(created + loop, tail, p);
    CountSplits(created, loop, p);
    CountNone(created, p);
    CountNone(tail, p);
  }

  lemma {:induction false} CountNone(seg: seq<Effect>, p: Effect -> bool)
    requires forall e :: e in seg ==> !p(e)
    ensures Count(seg, p) == 0
  {
    if seg != [] {
      CountNone(seg[..|seg| - 1], p);
    }
  }

  lemma FinishGuarantee(seg: seq<Effect>, w: WorkflowResult, o: Options, pr: nat, r: LifecycleResult)
    requires GatesPass(w, o) && CodeReady(w, o) && !w.noCodeOutcome && FinishShape(seg, w, o, pr, r)
    ensures CompletionOrder(seg, w, o) && ResultMatches(seg, o, w, r)
    ensures forall e :: e in seg ==> !InLoop(e)
  {
    if |seg| >= 2 {
      var deleted, released :|
        && (released ==> o.hasRelease) && (deleted ==> o.deleteHeadBranch)
        && seg == [Verified(pr), TrackerCompleted(w.taskId)] + Cleanup(w, o, deleted, released)
        && r == LifecycleResult(Some(pr), true, true, released,
                                if o.hasRelease && !released then WorktreeReleaseFailed else MergedState);
      CleanupGuarantee(seg, w, o, pr, deleted, released);
    } else if |seg| == 1 {
      assert seg[0] == Verified(pr);
    }
  }

  /** The segment of a finish that completed the tracker: what it holds, and in which order. */
  lemma CleanupGuarantee(seg: seq<Effect>, w: WorkflowResult, o: Options, pr: nat, deleted: bool, released: bool)
    requires GatesPass(w, o) && CodeReady(w, o) && (deleted ==> o.deleteHeadBranch) && (released ==> o.hasRelease)
    requires seg == [Verified(pr), TrackerCompleted(w.taskId)] + Cleanup(w, o, deleted, released)
    ensures CompletionOrder(seg, w, o)
    ensures Verified(pr) in seg && TrackerCompleted(w.taskId) in seg
    ensures released <==> WorktreeReleased(w.taskId) in seg
    ensures forall e :: e in seg ==> !InLoop(e) && !IsOpening(e) && (e.Verified? ==> e.pr == pr)
  {
    assert seg[0] == Verified(pr) && seg[1] == TrackerCompleted(w.taskId);
    assert VerifiedBefore(seg, 1);
    forall i | 0 <= i < |seg|
      ensures InOrder(seg, i, w, o)
    {
      assert i >= 2 ==> seg[..i][1] == TrackerCompleted(w.taskId);
    }
    if released {
      assert seg[|seg| - 1] == WorktreeReleased(w.taskId);
    }
  }

  /** How the part after the creation ends: stopped in the loop, or finished after it. */
  ghost predicate LoopEnd(loop: seq<Effect>, tail: seq<Effect>, pr: nat, w: WorkflowResult, o: Options,
                          r: LifecycleResult)
  {
    && LoopShape(loop, pr, o.requiredChecks) && Bounded(loop, MaxAttempts(o), MaxAttempts(o) - 1)
    && (loop != [] ==> o.autoMerge)
    && (FinishShape(tail, w, o, pr, r) ||
        (tail == [] && o.autoMerge && StoppedInLoop(r, pr)))
  }

  /** The phases of a run that got hold of pull request `pr`. */
  ghost predicate PhasesOn(pr: nat, created: seq<Effect>, loop: seq<Effect>, tail: seq<Effect>, w: WorkflowResult,
                           o: Options, r: LifecycleResult)
  {
    && (created == [] || created == [Created(o.sourceBranch, pr)] || created == [BodyUpdated(pr)])
    && (LoopEnd(loop, tail, pr, w, o, r) ||
        (loop == tail == [] && r == Stopped(Some(pr), r.state)
         && exists state :: StopBeforeMerging(o, state) == Some(r.state)))
  }

  ghost predicate Phases(created: seq<Effect>, loop: seq<Effect>, tail: seq<Effect>, w: WorkflowResult, o: Options,
                         r: LifecycleResult)
  {
    || (created == loop == tail == [] && r == Stopped(None, PrFailed))
    || (r.pullRequest.Some? && PhasesOn(r.pullRequest.value, created, loop, tail, w, o, r))
  }

  lemma PhasesGuarantee(created: seq<Effect>, loop: seq<Effect>, tail: seq<Effect>, w: WorkflowResult, o: Options,
                        r: LifecycleResult)
    requires GatesPass(w, o) && CodeReady(w, o) && !w.noCodeOutcome && Phases(created, loop, tail, w, o, r)
    ensures RunGuarantee(created + (loop + tail), w, o, r)
  {
    assert created + loop + tail == created + (loop + tail);
    if r.pullRequest.Some? && LoopEnd(loop, tail, r.pullRequest.value, w, o, r) {
      var pr := r.pullRequest.value;
      if FinishShape(tail, w, o, pr, r) {
        FinishGuarantee(tail, w, o, pr, r);
      }
      PrefixKeeps(tail, pr, w, o, r, created, loop);
    } else {
      assert created + (loop + tail) == created;
      NothingDone(w, o, r, created);
    }
  }

  // ---- Whose pull request a run touches ----

  /** Pull requests stay, and keep their branches. */
  ghost predicate BranchesKept(before: map<nat, PullRequest>, after: map<nat, PullRequest>) {
    forall n :: n in before ==> n in after && after[n].source == before[n].source && after[n].target == before[n].target
  }

  /** Everything created, merged or verified is a pull request of this branch. */
  ghost predicate OnBranch(seg: seq<Effect>, prs: map<nat, PullRequest>, source: string) {
    forall e :: e in seg && NamesPr(e) ==> e.pr in prs && prs[e.pr].source == source
  }

  lemma OnBranchKept(seg: seq<Effect>, before: map<nat, PullRequest>, after: map<nat, PullRequest>, source: string)
    requires OnBranch(seg, before, source) && BranchesKept(before, after)
    ensures OnBranch(seg, after, source)
  {
  }

  lemma LoopOnBranch(loop: seq<Effect>, pr: nat, required: seq<string>, prs: map<nat, PullRequest>, source: string)
    requires LoopShape(loop, pr, required) && pr in prs && prs[pr].source == source
    ensures OnBranch(loop, prs, source) && forall e :: e in loop ==> !IsOpening(e)
  {
    LoopOnly(loop, pr, required);
  }

  lemma FinishOnBranch(tail: seq<Effect>, w: WorkflowResult, o: Options, pr: nat, r: LifecycleResult,
                       prs: map<nat, PullRequest>)
    requires FinishShape(tail, w, o, pr, r) && pr in prs && prs[pr].source == o.sourceBranch
    ensures OnBranch(tail, prs, o.sourceBranch) && forall e :: e in tail ==> !IsOpening(e)
  {
  }

  // ---- Which target the run's pull request has ----

  /**
   * What the lookup by source branch, over the pull requests `lookup`, can lead to: pull request `n`
   * with target `actual`. It ignores the target branch of the run unless there is nothing to reuse.
   */
  ghost predicate LeadsTo(lookup: map<nat, PullRequest>, source: string, target: string, n: nat, actual: string) {
    if NoneReusable(lookup, source) then actual == target
    else Reusable(lookup, source, n) && actual == lookup[n].target
  }

  /** Every reusable pull request of the source has this target. */
  ghost predicate ReusableOnTarget(lookup: map<nat, PullRequest>, source: string, target: string) {
    forall n :: Reusable(lookup, source, n) ==> lookup[n].target == target
  }

  /**
   * Whatever the lookup answers, the run works on a pull request of its own target branch: exactly
   * when every reusable pull request of the source has that target.
   */
  lemma OwnTargetIffReusableOnTarget(lookup: map<nat, PullRequest>, source: string, target: string)
    ensures (forall n, actual :: LeadsTo(lookup, source, target, n, actual) ==> actual == target)
            <==> ReusableOnTarget(lookup, source, target)
  {
    if forall n, actual :: LeadsTo(lookup, source, target, n, actual) ==> actual == target {
      forall n | Reusable(lookup, source, n)
        ensures lookup[n].target == target
      {
        assert LeadsTo(lookup, source, target, n, lookup[n].target);
      }
    }
  }

  /** The reported pull request is there, of the source branch, and one the lookup leads to. */
  ghost predicate ReportsFound(pr: Option<nat>, lookup: map<nat, PullRequest>, prs: map<nat, PullRequest>, o: Options) {
    pr.Some? ==>
      && pr.value in prs && prs[pr.value].source == o.sourceBranch
      && LeadsTo(lookup, o.sourceBranch, o.targetBranch, pr.value, prs[pr.value].target)
  }

  /** The body of the reported pull request was brought up to date exactly if the lookup found it open. */
  ghost predicate BodyFresh(pr: Option<nat>, seg: seq<Effect>, lookup: map<nat, PullRequest>, source: string) {
    pr.Some? ==>
      (BodyUpdated(pr.value) in seg <==>
         !NoneReusable(lookup, source) && pr.value in lookup && lookup[pr.value].state.Open?)
  }

  // ---- Which gate, and which stop ----

  /** What each way to end at a gate says about the result. */
  ghost predicate GateVerdict(w: WorkflowResult, o: Options, state: LifecycleState) {
    match state
    case ChecksFailed =>
      || (!IsBlank(w.summary) && !w.testsPassed)
      || (GatesPass(w, o) && !w.noCodeOutcome && w.commits == [])
    case VerificationFailed =>
      && !IsBlank(w.summary) && w.testsPassed && w.reviewPassed && w.worktreeClean != Some(false)
      && !ProofsValid(w, o)
    case WorkflowInvalid =>
      || IsBlank(w.summary) || (w.testsPassed && !(w.reviewPassed && w.worktreeClean != Some(false)))
      || (GatesPass(w, o) && w.commits != [] && (w.noCodeOutcome || !CodeReady(w, o)))
    case _ => false
  }

  /** The result gets past the gates to a pull request. */
  ghost predicate ReachesPullRequest(w: WorkflowResult, o: Options) {
    GatesPass(w, o) && !w.noCodeOutcome && CodeReady(w, o)
  }

  /** The run ends on a pull request that is still open. */
  ghost predicate LeftOpen(pr: Option<nat>, prs: map<nat, PullRequest>) {
    pr.Some? && pr.value in prs && prs[pr.value].state.Open?
  }

  /**
   * Why a run that got hold of a pull request did not finish it: a closed one has failed; an open one
   * awaits approval without auto-merge and is refused without required checks; otherwise the last pass
   * tells.
   */
  ghost predicate OpenExplained(seg: seq<Effect>, o: Options, r: LifecycleResult, prs: map<nat, PullRequest>) {
    r.pullRequest.Some? ==>
      && r.pullRequest.value in prs
      && (r.state.PrFailed? <==> prs[r.pullRequest.value].state.Closed?)
      && (r.state.AwaitingApproval? <==> LeftOpen(r.pullRequest, prs) && !o.autoMerge)
      && (o.autoMerge && o.requiredChecks == [] ==> (r.state.MergeRefused? <==> LeftOpen(r.pullRequest, prs)))
      && (o.autoMerge && o.requiredChecks != [] ==>
            (LeftOpen(r.pullRequest, prs) <==> r.state in {ChecksFailed, MergeRefused, MergeConflict})
            && (LeftOpen(r.pullRequest, prs) ==> LastPassStops(seg, o.requiredChecks, r.state)))
  }

  // ---- How the loop ends ----

  ghost predicate NoneMerged(seg: seq<Effect>) {
    forall e :: e in seg && e.MergeCalled? ==> e.outcome.MergeFailed?
  }

  /** The last effect is the only merge call that succeeded. */
  ghost predicate MergedLast(seg: seq<Effect>) {
    && seg != [] && seg[|seg| - 1].MergeCalled? && seg[|seg| - 1].outcome.MergeDone?
    && NoneMerged(seg[..|seg| - 1])
  }

  /** The effects of the last pass justify ending in `state`. */
  ghost predicate LastPassStops(seg: seq<Effect>, required: seq<string>, state: LifecycleState) {
    exists k :: 0 <= k <= |seg| && StopJustified(seg[k..], required, state)
  }

  lemma SuffixStops(head: seq<Effect>, seg: seq<Effect>, required: seq<string>, state: LifecycleState)
    ensures LastPassStops(seg, required, state) ==> LastPassStops(head + seg, required, state)
  {
    if LastPassStops(seg, required, state) {
      var k :| 0 <= k <= |seg| && StopJustified(seg[k..], required, state);
      assert (head + seg)[|head| + k..] == seg[k..];
    }
  }

  // ---- When nothing fails ----

  /** One attempt of the loop is enough for this pull request. */
  ghost predicate MergesAtOnce(pr: PullRequest, o: Options) {
    && pr.state.Open? && !pr.mergeability.Conflicting? && AllPassed(o.requiredChecks, pr.checks)
    && pr.headSha.Some? && pr.headSha.value != ""
  }

  /** A pull request that does not merge at once, but for which the loop has a reason to try again. */
  ghost predicate WorthRetrying(pr: PullRequest, o: Options, lastHead: Option<string>) {
    if pr.mergeability.Conflicting? then o.hasWorktree
    else
      && !AllPassed(o.requiredChecks, pr.checks) && pr.headSha.Some?
      && (pr.headSha != lastHead || exists name :: name in o.requiredChecks && Pending(pr.checks, name))
  }

  ghost predicate CanFinish(pr: PullRequest, o: Options) {
    pr.state.Merged? || (o.autoMerge && o.requiredChecks != [] && MergesAtOnce(pr, o))
  }

  /** The source branch has a pull request to reuse, and any that may be reused can be finished. */
  ghost predicate BranchCanFinish(prs: map<nat, PullRequest>, o: Options) {
    && !NoneReusable(prs, o.sourceBranch)
    && forall n :: Reusable(prs, o.sourceBranch, n) ==> CanFinish(prs[n], o)
  }

  // ---- What a run adds to the log of all runs ----

  /** At most the first effect is a creation, and then of a branch nothing was created for before. */
  ghost predicate OneFreshCreation(log: seq<Effect>, seg: seq<Effect>) {
    && (forall k :: 0 < k < |seg| ==> !seg[k].Created?)
    && (seg != [] && seg[0].Created? ==> NotCreated(log, seg[0].source))
  }

  lemma CreationThenRest(log: seq<Effect>, created: seq<Effect>, rest: seq<Effect>, prs: map<nat, PullRequest>,
                         source: string)
    requires |created| <= 1 && OneFreshCreation(log, created) && forall e :: e in rest ==> !IsOpening(e)
    requires OnBranch(created, prs, source) && OnBranch(rest, prs, source)
    ensures OneFreshCreation(log, created + rest) && OnBranch(created + rest, prs, source)
    ensures forall e :: IsOpening(e) ==> (e in created + rest <==> e in created)
  {
    var all: seq<Effect> := created + rest;
    forall k | |created| <= k < |all|
      ensures !IsOpening(all[k])
    {
      assert all[k] == rest[k - |created|];
    }
  }

  /** Over all runs: one creation per source branch, and no merge call on a merged pull request. */
  ghost predicate LogSafe(log: seq<Effect>) {
    AtMostOneCreated(log) && NeverMergesMerged(log)
  }

  lemma RunKeepsLogSafe(log: seq<Effect>, seg: seq<Effect>, w: WorkflowResult, o: Options)
    requires LogSafe(log) && OneFreshCreation(log, seg) && MergeDiscipline(seg, w, o)
    ensures LogSafe(log + seg)
  {
    var all: seq<Effect> := log + seg;
    forall i, j | 0 <= i < j < |all| && all[i].Created? && all[j].Created?
      ensures all[i].source != all[j].source
    {
      if j >= |log| {
        assert all[j] == seg[j - |log|];
        assert i < |log| ==> log[i] in log;
      }
    }
    forall i | 0 <= i < |seg| && seg[i].MergeCalled?
      ensures seg[i].before != Some(Merged)
    {
      assert MergeAt(seg, i, seg[i].pr, o.requiredChecks);
    }
  }

  // ---- The merge loop ----

  /** The three ways a run ends as soon as the state of the pull request is known. */
  function StopBeforeMerging(o: Options, state: PrState): Option<LifecycleState> {
    if state.Closed? then Some(PrFailed)
    else if state.Merged? then None
    else if !o.autoMerge then Some(AwaitingApproval)
    else if o.requiredChecks == [] then Some(MergeRefused)
    else None
  }

  /** A result of the merge loop that leaves the pull request open. */
  predicate StoppedInLoop(r: LifecycleResult, pr: nat) {
    r == Stopped(Some(pr), r.state) && r.state in {ChecksFailed, MergeRefused, MergeConflict}
  }

  datatype AttemptOutcome = Return(result: LifecycleResult) | Continue(lastHead: Option<string>) | MergedNow

  /** How often the loop polls at most: three times unless configured, and at least once. */
  function MaxAttempts(o: Options): (m: int)
    ensures m >= 1 && (o.externalFixPolls.None? ==> m == 3)
    ensures o.externalFixPolls.Some? ==> m >= o.externalFixPolls.value && (m == 1 || m == o.externalFixPolls.value)
  {
    var polls := if o.externalFixPolls.Some? then o.externalFixPolls.value else 3;
    if polls > 1 then polls else 1
  }

  /** What every pass of the loop guarantees about its effects and its outcome. */
  ghost predicate PassEnds(r: AttemptOutcome, seg: seq<Effect>, pr: nat, required: seq<string>, last: bool,
                           lastHead: Option<string>)
  {
    && AttemptShape(seg, pr, required) && (last ==> BaseMergeTried !in seg)
    && (forall e :: e in seg && e.MergeCalled? ==> (e.outcome.MergeDone? <==> r.MergedNow?))
    && match r
       case MergedNow => |seg| == 3
       case Continue(head) => !last && RetryJustified(seg, required, lastHead, head)
       case Return(result) => StoppedInLoop(result, pr) && StopJustified(seg, required, result.state)
  }

  /** The same for the part of a pass behind a poll in which every required check passed. */
  ghost predicate MergeEnds(r: AttemptOutcome, seg: seq<Effect>, pr: nat, last: bool) {
    && MergeShape(seg, pr) && (last ==> BaseMergeTried !in seg)
    && (forall e :: e in seg && e.MergeCalled? ==> (e.outcome.MergeDone? <==> r.MergedNow?))
    && match r
       case MergedNow => |seg| == 2
       case Continue(head) => !last && |seg| == 3 && head.None?
       case Return(result) => StoppedInLoop(result, pr) && RefusalJustified(seg, result.state)
  }

  lemma MergeSegment(seg: seq<Effect>, more: seq<Effect>, r: AttemptOutcome, pr: nat, required: seq<string>,
                     last: bool, lastHead: Option<string>)
    requires |seg| == 1 && seg[0].Polled? && seg[0].checks.Some? && AllPassed(required, seg[0].checks.value)
    requires required != [] && MergeEnds(r, more, pr, last)
    ensures PassEnds(r, seg + more, pr, required, last, lastHead)
  {
    var all: seq<Effect> := seg + more;
    assert forall e :: e in all <==> e in seg || e in more;
  }

  /** The pull request is there, merged if this pass merged it and open otherwise. */
  ghost predicate StateAfter(r: AttemptOutcome, prs: map<nat, PullRequest>, pr: nat) {
    pr in prs && (if r.MergedNow? then prs[pr].state.Merged? else prs[pr].state.Open?)
  }

  /** How the part of a run ends that follows getting hold of pull request `pr`. */
  ghost predicate EndsOn(pr: nat, loop: seq<Effect>, tail: seq<Effect>, prs: map<nat, PullRequest>, w: WorkflowResult,
                         o: Options, r: LifecycleResult)
  {
    && LoopEnd(loop, tail, pr, w, o, r) && r.pullRequest == Some(pr)
    && OnBranch(loop + tail, prs, o.sourceBranch) && (forall e :: e in loop + tail ==> !IsOpening(e))
    && OpenExplained(loop + tail, o, r, prs)
  }

  lemma StoppedEnds(pr: nat, loop: seq<Effect>, prs: map<nat, PullRequest>, w: WorkflowResult, o: Options,
                    r: LifecycleResult)
    requires LoopShape(loop, pr, o.requiredChecks) && Bounded(loop, MaxAttempts(o), MaxAttempts(o) - 1)
    requires StoppedInLoop(r, pr) && LastPassStops(loop, o.requiredChecks, r.state)
    requires o.autoMerge && o.requiredChecks != []
    requires pr in prs && prs[pr].state.Open? && prs[pr].source == o.sourceBranch
    ensures EndsOn(pr, loop, [], prs, w, o, r)
  {
    assert loop + [] == loop;
    LoopOnBranch(loop, pr, o.requiredChecks, prs, o.sourceBranch);
  }

  lemma FinishedEnds(pr: nat, loop: seq<Effect>, tail: seq<Effect>, prs: map<nat, PullRequest>, w: WorkflowResult,
                     o: Options, r: LifecycleResult)
    requires LoopShape(loop, pr, o.requiredChecks) && Bounded(loop, MaxAttempts(o), MaxAttempts(o) - 1)
    requires FinishShape(tail, w, o, pr, r) && (loop != [] ==> o.autoMerge)
    requires pr in prs && prs[pr].state.Merged? && prs[pr].source == o.sourceBranch
    ensures EndsOn(pr, loop, tail, prs, w, o, r)
  {
    LoopOnBranch(loop, pr, o.requiredChecks, prs, o.sourceBranch);
    FinishOnBranch(tail, w, o, pr, r, prs);
  }

  /** What a run past the gates promises about the pull request it reports. */
  ghost predicate Reports(seg: seq<Effect>, lookup: map<nat, PullRequest>, prs: map<nat, PullRequest>, o: Options,
                          r: LifecycleResult)
  {
    && OnBranch(seg, prs, o.sourceBranch) && ReportsFound(r.pullRequest, lookup, prs, o)
    && BodyFresh(r.pullRequest, seg, lookup, o.sourceBranch) && OpenExplained(seg, o, r, prs)
  }

  lemma OpenedThenStops(created: seq<Effect>, pr: nat, lookup: map<nat, PullRequest>, prs: map<nat, PullRequest>,
                        w: WorkflowResult, o: Options, state: LifecycleState)
    requires created == [] || created == [Created(o.sourceBranch, pr)] || created == [BodyUpdated(pr)]
    requires OnBranch(created, prs, o.sourceBranch) && BodyFresh(Some(pr), created, lookup, o.sourceBranch)
    requires ReportsFound(Some(pr), lookup, prs, o) && StopBeforeMerging(o, prs[pr].state) == Some(state)
    ensures Phases(created, [], [], w, o, Stopped(Some(pr), state))
    ensures Reports(created, lookup, prs, o, Stopped(Some(pr), state))
  {
  }

  lemma Regroup(log: seq<Effect>, created: seq<Effect>, loop: seq<Effect>, tail: seq<Effect>)
    ensures log + created + (loop + tail) == log + (created + (loop + tail))
  {
  }

  lemma OpenedThenEnds(log: seq<Effect>, created: seq<Effect>, loop: seq<Effect>, tail: seq<Effect>, pr: nat,
                       lookup: map<nat, PullRequest>, before: map<nat, PullRequest>, prs: map<nat, PullRequest>,
                       w: WorkflowResult, o: Options, r: LifecycleResult)
    requires |created| <= 1 && OneFreshCreation(log, created) && OnBranch(created, before, o.sourceBranch)
    requires BodyFresh(Some(pr), created, lookup, o.sourceBranch) && ReportsFound(Some(pr), lookup, before, o)
    requires BranchesKept(before, prs) && EndsOn(pr, loop, tail, prs, w, o, r)
    requires created == [] || created == [Created(o.sourceBranch, pr)] || created == [BodyUpdated(pr)]
    ensures OneFreshCreation(log, created + (loop + tail)) && Reports(created + (loop + tail), lookup, prs, o, r)
    ensures Phases(created, loop, tail, w, o, r)
  {
    OnBranchKept(created, before, prs, o.sourceBranch);
    CreationThenRest(log, created, loop + tail, prs, o.sourceBranch);
    SuffixStops(created, loop + tail, o.requiredChecks, r.state);
  }

  class PrLifecycleOrchestrator {
    const services: Services

    constructor (services: Services)
      ensures this.services == services
    {
      this.services := services;
    }

    /** None lets the loop continue; that happens only when another attempt is left. */
    method HandleConflict(o: Options, pr: nat, attempt: nat, maxAttempts: nat)
      returns (r: Option<LifecycleResult>, ghost tried: bool)
      requires services.Valid()
      modifies services`prs, services`nextNumber, services`log
      ensures services.Valid() && Moves(old(services.prs), services.prs)
      ensures services.log == old(services.log) + if tried then [BaseMergeTried] else []
      ensures tried <==> o.hasWorktree && attempt < maxAttempts - 1
      ensures r.None? ==> tried
      ensures r.Some? ==> r.value == Stopped(Some(pr), MergeConflict)
      ensures services.quiet ==> (r.None? <==> tried) && services.prs == old(services.prs)
    {
      tried := false;
      if o.hasWorktree && attempt < maxAttempts - 1 {
        tried := true;
        var outcome := services.MergeBaseIntoBranch();
        if outcome.BaseMerged? {
          return None, tried;
        }
      }
      return Some(Stopped(Some(pr), MergeConflict)), tried;
    }

    /** One pass through the loop body; `known` is the mergeability found when the pull request was. */
    method Attempt(o: Options, pr: nat, known: Mergeability, attempt: nat, maxAttempts: nat, lastHead: Option<string>)
      returns (r: AttemptOutcome, ghost seg: seq<Effect>)
      requires services.Valid() && pr in services.prs && services.prs[pr].state.Open?
      requires attempt < maxAttempts && o.requiredChecks != []
      modifies services`prs, services`nextNumber, services`log
      ensures services.Valid() && services.log == old(services.log) + seg
      ensures BranchesKept(old(services.prs), services.prs) && StateAfter(r, services.prs, pr)
      ensures PassEnds(r, seg, pr, o.requiredChecks, attempt == maxAttempts - 1, lastHead)
      ensures services.quiet && MergesAtOnce(old(services.prs)[pr], o) ==> r.MergedNow?
      // If nothing fails, another attempt follows exactly when one is left and there is a reason for it.
      ensures services.quiet && !MergesAtOnce(old(services.prs)[pr], o) ==>
                && services.prs == old(services.prs)
                && (r.Continue? <==> attempt < maxAttempts - 1 && WorthRetrying(old(services.prs)[pr], o, lastHead))
                && (r.Continue? && !old(services.prs)[pr].mergeability.Conflicting? ==>
                      r.lastHead == old(services.prs)[pr].headSha)
    {
      var current := services.GetPullRequest(pr);
      var mergeability := if current.Some? then current.value.mergeability else known;
      if mergeability.Conflicting? {
        var conflict;
        ghost var tried;
        conflict, tried := HandleConflict(o, pr, attempt, maxAttempts);
        seg := if tried then [BaseMergeTried] else [];
        return if conflict.Some? then Return(conflict.value) else Continue(lastHead), seg;
      }
      r, seg := PollAndMerge(o, pr, attempt, maxAttempts, lastHead);
    }

    /** The rest of a pass, for a pull request not known to conflict: the poll, then the merge or the retry. */
    method PollAndMerge(o: Options, pr: nat, attempt: nat, maxAttempts: nat, lastHead: Option<string>)
      returns (r: AttemptOutcome, ghost seg: seq<Effect>)
      requires services.Valid() && pr in services.prs && services.prs[pr].state.Open?
      requires attempt < maxAttempts && o.requiredChecks != []
      modifies services`prs, services`nextNumber, services`log
      ensures services.Valid() && services.log == old(services.log) + seg
      ensures BranchesKept(old(services.prs), services.prs) && StateAfter(r, services.prs, pr)
      ensures PassEnds(r, seg, pr, o.requiredChecks, attempt == maxAttempts - 1, lastHead)
      ensures services.quiet && !old(services.prs)[pr].mergeability.Conflicting? ==>
                var was := old(services.prs)[pr];
                if MergesAtOnce(was, o) then r.MergedNow?
                else && services.prs == old(services.prs)
                     && (r.Continue? <==> attempt < maxAttempts - 1 && WorthRetrying(was, o, lastHead))
                     && (r.Continue? ==> r.lastHead == was.headSha)
    {
      var polled := services.PollChecks(pr);
      seg := [Polled(polled)];
      if polled.None? {
        return Return(Stopped(Some(pr), ChecksFailed)), seg;
      }
      var checks := polled.value;
      if !AllPassed(o.requiredChecks, checks) {
        var pending := exists name :: name in o.requiredChecks && Pending(checks, name);
        var refreshed := services.GetPullRequest(pr);
        var head := if refreshed.Some? then refreshed.value.headSha else None;
        if attempt < maxAttempts - 1 && head.Some? && (head != lastHead || pending) {
          return Continue(head), seg;
        }
        return Return(Stopped(Some(pr), ChecksFailed)), seg;
      }

      ghost var more;
      r, more := BindAndMerge(o, pr, attempt, maxAttempts);
      MergeSegment(seg, more, r, pr, o.requiredChecks, attempt == maxAttempts - 1, lastHead);
      assert old(services.log) + (seg + more) == old(services.log) + seg + more;
      seg := seg + more;
    }

    /** Refreshes the head, binds the merge to it and merges. */
    method BindAndMerge(o: Options, pr: nat, attempt: nat, maxAttempts: nat)
      returns (r: AttemptOutcome, ghost seg: seq<Effect>)
      requires services.Valid() && pr in services.prs && services.prs[pr].state.Open?
      requires attempt < maxAttempts
      modifies services`prs, services`nextNumber, services`log
      ensures services.Valid() && services.log == old(services.log) + seg
      ensures BranchesKept(old(services.prs), services.prs) && StateAfter(r, services.prs, pr)
      ensures MergeEnds(r, seg, pr, attempt == maxAttempts - 1)
      ensures services.quiet && MergesAtOnce(old(services.prs)[pr], o) ==> r.MergedNow?
      ensures services.quiet && HeadOf(old(services.prs)[pr]) == "" ==> r.Return? && services.prs == old(services.prs)
    {
      seg := [];
      var mergeHead := services.ReadMergeHead(pr);
      if mergeHead.None? {
        return Return(Stopped(Some(pr), MergeRefused)), seg;
      }
      var head := mergeHead.value;
      if head == "" {
        return Return(Stopped(Some(pr), MergeRefused)), [HeadRead(head)];
      }
      var outcome := services.Merge(pr, head, o.requiredChecks);
      seg := [HeadRead(head), MergeCalled(pr, head, Some(Open), outcome)];
      if outcome.MergeDone? {
        return MergedNow, seg;
      }
      if !outcome.conflict {
        return Return(Stopped(Some(pr), MergeRefused)), seg;
      }
      var conflict;
      ghost var tried;
      conflict, tried := HandleConflict(o, pr, attempt, maxAttempts);
      seg := if tried then [HeadRead(head), MergeCalled(pr, head, Some(Open), outcome), BaseMergeTried] else seg;
      return if conflict.Some? then Return(conflict.value) else Continue(None), seg;
    }

    /**
     * The bounded loop. It never runs out of attempts: every way through it returns a result
     * (Some) or leaves the pull request merged (None).
     */
    method MergeLoop(o: Options, pr: nat, known: Mergeability)
      returns (r: Option<LifecycleResult>, ghost seg: seq<Effect>)
      requires services.Valid() && pr in services.prs && services.prs[pr].state.Open? && o.requiredChecks != []
      modifies services`prs, services`nextNumber, services`log
      ensures services.Valid() && services.log == old(services.log) + seg
      ensures BranchesKept(old(services.prs), services.prs)
      ensures LoopShape(seg, pr, o.requiredChecks)
      ensures Bounded(seg, MaxAttempts(o), MaxAttempts(o) - 1)
      ensures r.None? ==> pr in services.prs && services.prs[pr].state.Merged?
      ensures r.Some? ==> StoppedInLoop(r.value, pr)
      // It merges exactly with a merge call that succeeded, and otherwise the last pass has its reason.
      ensures r.Some? ==> pr in services.prs && services.prs[pr].state.Open?
      ensures if r.None? then MergedLast(seg)
              else NoneMerged(seg) && LastPassStops(seg, o.requiredChecks, r.value.state)
      ensures services.quiet && MergesAtOnce(old(services.prs)[pr], o) ==> r.None?
    {
      var maxAttempts := MaxAttempts(o);
      var lastHead := None;
      var attempt := 0;
      seg := [];
      while attempt < maxAttempts
        invariant 0 <= attempt < maxAttempts
        invariant services.Valid() && pr in services.prs && services.prs[pr].state.Open?
        invariant services.log == old(services.log) + seg && BranchesKept(old(services.prs), services.prs)
        invariant LoopShape(seg, pr, o.requiredChecks) && Bounded(seg, attempt, attempt) && NoneMerged(seg)
        invariant services.quiet && MergesAtOnce(old(services.prs)[pr], o) ==> services.prs == old(services.prs)
      {
        var outcome, more := Attempt(o, pr, known, attempt, maxAttempts, lastHead);
        AttemptAppends(seg, more, pr, o.requiredChecks, attempt, attempt);
        assert old(services.log) + (seg + more) == old(services.log) + seg + more;
        ghost var passed := seg;
        seg := seg + more;
        assert seg[|passed|..] == more;
        match outcome
        case Return(result) => return Some(result), seg;
        case MergedNow => return None, seg;
        case Continue(head) => lastHead := head;
        attempt := attempt + 1;
      }
      r := None;
    }

    /** Verified merge, tracker completion and cleanup. */
    method Finish(w: WorkflowResult, o: Options, pr: nat) returns (r: LifecycleResult, ghost seg: seq<Effect>)
      requires services.Valid()
      modifies services
      ensures services.Valid() && services.log == old(services.log) + seg
      ensures Moves(old(services.prs), services.prs)
      ensures FinishShape(seg, w, o, pr, r)
      ensures services.quiet && pr in old(services.prs) && old(services.prs)[pr].state.Merged? ==>
                r.state.MergedState? && (o.deleteHeadBranch ==> BranchDeleted(o.sourceBranch) in seg)
    {
      seg := [];
      var verified := services.VerifyMerged(pr);
      if verified != Some(true) {
        return Stopped(Some(pr), MergeVerificationFailed), seg;
      }
      var closed := services.CompleteTrackerTask(w.taskId);
      if !closed {
        return LifecycleResult(Some(pr), true, false, false, TrackerCloseFailed), [Verified(pr)];
      }
      var deleted := false;
      if o.deleteHeadBranch {
        deleted := services.DeleteBranch(o.sourceBranch);
      }
      var released := false;
      if o.hasRelease {
        released := services.ReleaseWorktree(w.taskId);
      }
      seg := [Verified(pr), TrackerCompleted(w.taskId)] + Cleanup(w, o, deleted, released);
      assert services.log == old(services.log) + seg;
      var state := if o.hasRelease && !released then WorktreeReleaseFailed else MergedState;
      return LifecycleResult(Some(pr), true, true, released, state), seg;
    }

    method FinishWithoutCode(w: WorkflowResult, o: Options) returns (r: LifecycleResult, ghost seg: seq<Effect>)
      requires services.Valid()
      modifies services
      ensures services.Valid() && services.log == old(services.log) + seg
      ensures services.prs == old(services.prs)
      ensures NoCodeShape(seg, w, o, r)
      ensures services.quiet ==> r.state.NoCodeOutcome?
    {
      var closed := services.CompleteTrackerTask(w.taskId);
      if !closed {
        return Stopped(None, TrackerCloseFailed), [];
      }
      seg := [TrackerCompleted(w.taskId)];
      if o.hasRelease {
        var released := services.ReleaseWorktree(w.taskId);
        if !released {
          return LifecycleResult(None, false, true, false, WorktreeReleaseFailed), seg;
        }
        seg := seg + [WorktreeReleased(w.taskId)];
      }
      return LifecycleResult(None, false, true, o.hasRelease, NoCodeOutcome), seg;
    }

    /**
     * None where the program reports that it could not create or recover the pull request. `lookup` is
     * what the pull requests were when the branch was looked up.
     */
    method CreateOrReuse(o: Options)
      returns (r: Option<PullRequest>, ghost seg: seq<Effect>, ghost lookup: map<nat, PullRequest>)
      requires services.Valid()
      modifies services`prs, services`nextNumber, services`log
      ensures services.Valid() && services.log == old(services.log) + seg
      ensures BranchesKept(old(services.prs), services.prs) && Moves(old(services.prs), lookup)
      ensures services.quiet ==> lookup == old(services.prs)
      ensures if r.None? then seg == []
              else || seg == [] || seg == [Created(o.sourceBranch, r.value.number)]
                   || seg == [BodyUpdated(r.value.number)]
      ensures r.Some? ==> BodyFresh(Some(r.value.number), seg, lookup, o.sourceBranch)
      ensures services.quiet ==> r.Some?
      ensures services.quiet && NoneReusable(old(services.prs), o.sourceBranch) ==>
                seg == [Created(o.sourceBranch, r.value.number)]
      ensures OnBranch(seg, services.prs, o.sourceBranch) && OneFreshCreation(old(services.log), seg)
      ensures r.Some? ==> var n := r.value.number;
                          && n in services.prs && services.prs[n].state == r.value.state
                          && services.prs[n].source == o.sourceBranch
      ensures r.Some? ==> ReportsFound(Some(r.value.number), lookup, services.prs, o)
      ensures services.quiet && BranchCanFinish(old(services.prs), o) ==>
                && r.Some? && services.prs == old(services.prs)
                && r.value.number in services.prs && CanFinish(services.prs[r.value.number], o)
    {
      seg := [];
      var found := services.FindByBranch(o.sourceBranch);
      lookup := services.prs;
      if found.None? {
        return None, seg, lookup;
      }
      if found.value.Some? {
        var pr := found.value.value;
        if pr.state.Open? {
          var updated := services.UpdateBody(pr.number);
          if !updated {
            return None, seg, lookup;
          }
          seg := [BodyUpdated(pr.number)];
        }
        return Some(pr), seg, lookup;
      }
      r := services.CreatePullRequest(o.sourceBranch, o.targetBranch);
      seg := services.log[|old(services.log)|..];
    }

    /** `lookup` is what the pull requests were when the branch was looked up, if the run came that far. */
    method Run(w: WorkflowResult, o: Options)
      returns (r: LifecycleResult, ghost seg: seq<Effect>, ghost lookup: map<nat, PullRequest>)
      requires services.Valid()
      modifies services
      ensures services.Valid() && services.log == old(services.log) + seg
      ensures BranchesKept(old(services.prs), services.prs) && Moves(old(services.prs), lookup)
      ensures services.quiet ==> lookup == old(services.prs)
      ensures RunGuarantee(seg, w, o, r) && OnBranch(seg, services.prs, o.sourceBranch)
      ensures ReportsFound(r.pullRequest, lookup, services.prs, o)
      // Hence the target: its own, if every reusable pull request of the source has it.
      ensures r.pullRequest.Some? && ReusableOnTarget(lookup, o.sourceBranch, o.targetBranch) ==>
                services.prs[r.pullRequest.value].target == o.targetBranch
      ensures LogSafe(old(services.log)) ==> LogSafe(services.log)
      // A gate that fails ends the run before anything happens.
      ensures (!GatesPass(w, o) || (if w.noCodeOutcome then w.commits != [] else !CodeReady(w, o))) ==>
                seg == [] && services.prs == old(services.prs) && r == Stopped(None, r.state)
                && GateVerdict(w, o, r.state)
      // Past the gates: the body is fresh, and a pull request left open has its reason.
      ensures BodyFresh(r.pullRequest, seg, lookup, o.sourceBranch)
      ensures ReachesPullRequest(w, o) ==> OpenExplained(seg, o, r, services.prs)
      ensures r.state.AwaitingApproval? <==>
                ReachesPullRequest(w, o) && !o.autoMerge && LeftOpen(r.pullRequest, services.prs)
      ensures r.pullRequest.None? && ReachesPullRequest(w, o) ==> r == Stopped(None, PrFailed) && !services.quiet
      // If nothing fails, a result that is ready is finished.
      ensures services.quiet && GatesPass(w, o) && w.noCodeOutcome && w.commits == [] ==> r.state.NoCodeOutcome?
      ensures services.quiet && GatesPass(w, o) && CodeReady(w, o) && !w.noCodeOutcome ==>
                BranchCanFinish(old(services.prs), o) ==>
                  r.state.MergedState? && (o.deleteHeadBranch ==> BranchDeleted(o.sourceBranch) in seg)
      ensures services.quiet && ReachesPullRequest(w, o) && NoneReusable(old(services.prs), o.sourceBranch) ==>
                r.pullRequest.Some? && Created(o.sourceBranch, r.pullRequest.value) in seg
    {
      seg, lookup := [], services.prs;
      var gate := CheckGates(w, o);
      if gate.Some? {
        r := Stopped(None, gate.value);
        NothingDone(w, o, r, seg);
        return;
      }
      if w.noCodeOutcome {
        if w.commits != [] {
          r := Stopped(None, WorkflowInvalid);
          NothingDone(w, o, r, seg);
          return;
        }
        r, seg := FinishWithoutCode(w, o);
        NoCodeGuarantee(w, o, r, seg);
        if LogSafe(old(services.log)) {
          RunKeepsLogSafe(old(services.log), seg, w, o);
        }
        return;
      }
      var invalid := CheckCode(w, o);
      if invalid.Some? {
        r := Stopped(None, invalid.value);
        NothingDone(w, o, r, seg);
        return;
      }
      ghost var created, loop, tail;
      r, created, loop, tail, lookup := RunPullRequest(w, o);
      PhasesGuarantee(created, loop, tail, w, o, r);
      seg := created + (loop + tail);
      if LogSafe(old(services.log)) {
        RunKeepsLogSafe(old(services.log), seg, w, o);
      }
    }

    /** The part of a run that touches the pull request: creation, the loop, and what follows it. */
    method RunPullRequest(w: WorkflowResult, o: Options)
      returns (r: LifecycleResult, ghost created: seq<Effect>, ghost loop: seq<Effect>, ghost tail: seq<Effect>,
               ghost lookup: map<nat, PullRequest>)
      requires services.Valid()
      modifies services
      ensures services.Valid() && services.log == old(services.log) + (created + (loop + tail))
      ensures BranchesKept(old(services.prs), services.prs) && Moves(old(services.prs), lookup)
      ensures services.quiet ==> lookup == old(services.prs)
      ensures Phases(created, loop, tail, w, o, r)
      ensures OneFreshCreation(old(services.log), created + (loop + tail))
      ensures Reports(created + (loop + tail), lookup, services.prs, o, r)
      ensures r.pullRequest.None? ==> r == Stopped(None, PrFailed) && !services.quiet
      ensures services.quiet && BranchCanFinish(old(services.prs), o) ==>
                r.state.MergedState? && (o.deleteHeadBranch ==> BranchDeleted(o.sourceBranch) in tail)
      ensures services.quiet && NoneReusable(old(services.prs), o.sourceBranch) ==>
                r.pullRequest.Some? && created == [Created(o.sourceBranch, r.pullRequest.value)]
    {
      var found;
      found, created, lookup := CreateOrReuse(o);
      loop, tail := [], [];
      assert created + (loop + tail) == created;
      if found.None? {
        return Stopped(None, PrFailed), created, loop, tail, lookup;
      }
      var pr := found.value;
      var early := StopBeforeMerging(o, pr.state);
      if early.Some? {
        OpenedThenStops(created, pr.number, lookup, services.prs, w, o, early.value);
        return Stopped(Some(pr.number), early.value), created, loop, tail, lookup;
      }
      ghost var prs := services.prs;
      r, loop, tail := MergeAndFinish(w, o, pr);
      OpenedThenEnds(old(services.log), created, loop, tail, pr.number, lookup, prs, services.prs, w, o, r);
      Regroup(old(services.log), created, loop, tail);
    }

    /** The merge loop unless the pull request is merged already, then verification and cleanup. */
    method MergeAndFinish(w: WorkflowResult, o: Options, pr: PullRequest)
      returns (r: LifecycleResult, ghost loop: seq<Effect>, ghost tail: seq<Effect>)
      requires services.Valid()
      requires pr.number in services.prs && services.prs[pr.number].state == pr.state && !pr.state.Closed?
      requires services.prs[pr.number].source == o.sourceBranch
      requires !pr.state.Merged? ==> o.autoMerge && o.requiredChecks != []
      modifies services
      ensures services.Valid() && services.log == old(services.log) + (loop + tail)
      ensures BranchesKept(old(services.prs), services.prs)
      ensures EndsOn(pr.number, loop, tail, services.prs, w, o, r)
      ensures services.quiet && CanFinish(old(services.prs)[pr.number], o) ==>
                r.state.MergedState? && (o.deleteHeadBranch ==> BranchDeleted(o.sourceBranch) in tail)
    {
      loop, tail := [], [];
      if !pr.state.Merged? {
        var stopped;
        stopped, loop := MergeLoop(o, pr.number, pr.mergeability);
        if stopped.Some? {
          assert loop + [] == loop;
          StoppedEnds(pr.number, loop, services.prs, w, o, stopped.value);
          return stopped.value, loop, tail;
        }
      }
      ghost var before := services.log;
      r, tail := Finish(w, o, pr.number);
      FinishedEnds(pr.number, loop, tail, services.prs, w, o, r);
      assert before + tail == old(services.log) + (loop + tail);
    }

    /** Any number of runs, one after the other. */
    method RunAll(inputs: seq<(WorkflowResult, Options)>) returns (results: seq<LifecycleResult>)
      requires services.Valid() && LogSafe(services.log)
      modifies services
      ensures services.Valid() && |results| == |inputs|
      ensures exists segments :: services.log == old(services.log) + Flatten(segments)
                              && RunsGuaranteed(segments, inputs, results, services.prs)
      // Over all runs together: one creation per branch, and no merge call on a merged pull request.
      ensures LogSafe(services.log)
    {
      results := [];
      ghost var segments: seq<seq<Effect>> := [];
      for i := 0 to |inputs|
        invariant services.Valid() && |results| == i
        invariant LogSafe(services.log)
        invariant services.log == old(services.log) + Flatten(segments)
        invariant RunsGuaranteed(segments, inputs, results, services.prs)
      {
        ghost var before := services.prs;
        var r;
        ghost var seg;
        ghost var lookup;
        r, seg, lookup := Run(inputs[i].0, inputs[i].1);
        AnotherRun(segments, seg, inputs, results, r, before, services.prs);
        assert (segments + [seg])[..i] == segments;
        assert old(services.log) + (Flatten(segments) + seg) == old(services.log) + Flatten(segments) + seg;
        segments, results := segments + [seg], results + [r];
      }
    }
  }

  /** Each segment of the log is what one run guarantees, on the branch of that run. */
  ghost predicate RunsGuaranteed(segments: seq<seq<Effect>>, inputs: seq<(WorkflowResult, Options)>,
                                 results: seq<LifecycleResult>, prs: map<nat, PullRequest>)
  {
    && |segments| == |results| <= |inputs|
    && forall j :: 0 <= j < |segments| ==>
         && RunGuarantee(segments[j], inputs[j].0, inputs[j].1, results[j])
         && OnBranch(segments[j], prs, inputs[j].1.sourceBranch)
  }

  lemma AnotherRun(segments: seq<seq<Effect>>, seg: seq<Effect>, inputs: seq<(WorkflowResult, Options)>,
                   results: seq<LifecycleResult>, r: LifecycleResult,
                   before: map<nat, PullRequest>, after: map<nat, PullRequest>)
    requires RunsGuaranteed(segments, inputs, results, before) && BranchesKept(before, after)
    requires |segments| < |inputs|
    requires var (w, o) := inputs[|segments|]; RunGuarantee(seg, w, o, r) && OnBranch(seg, after, o.sourceBranch)
    ensures RunsGuaranteed(segments + [seg], inputs, results + [r], after)
  {
    forall j | 0 <= j < |segments|
      ensures OnBranch(segments[j], after, inputs[j].1.sourceBranch)
    {
      OnBranchKept(segments[j], before, after, inputs[j].1.sourceBranch);
    }
  }

  ghost function Flatten(segments: seq<seq<Effect>>): seq<Effect> {
    if segments == [] then [] else Flatten(segments[..|segments| - 1]) + segments[|segments| - 1]
  }

  // ---- A run that merges into another target ----

  const EXAMPLE_PR := PullRequest(1, "feature", "main", Open, [Check("ci", Passed)], Some("sha"), Mergeable)
  const EXAMPLE_OPTIONS := Options("feature", "release", ["ci"], true, [], false, false, None, false, ref => true)
  const EXAMPLE_RESULT := WorkflowResult(StableId("task"), "done", true, true, ["commit"], [], [], None, false, 4)

  lemma ExampleReady()
    ensures GatesPass(EXAMPLE_RESULT, EXAMPLE_OPTIONS) && CodeReady(EXAMPLE_RESULT, EXAMPLE_OPTIONS)
    ensures BranchCanFinish(map[1 := EXAMPLE_PR], EXAMPLE_OPTIONS)
  {
    assert "done"[0] == 'd' && "commit"[0] == 'c' && "feature"[0] == 'f' && "release"[0] == 'r';
    assert EXAMPLE_PR.checks[0] == Check("ci", Passed);
    assert CheckPassed(EXAMPLE_PR.checks, "ci");
    assert Reusable(map[1 := EXAMPLE_PR], "feature", 1);
  }

  /** A run for target "release" merges the pull request of the same source into "main". */
  method MergesIntoAnotherTarget() returns (services: Services, r: LifecycleResult)
    ensures r.merged && r.trackerClosed && r.state.MergedState? && r.pullRequest == Some(1)
    ensures EXAMPLE_OPTIONS.targetBranch == "release" && 1 in services.prs && services.prs[1].target == "main"
  {
    services := new Services(map[1 := EXAMPLE_PR], 2, true);
    var orchestrator := new PrLifecycleOrchestrator(services);
    ExampleReady();
    ghost var seg, lookup;
    r, seg, lookup := orchestrator.Run(EXAMPLE_RESULT, EXAMPLE_OPTIONS);
    assert !NoneReusable(lookup, "feature");
  }
}
