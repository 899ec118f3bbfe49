/**
 What each entry point of a command job does to every step, to the active step and to the status of
 the job, said of the steps themselves.
 */
module CommandJobEffects {
  import opened Wrappers
  import opened CommandJob

  // ---------- the steps of a job ----------

  /** The steps a task type calls for, a review aside. */
  function WorkFor(t: TaskType): seq<Kind> {
    match t
    case SimpleChat => [Route]
    case MemoryQuestion => [Route, Plan]
    case Summarization => [Route, Plan]
    case PlanningOrArchitecture => [Route, Plan]
    case SecurityOrSecret => [Route, Inspect, Plan]
    case EvalOrBenchmark => [Route, Plan, Validate]
    case RepoQuestion => [Route, Inspect, Plan, Validate]
    case Debugging => [Route, Inspect, Plan, Validate]
    case CodingChange => [Route, Inspect, Plan, Patch, Validate]
    case DeployOrDestructive => [Route, Inspect, Plan, Patch, Validate]
  }

  /** Those steps, a review when a reviewer or the risk asks for one, and the delivery. */
  function StepsFor(d: Decision): seq<Kind> {
    WorkFor(d.taskType)
    + (if d.useVerifier || d.useBoss || d.risk == High || d.risk == Critical then [Verify] else [])
    + [Deliver]
  }

  predicate Ascending(kinds: seq<Kind>) {
    forall i, j :: 0 <= i < j < |kinds| ==> Rank(kinds[i]) < Rank(kinds[j])
  }

  lemma {:induction false} AscendingUnique(a: seq<Kind>, b: seq<Kind>)
    requires Ascending(a) && Ascending(b) && forall k :: k in a <==> k in b
    ensures a == b
  {
    hide Rank, Ascending;
    if a != [] && b != [] {
      var m, n := |a| - 1, |b| - 1;
      assert a[m] in b && b[n] in a;
      LastIsHighest(a, b[n]);
      LastIsHighest(b, a[m]);
      RankInjective(a[m], b[n]);
      NotBefore(a);
      NotBefore(b);
      assert a[m] == b[n];
      forall k ensures k in a[..m] <==> k in b[..n] {
        assert k in a <==> k in b;
      }
      AscendingUnique(a[..m], b[..n]);
      assert a == a[..m] + [a[m]] && b == b[..n] + [b[n]];
    } else {
      SomethingIn(a, b);
      SomethingIn(b, a);
    }
  }

  lemma SomethingIn(a: seq<Kind>, b: seq<Kind>)
    ensures a != [] && b == [] ==> exists k :: k in a && k !in b
  {
    if a != [] {
      assert a[0] in a;
    }
  }

  lemma RankInjective(a: Kind, b: Kind)
    ensures Rank(a) == Rank(b) ==> a == b
  {
  }

  lemma LastIsHighest(kinds: seq<Kind>, k: Kind)
    requires Ascending(kinds) && k in kinds
    ensures Rank(k) <= Rank(kinds[|kinds| - 1])
  {
    var i :| 0 <= i < |kinds| && kinds[i] == k;
  }

  lemma NotBefore(kinds: seq<Kind>)
    requires Ascending(kinds) && kinds != []
    ensures Ascending(kinds[..|kinds| - 1])
    ensures forall k :: k in kinds[..|kinds| - 1] <==> k in kinds && k != kinds[|kinds| - 1]
  {
    var n := |kinds| - 1;
    assert kinds == kinds[..n] + [kinds[n]];
    assert forall i :: 0 <= i < n ==> Rank(kinds[i]) < Rank(kinds[n]);
  }

  /** The needed kinds in rank order are exactly the steps listed for the decision. */
  lemma RequiredIsListed(d: Decision, kinds: seq<Kind>)
    requires RequiredBelow(d, kinds, 7)
    ensures kinds == StepsFor(d)
  {
    ListedAscending(d);
    forall k ensures k in StepsFor(d) <==> Needs(d, k) && Rank(k) < 7 {
      ListedNeeded(d, k);
    }
    assert forall k :: k in kinds <==> k in StepsFor(d);
    AscendingUnique(kinds, StepsFor(d));
  }

  lemma ListedAscending(d: Decision)
    ensures Ascending(StepsFor(d))
  {
  }

  lemma ListedNeeded(d: Decision, k: Kind)
    ensures k in StepsFor(d) <==> Needs(d, k)
  {
  }

  // ---------- transitions ----------

  /** The first step that is not done. */
  predicate IsFirstOpen(steps: seq<Step>, n: nat) {
    n < |steps| && steps[n].status != Done && forall j :: 0 <= j < n ==> steps[j].status == Done
  }

  predicate EveryDone(steps: seq<Step>) { forall j :: 0 <= j < |steps| ==> steps[j].status == Done }

  lemma FrontierIs(steps: seq<Step>)
    ensures AllDone(steps) <==> EveryDone(steps)
    ensures FirstOpen(steps).None? <==> EveryDone(steps)
    ensures forall n: nat :: IsFirstOpen(steps, n) <==> FirstOpen(steps) == Some(n)
  {
  }

  /** A transition of a step that exists: it is refused exactly when it would run or finish the step
      over an open one; otherwise it writes the step alone, and the job's status and active step follow. */
  lemma TransitionExact(e: Entry, i: nat, status: StepStatus, retry: bool)
    requires Inv(e) && i < |e.kinds|
    ensures var o := Transition(e, e.kinds[i], status, retry);
      && (o.error.Some? <==>
            (status == Running || status == Done) && exists j :: 0 <= j < i && e.steps[j].status != Done)
      && (o.error.Some? ==> o == Outcome(e, Some(PredecessorsOpen)))
      && (o.error.None? ==>
            && o.entry.kinds == e.kinds
            && o.entry.steps == e.steps[i := Step(status, e.steps[i].retryCount + if retry then 1 else 0)]
            && (o.entry.active.None? <==> EveryDone(o.entry.steps))
            && (forall n: nat :: o.entry.active == Some(n) <==> IsFirstOpen(o.entry.steps, n))
            && (status == Failed ==> o.entry.status == JobFailed)
            && (status == Blocked ==> o.entry.status == WaitingForApproval)
            && (status == RetryPending ==> o.entry.status == JobRetryPending)
            && (status == Queued || status == Running || status == Done ==>
                  o.entry.status ==
                  (if EveryDone(o.entry.steps) then Completed
                   else if e.status == WaitingForApproval || e.status == PausedForCompaction then e.status
                   else JobRunning)))
  {
    hide Frontier;
    FindUnique(e.kinds, i);
    FrontierIs(e.steps[i := Step(status, e.steps[i].retryCount + if retry then 1 else 0)]);
  }

  lemma TransitionMissing(e: Entry, kind: Kind, status: StepStatus, retry: bool)
    requires kind !in e.kinds
    ensures Transition(e, kind, status, retry) == Outcome(e, Some(StepNotFound))
  {
  }

  // ---------- preflight ----------

  /** A commit of preflight writes no step but that of its kind, and no retry count. */
  lemma CommitChanges(e: Entry, kind: Kind)
    requires Inv(e)
    ensures var e' := CommitIfReachable(e, kind);
      && e'.kinds == e.kinds
      && forall j :: 0 <= j < |e.kinds| ==>
           e'.steps[j].retryCount == e.steps[j].retryCount && (e.kinds[j] != kind ==> e'.steps[j] == e.steps[j])
  {
    hide Frontier, AllDone, FirstOpen, Inv;
  }

  /** The steps preflight commits on its way, and no others. */
  lemma CommitsChange(e: Entry, hasPlanRef: bool) returns (e2: Entry)
    requires Inv(e)
    ensures var e1 := CommitIfReachable(CommitIfReachable(e, Route), Inspect);
      e2 == if hasPlanRef then CommitIfReachable(e1, Plan) else e1
    ensures Inv(e2) && Evolves(e, e2) && DoneBelow(e2, if hasPlanRef then 3 else 2) && e2.kinds == e.kinds
    ensures forall j :: 0 <= j < |e.kinds| ==>
              && e2.steps[j].retryCount == e.steps[j].retryCount
              && (Rank(e.kinds[j]) >= (if hasPlanRef then 3 else 2) ==> e2.steps[j] == e.steps[j])
  {
    hide CommitIfReachable, Inv, Evolves, DoneBelow;
    e2 := PreflightCommitsTo(e, hasPlanRef);
    var e0 := CommitIfReachable(e, Route);
    CommitIfReachableKeeps(e, Route);
    CommitIfReachableKeeps(e0, Inspect);
    CommitChanges(e, Route);
    CommitChanges(e0, Inspect);
    CommitChanges(CommitIfReachable(e0, Inspect), Plan);
  }

  lemma BelowPatch(e: Entry, i: nat)
    requires Inv(e) && i < |e.kinds| && e.kinds[i] == Patch
    ensures PredecessorsDone(e.steps, i) <==> DoneBelow(e, 3)
  {
    forall j | 0 <= j < |e.kinds| ensures j < i <==> Rank(e.kinds[j]) < 3 {
      RankOrder(e.kinds, j, i);
    }
  }

  /** Preflight commits what lies below patch, as far as it may; a queued patch is started exactly when
      a mutation is expected, no approval is asked for, and everything below is done. No other step and
      no retry count changes, and a job that needs approval waits for it. */
  lemma PreflightExact(e: Entry, hasPlanRef: bool, mutationExpected: bool, approvalRequired: bool)
    requires Inv(e)
    ensures var e' := Preflight(e, hasPlanRef, mutationExpected, approvalRequired);
      && e'.kinds == e.kinds
      && (forall i :: 0 <= i < |e.kinds| ==> e'.steps[i].retryCount == e.steps[i].retryCount)
      && (forall i :: 0 <= i < |e.kinds| && Rank(e.kinds[i]) < (if hasPlanRef then 3 else 2) ==>
            e'.steps[i].status == Done)
      && (forall i :: 0 <= i < |e.kinds| && e.kinds[i] == Patch ==>
            e'.steps[i].status ==
            if e.steps[i].status == Queued && mutationExpected && !approvalRequired && DoneBelow(e', 3)
            then Running else e.steps[i].status)
      && (forall i :: 0 <= i < |e.kinds| && (Rank(e.kinds[i]) > 3 || (e.kinds[i] == Plan && !hasPlanRef)) ==>
            e'.steps[i] == e.steps[i])
      && (approvalRequired ==> e'.status == WaitingForApproval)
  {
    hide CommitIfReachable, Inv, Evolves, Transition;
    var e2 := CommitsChange(e, hasPlanRef);
    var found := Find(e2.kinds, Patch);
    if found.Some? {
      var i := found.value;
      BelowPatch(e2, i);
      PatchOnce(e2, i);
      if e2.steps[i].status == Queued && mutationExpected && !approvalRequired && PredecessorsDone(e2.steps, i) {
        TransitionExact(e2, i, Running, false);
        var e3 := Transition(e2, Patch, Running, false).entry;
        SameBelow(e2, e3, i);
      }
    }
  }

  lemma PatchOnce(e: Entry, i: nat)
    requires Inv(e) && i < |e.kinds| && e.kinds[i] == Patch
    ensures forall j :: 0 <= j < |e.kinds| && j != i ==> Rank(e.kinds[j]) != 3
  {
    forall j | 0 <= j < |e.kinds| && j != i ensures Rank(e.kinds[j]) != 3 {
      RankOrder(e.kinds, j, i);
      RankOrder(e.kinds, i, j);
    }
  }

  lemma SameBelow(e: Entry, e': Entry, i: nat)
    requires i < |e.kinds| && e.kinds[i] == Patch && e'.kinds == e.kinds && e'.steps == e.steps[i := e'.steps[i]]
    ensures DoneBelow(e', 3) <==> DoneBelow(e, 3)
  {
  }

  // ---------- resuming, pausing, ending ----------

  /** A queued, paused or retrying job runs again: a first open step that was to be retried runs, and it
      becomes the active one; any other job stays as it is. */
  lemma ResumeExact(e: Entry)
    requires Inv(e)
    ensures var e' := Resume(e);
      if e.status == JobQueued || e.status == PausedForCompaction || e.status == JobRetryPending then
        && e'.kinds == e.kinds && e'.status == JobRunning
        && (e'.active.None? <==> EveryDone(e.steps))
        && (forall n: nat :: e'.active == Some(n) <==> IsFirstOpen(e.steps, n))
        && forall i :: 0 <= i < |e.steps| ==>
             e'.steps[i] == if IsFirstOpen(e.steps, i) && e.steps[i].status == RetryPending
                            then Step(Running, e.steps[i].retryCount) else e.steps[i]
      else e' == e
  {
    hide Frontier;
    FrontierIs(e.steps);
  }

  /** Pausing sends a running active step back for a retry, which is counted, and touches nothing else. */
  lemma PauseExact(e: Entry, retryPending: bool)
    ensures var e' := Pause(e, retryPending);
      && e'.kinds == e.kinds && e'.active == e.active
      && e'.status == (if retryPending then JobRetryPending else PausedForCompaction)
      && forall i :: 0 <= i < |e.steps| ==>
           e'.steps[i] == if e.active == Some(i) && e.steps[i].status == Running
                          then Step(RetryPending, e.steps[i].retryCount + 1) else e.steps[i]
  {
  }

  /** Cancelling blocks every open step and names none as active; failing fails the active one if it is
      open; neither counts a retry. */
  lemma EndingsExact(e: Entry)
    ensures var c := Cancel(e);
      && c.kinds == e.kinds && c.status == Cancelled && c.active.None?
      && forall i :: 0 <= i < |e.steps| ==>
           c.steps[i] == if e.steps[i].status == Done then e.steps[i] else Step(Blocked, e.steps[i].retryCount)
    ensures var f := Fail(e);
      && f.kinds == e.kinds && f.status == JobFailed && f.active == e.active
      && forall i :: 0 <= i < |e.steps| ==>
           f.steps[i] == if e.active == Some(i) && e.steps[i].status != Done
                         then Step(Failed, e.steps[i].retryCount) else e.steps[i]
  {
  }

  /** A restart leaves finished jobs alone. Without a root task, or with a finished one, it closes the
      open steps as that task ended; otherwise the active step, or else the first open one, is blocked
      while the task waits and sent back for a retry, which is counted, while it goes on. */
  lemma RecoverExact(e: Entry, root: RootTask)
    requires Inv(e)
    ensures var e' := Recover(e, root);
      if e.status == Completed || e.status == JobFailed || e.status == Cancelled then e' == e
      else if root == RootWaiting || root == RootActive then
        && e'.kinds == e.kinds
        && e'.status == (if root == RootWaiting then WaitingForApproval else JobRetryPending)
        && (e'.active.None? <==> EveryDone(e.steps))
        && (forall n: nat :: e'.active == Some(n) <==> IsFirstOpen(e.steps, n))
        && forall i :: 0 <= i < |e.steps| ==>
             e'.steps[i] == if !IsFirstOpen(e.steps, i) then e.steps[i]
                            else if root == RootWaiting then Step(Blocked, e.steps[i].retryCount)
                            else Step(RetryPending, e.steps[i].retryCount + 1)
      else
        && e'.kinds == e.kinds && e'.active.None?
        && e'.status == (if root == RootCompleted then Completed
                         else if root == RootCancelled then Cancelled else JobFailed)
        && forall i :: 0 <= i < |e.steps| ==>
             e'.steps[i] == if e.steps[i].status == Done then e.steps[i]
                            else Step(if root == RootCompleted then Done else Failed, e.steps[i].retryCount)
  {
    hide Frontier;
    FrontierIs(e.steps);
  }

  // ---------- postflight ----------

  lemma OpenAt(e: Entry, i: nat)
    requires Inv(e) && i < |e.kinds|
    ensures OpenKind(e, e.kinds[i]) <==> e.steps[i].status != Done
  {
    FindUnique(e.kinds, i);
  }

  /** A turn that goes on or waits for the user finishes exactly the patch it saw and the validation that
      passed; of the steps still open only the active one is written. */
  lemma PostflightWhileOpen(e: Entry, v: Evidence)
    requires Inv(e) && Postflight(e, v).error.None?
    requires !v.terminalFailure && !v.blocked && (v.continuing || v.waitingForUser)
    ensures var e' := Postflight(e, v).entry;
      && e'.kinds == e.kinds
      && e'.status == (if v.continuing then JobRetryPending else WaitingForApproval)
      && (forall i :: 0 <= i < |e.steps| ==>
            (e'.steps[i].status == Done <==>
               e.steps[i].status == Done || (e.kinds[i] == Patch && v.mutationObserved)
               || (e.kinds[i] == Validate && v.validation == Passed)))
      && (e'.active.Some? && e'.active.value < |e'.steps| && e'.steps[e'.active.value].status != Done ==>
            e'.steps[e'.active.value].status == if v.continuing then RetryPending else Blocked)
  {
    hide CommitOpen, Deliverance, Continue, AwaitUser, Inv;
    EvidenceSteps(e, v);
    OpenExits(EvidenceCommitted(e, v).entry, v.continuing);
  }

  lemma EvidenceSteps(e: Entry, v: Evidence)
    requires Inv(e) && EvidenceCommitted(e, v).error.None?
    ensures var e2 := EvidenceCommitted(e, v).entry;
      && e2.kinds == e.kinds
      && forall i :: 0 <= i < |e.steps| ==>
           (e2.steps[i].status == Done <==>
              e.steps[i].status == Done || (e.kinds[i] == Patch && v.mutationObserved)
              || (e.kinds[i] == Validate && v.validation == Passed))
  {
    hide EvidenceCommitted, Inv, Evolves, DoneBelow, OpenKind, SameRetries;
    EvidenceCommittedExact(e, v);
    var e2 := EvidenceCommitted(e, v).entry;
    KindsKept(e, e2);
    forall i | 0 <= i < |e.steps|
      ensures e2.steps[i].status == Done <==>
              e.steps[i].status == Done || (e.kinds[i] == Patch && v.mutationObserved)
              || (e.kinds[i] == Validate && v.validation == Passed)
    {
      OpenAt(e, i);
      OpenAt(e2, i);
    }
  }

  lemma OpenExits(e: Entry, continuing: bool)
    ensures var e' := if continuing then Continue(e) else AwaitUser(e);
      && e'.kinds == e.kinds && e'.active == e.active
      && e'.status == (if continuing then JobRetryPending else WaitingForApproval)
      && (forall i :: 0 <= i < |e.steps| ==> (e'.steps[i].status == Done <==> e.steps[i].status == Done))
      && (e'.active.Some? && e'.active.value < |e'.steps| && e'.steps[e'.active.value].status != Done ==>
            e'.steps[e'.active.value].status == if continuing then RetryPending else Blocked)
  {
  }

  lemma KindsKept(e: Entry, e': Entry)
    requires Evolves(e, e')
    ensures e'.kinds == e.kinds
  {
  }

  /** A turn that fails for good or is blocked fails the job, whatever else it brought. */
  lemma PostflightFailure(e: Entry, v: Evidence)
    requires v.terminalFailure || v.blocked
    ensures Postflight(e, v).error.None? && Postflight(e, v).entry.status == JobFailed
    ensures var e' := Postflight(e, v).entry;
      forall i :: 0 <= i < |e.steps| ==>
        e'.steps[i] == if e.active == Some(i) && e.steps[i].status != Done
                       then Step(Failed, e.steps[i].retryCount) else e.steps[i]
  {
    EndingsExact(e);
  }
}
