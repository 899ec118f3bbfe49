/**
 The entry points over one stored job, written as the source runs them: each reads the
 stored row and step rows, overwrites some of them, and reads them again. Each leaves
 exactly what the matching function of module CommandJob says, also when it raises.
 */
module CommandJobStore {
  import opened Wrappers
  import opened CommandJob

  class StoredJob {
    const kinds: seq<Kind>
    var status: JobStatus
    var activeStepId: Option<nat>
    var steps: seq<Step>

    ghost predicate Valid()
      reads this
    {
      |steps| == |kinds|
    }

    /** The rows the store holds for this job. */
    ghost function Stored(): Entry
      reads this
      requires Valid()
    {
      Entry(status, activeStepId, kinds, steps)
    }

    /** A new job with the steps its routed decision needs. */
    constructor (d: Decision)
      ensures Valid() && RequiredBelow(d, kinds, 7) && Stored() == Created(kinds, d.requiresApproval)
    {
      var required := RequiredStepKinds(d);
      kinds := required;
      status := if d.requiresApproval then WaitingForApproval else JobRunning;
      activeStepId := Some(0);
      steps := seq(|required|, i requires 0 <= i < |required| => Step(if required[i] == Route then Running else Queued, 0));
    }

    method TransitionCommandStep(kind: Kind, newStatus: StepStatus, incrementRetry: bool) returns (error: Option<Error>)
      requires Valid()
      modifies this
      ensures Valid() && Outcome(Stored(), error) == Transition(old(Stored()), kind, newStatus, incrementRetry)
    {
      hide FirstOpen, AllDone, Find;
      var found := Find(kinds, kind);
      if found.None? { return Some(StepNotFound); }
      var current := found.value;
      if newStatus == Running || newStatus == Done {
        for ordinal := 0 to current
          invariant PredecessorsDone(steps, ordinal)
        {
          if steps[ordinal].status != Done { return Some(PredecessorsOpen); }
        }
      }
      steps := steps[current := Step(newStatus, steps[current].retryCount + (if incrementRetry then 1 else 0))];
      if newStatus == Failed { status := JobFailed; }
      else if newStatus == Blocked { status := WaitingForApproval; }
      else if newStatus == RetryPending { status := JobRetryPending; }
      else if AllDone(steps) { status := Completed; }
      else if status != WaitingForApproval && status != PausedForCompaction { status := JobRunning; }
      activeStepId := FirstOpen(steps);
      error := None;
    }

    method CompleteReachable(kind: Kind)
      requires Valid()
      modifies this
      ensures Valid() && Stored() == CommitIfReachable(old(Stored()), kind)
    {
      var step := Find(kinds, kind);
      if step.None? || steps[step.value].status == Done { return; }
      if !PredecessorsDone(steps, step.value) { return; }
      var _ := TransitionCommandStep(kind, Done, false);
    }

    method SynchronizeCommandJobPreflight(hasPlanRef: bool, mutationExpected: bool, approvalRequired: bool)
      requires Valid()
      modifies this
      ensures Valid() && Stored() == Preflight(old(Stored()), hasPlanRef, mutationExpected, approvalRequired)
    {
      hide CommitIfReachable, Transition;
      CompleteReachable(Route);
      CompleteReachable(Inspect);
      if hasPlanRef {
        CompleteReachable(Plan);
      }
      var patch := Find(kinds, Patch);
      if patch.Some? && steps[patch.value].status == Queued && mutationExpected && !approvalRequired {
        if PredecessorsDone(steps, patch.value) {
          var _ := TransitionCommandStep(Patch, Running, false);
        }
      }
      if approvalRequired {
        status := WaitingForApproval;
      }
    }

    method ResumeCommandJob()
      requires Valid()
      modifies this
      ensures Valid() && Stored() == Resume(old(Stored()))
    {
      if status != JobQueued && status != PausedForCompaction && status != JobRetryPending { return; }
      var active := FirstOpen(steps);
      if active.Some? && steps[active.value].status == RetryPending {
        steps := steps[active.value := steps[active.value].(status := Running)];
      }
      status, activeStepId := JobRunning, active;
    }

    /** Overwrites the active step when it exists and is open. */
    method MarkActiveStep(newStatus: StepStatus, retries: nat)
      requires Valid()
      modifies this
      ensures Valid() && Stored() == MarkActive(old(Stored()), ActiveStep(old(Stored())), newStatus, retries)
    {
      if activeStepId.Some? && activeStepId.value < |steps| && steps[activeStepId.value].status != Done {
        steps := steps[activeStepId.value := Step(newStatus, steps[activeStepId.value].retryCount + retries)];
      }
    }

    method PauseCommandJob(retryPending: bool)
      requires Valid()
      modifies this
      ensures Valid() && Stored() == Pause(old(Stored()), retryPending)
    {
      if activeStepId.Some? && activeStepId.value < |steps| && steps[activeStepId.value].status == Running {
        MarkActiveStep(RetryPending, 1);
      }
      status := if retryPending then JobRetryPending else PausedForCompaction;
    }

    method CompleteCommandJob() returns (error: Option<Error>)
      requires Valid()
      modifies this
      ensures Valid() && Outcome(Stored(), error) == Complete(old(Stored()))
    {
      var deliver := Find(kinds, Deliver);
      if deliver.None? { return Some(StepNotFound); }
      for ordinal := 0 to |steps|
        invariant Valid() && Stored() == old(Stored())
        invariant forall i :: 0 <= i < ordinal ==> kinds[i] == Deliver || !Open(steps[i])
      {
        if kinds[ordinal] != Deliver && steps[ordinal].status != Done { return Some(EvidenceUncommitted); }
      }
      if steps[deliver.value].status != Done {
        error := TransitionCommandStep(Deliver, Done, false);
        if error.Some? { return; }
      }
      status, activeStepId := Completed, None;
      error := None;
    }

    method FailCommandJob()
      requires Valid()
      modifies this
      ensures Valid() && Stored() == Fail(old(Stored()))
    {
      MarkActiveStep(Failed, 0);
      status := JobFailed;
    }

    method CancelCommandJob()
      requires Valid()
      modifies this
      ensures Valid() && Stored() == Cancel(old(Stored()))
    {
      ghost var marked := MarkOpen(Stored(), Blocked).steps;
      for ordinal := 0 to |steps|
        invariant Valid() && status == old(status) && activeStepId == old(activeStepId)
        invariant forall i :: 0 <= i < |steps| ==> steps[i] == if i < ordinal then marked[i] else old(steps)[i]
      {
        if steps[ordinal].status != Done {
          steps := steps[ordinal := steps[ordinal].(status := Blocked)];
        }
      }
      assert steps == marked;
      status, activeStepId := Cancelled, None;
    }

    /** Postflight's commit of one kind of step. */
    method Commit(kind: Kind) returns (error: Option<Error>)
      requires Valid()
      modifies this
      ensures Valid() && Outcome(Stored(), error) == CommitOpen(old(Stored()), kind)
    {
      var current := Find(kinds, kind);
      if current.None? || steps[current.value].status == Done { return None; }
      error := TransitionCommandStep(kind, Done, false);
    }

    /** The tail of postflight: patch, validation, verification, completion. */
    method DeliverJob(v: Evidence) returns (error: Option<Error>)
      requires Valid()
      modifies this
      ensures Valid() && Outcome(Stored(), error) == Deliverance(old(Stored()), v)
    {
      hide CommitOpen, Complete;
      error := Commit(Patch);
      if error.Some? { return; }
      var validate := Find(kinds, Validate);
      if validate.Some? && steps[validate.value].status != Done {
        if v.mutationObserved { return Some(ValidationUncommitted); }
      }
      error := Commit(Validate);
      if error.Some? { return; }
      var verify := Find(kinds, Verify);
      if verify.Some? && steps[verify.value].status != Done {
        var verificationPassed := v.verdicts.verifierPass || v.verdicts.bossApprove;
        var deterministicSubstitute := v.validation == Passed && !v.verdicts.verifierBlock && !v.verdicts.bossBlock;
        if !verificationPassed && !deterministicSubstitute { return Some(VerificationUncommitted); }
      }
      error := Commit(Verify);
      if error.Some? { return; }
      error := CompleteCommandJob();
    }

    method SynchronizeCommandJobPostflight(v: Evidence) returns (error: Option<Error>)
      requires Valid()
      modifies this
      ensures Valid() && Outcome(Stored(), error) == Postflight(old(Stored()), v)
    {
      hide CommitOpen, Deliverance, Fail, Pause, MarkActive, ActiveStep;
      if v.terminalFailure || v.blocked {
        FailCommandJob();
        return None;
      }
      if v.mutationObserved {
        error := Commit(Patch);
        if error.Some? { return; }
      }
      if v.validation == Passed {
        error := Commit(Validate);
        if error.Some? { return; }
      }
      if v.continuing {
        MarkActiveStep(RetryPending, 1);
        PauseCommandJob(true);
        return None;
      }
      if v.waitingForUser {
        MarkActiveStep(Blocked, 0);
        status := WaitingForApproval;
        return None;
      }
      error := DeliverJob(v);
    }
  }
}
