/**
 A durable command job: ordered steps that are committed one after another, and the entry
 points that rewrite the stored job and its steps. Every operation is given as a function
 from the stored entry to the entry left in the store, on exceptional exits too.
 */
module CommandJob {
  import opened Wrappers

  type JobId = string

  datatype Kind = Route | Inspect | Plan | Patch | Validate | Verify | Deliver

  datatype StepStatus = Queued | Running | Done | RetryPending | Blocked | Failed

  datatype JobStatus =
    | JobQueued | JobRunning | PausedForCompaction | WaitingForApproval
    | JobRetryPending | Completed | JobFailed | Cancelled

  /** The columns of a step row that are ever updated; its kind and ordinal never are. */
  datatype Step = Step(status: StepStatus, retryCount: nat)

  /** A job row with its step rows by ordinal; a step's identity is its ordinal. */
  datatype Stored = Entry(status: JobStatus, active: Option<nat>, kinds: seq<Kind>, steps: seq<Step>)

  type Entry = e: Stored | |e.kinds| == |e.steps| witness Entry(JobQueued, None, [], [])

  datatype Error =
    | StepNotFound | PredecessorsOpen | EvidenceUncommitted
    | ValidationUncommitted | VerificationUncommitted

  /** What an entry point leaves in the store, and the error it raised, if any. */
  datatype Outcome = Outcome(entry: Entry, error: Option<Error>)

  datatype TaskType =
    | SimpleChat | MemoryQuestion | RepoQuestion | CodingChange | Debugging | Summarization
    | PlanningOrArchitecture | SecurityOrSecret | DeployOrDestructive | EvalOrBenchmark

  datatype Risk = Low | Medium | High | Critical

  datatype Decision = Decision(taskType: TaskType, risk: Risk, useVerifier: bool, useBoss: bool, requiresApproval: bool)

  function Rank(k: Kind): nat {
    match k
    case Route => 0 case Inspect => 1 case Plan => 2 case Patch => 3
    case Validate => 4 case Verify => 5 case Deliver => 6
  }

  predicate Open(s: Step) { s.status != Done }

  /** How many steps are done before the first one that is not. */
  function Frontier(steps: seq<Step>): (n: nat)
    ensures n <= |steps|
    ensures forall i :: 0 <= i < n ==> steps[i].status == Done
    ensures n < |steps| ==> Open(steps[n])
  {
    if steps == [] || Open(steps[0]) then 0 else 1 + Frontier(steps[1..])
  }

  /** The ordinal of the first step that is not done. */
  function FirstOpen(steps: seq<Step>): Option<nat> {
    if Frontier(steps) < |steps| then Some(Frontier(steps)) else None
  }

  predicate AllDone(steps: seq<Step>) { Frontier(steps) == |steps| }

  predicate PredecessorsDone(steps: seq<Step>, i: nat)
    requires i <= |steps|
  {
    forall j :: 0 <= j < i ==> steps[j].status == Done
  }

  function Find(kinds: seq<Kind>, kind: Kind): (r: Option<nat>)
    ensures r.None? ==> kind !in kinds
    ensures r.Some? ==> r.value < |kinds| && kinds[r.value] == kind
  {
    if kinds == [] then None
    else if kinds[0] == kind then Some(0)
    else
      var rest := Find(kinds[1..], kind);
      if rest.None? then None else Some(rest.value + 1)
  }

  /** The step of this kind exists and is not done. */
  predicate OpenKind(e: Entry, kind: Kind)
  {
    var i := Find(e.kinds, kind);
    i.Some? && Open(e.steps[i.value])
  }

  // ---------- creation ----------

  /** Which steps a routed decision calls for. */
  predicate Needs(d: Decision, k: Kind) {
    match k
    case Route => true
    case Inspect =>
      d.taskType == RepoQuestion || d.taskType == CodingChange || d.taskType == Debugging
      || d.taskType == SecurityOrSecret || d.taskType == DeployOrDestructive
    case Plan => d.taskType != SimpleChat
    case Patch => (d.taskType == CodingChange || d.taskType == DeployOrDestructive)
    case Validate =>
      d.taskType == RepoQuestion || d.taskType == CodingChange || d.taskType == Debugging
      || d.taskType == DeployOrDestructive || d.taskType == EvalOrBenchmark
    case Verify => d.useVerifier || d.useBoss || d.risk == High || d.risk == Critical
    case Deliver => true
  }

  /** The needed kinds of rank below r, once each, by rank. */
  predicate RequiredBelow(d: Decision, kinds: seq<Kind>, r: nat) {
    && (forall k :: k in kinds <==> Needs(d, k) && Rank(k) < r)
    && forall i, j :: 0 <= i < j < |kinds| ==> Rank(kinds[i]) < Rank(kinds[j])
  }

  method PushIfNeeded(d: Decision, kinds: seq<Kind>, k: Kind) returns (r: seq<Kind>)
    requires RequiredBelow(d, kinds, Rank(k))
    ensures RequiredBelow(d, r, Rank(k) + 1)
  {
    assert forall k' :: Rank(k') < Rank(k) + 1 <==> Rank(k') < Rank(k) || k' == k;
    assert forall i :: 0 <= i < |kinds| ==> kinds[i] in kinds;
    r := if Needs(d, k) then kinds + [k] else kinds;
  }

  method RequiredStepKinds(d: Decision) returns (kinds: seq<Kind>)
    ensures RequiredBelow(d, kinds, 7)
  {
    kinds := PushIfNeeded(d, [], Route);
    kinds := PushIfNeeded(d, kinds, Inspect);
    kinds := PushIfNeeded(d, kinds, Plan);
    kinds := PushIfNeeded(d, kinds, Patch);
    kinds := PushIfNeeded(d, kinds, Validate);
    kinds := PushIfNeeded(d, kinds, Verify);
    kinds := PushIfNeeded(d, kinds, Deliver);
  }

  function Created(kinds: seq<Kind>, requiresApproval: bool): Entry {
    Entry(if requiresApproval then WaitingForApproval else JobRunning, Some(0), kinds,
          seq(|kinds|, i requires 0 <= i < |kinds| => Step(if kinds[i] == Route then Running else Queued, 0)))
  }

  // ---------- entry points ----------

  function SetStep(e: Entry, i: nat, s: Step): Entry
    requires i < |e.steps|
  {
    e.(steps := e.steps[i := s])
  }

  /** The stored active step, when the job names one that exists. */
  function ActiveStep(e: Entry): Option<nat> {
    if e.active.Some? && e.active.value < |e.steps| then e.active else None
  }

  /** The active step, if it exists and is open, with another status and perhaps one more retry. */
  function MarkActive(e: Entry, active: Option<nat>, status: StepStatus, retries: nat): Entry {
    if active.Some? && active.value < |e.steps| && Open(e.steps[active.value])
    then SetStep(e, active.value, Step(status, e.steps[active.value].retryCount + retries))
    else e
  }

  function MarkOpen(e: Entry, status: StepStatus): Entry {
    e.(steps := seq(|e.steps|, i requires 0 <= i < |e.steps| =>
      if Open(e.steps[i]) then e.steps[i].(status := status) else e.steps[i]))
  }

  function Transition(e: Entry, kind: Kind, status: StepStatus, incrementRetry: bool): Outcome
  {
    var found := Find(e.kinds, kind);
    if found.None? then Outcome(e, Some(StepNotFound)) else
      var i := found.value;
      if (status == Running || status == Done) && !PredecessorsDone(e.steps, i) then Outcome(e, Some(PredecessorsOpen)) else
        var s := e.steps[i];
        var steps := e.steps[i := Step(status, s.retryCount + (if incrementRetry then 1 else 0))];
        var jobStatus :=
          if status == Failed then JobFailed
          else if status == Blocked then WaitingForApproval
          else if status == RetryPending then JobRetryPending
          else if AllDone(steps) then Completed
          else if e.status == WaitingForApproval || e.status == PausedForCompaction then e.status
          else JobRunning;
        Outcome(Entry(jobStatus, FirstOpen(steps), e.kinds, steps), None)
  }

  /** Preflight's own commit: it skips a step that is absent, done, or not yet reachable. */
  function CommitIfReachable(e: Entry, kind: Kind): Entry
  {
    var i := Find(e.kinds, kind);
    if i.None? || !Open(e.steps[i.value]) || !PredecessorsDone(e.steps, i.value) then e
    else Transition(e, kind, Done, false).entry
  }

  function Preflight(e: Entry, hasPlanRef: bool, mutationExpected: bool, approvalRequired: bool): Entry
  {
    var e1 := CommitIfReachable(CommitIfReachable(e, Route), Inspect);
    var e2 := if hasPlanRef then CommitIfReachable(e1, Plan) else e1;
    var patch := Find(e2.kinds, Patch);
    var e3 :=
      if patch.Some? && e2.steps[patch.value].status == Queued && mutationExpected && !approvalRequired
         && PredecessorsDone(e2.steps, patch.value)
      then Transition(e2, Patch, Running, false).entry else e2;
    if approvalRequired then e3.(status := WaitingForApproval) else e3
  }

  function Resume(e: Entry): Entry {
    if e.status != JobQueued && e.status != PausedForCompaction && e.status != JobRetryPending then e else
      var active := FirstOpen(e.steps);
      var e1 := if active.Some? && e.steps[active.value].status == RetryPending
                then MarkActive(e, active, Running, 0) else e;
      e1.(status := JobRunning, active := active)
  }

  function Pause(e: Entry, retryPending: bool): Entry {
    var active := ActiveStep(e);
    var e1 := if active.Some? && e.steps[active.value].status == Running
              then MarkActive(e, active, RetryPending, 1) else e;
    e1.(status := if retryPending then JobRetryPending else PausedForCompaction)
  }

  function Complete(e: Entry): Outcome {
    var deliver := Find(e.kinds, Deliver);
    if deliver.None? then Outcome(e, Some(StepNotFound))
    else if exists i :: 0 <= i < |e.steps| && e.kinds[i] != Deliver && Open(e.steps[i])
    then Outcome(e, Some(EvidenceUncommitted))
    else
      var o := if Open(e.steps[deliver.value]) then Transition(e, Deliver, Done, false) else Outcome(e, None);
      if o.error.Some? then o else Outcome(o.entry.(status := Completed, active := None), None)
  }

  function Cancel(e: Entry): Entry { MarkOpen(e, Blocked).(status := Cancelled, active := None) }

  function Fail(e: Entry): Entry { MarkActive(e, ActiveStep(e), Failed, 0).(status := JobFailed) }

  datatype Validation = Passed | NotPassed | Unknown

  datatype Verdicts = Verdicts(verifierPass: bool, verifierBlock: bool, bossApprove: bool, bossBlock: bool)

  datatype Evidence = Evidence(
    mutationObserved: bool, validation: Validation, verdicts: Verdicts,
    continuing: bool, waitingForUser: bool, terminalFailure: bool, blocked: bool)

  /** Postflight's own commit: unlike preflight's, it raises when a predecessor is open. */
  function CommitOpen(e: Entry, kind: Kind): Outcome {
    if OpenKind(e, kind) then Transition(e, kind, Done, false) else Outcome(e, None)
  }

  function Continue(e: Entry): Entry { Pause(MarkActive(e, ActiveStep(e), RetryPending, 1), true) }

  function AwaitUser(e: Entry): Entry {
    MarkActive(e, ActiveStep(e), Blocked, 0).(status := WaitingForApproval)
  }

  /** The steps of a delivery: patch, validation, verification, completion. */
  function Deliverance(e: Entry, v: Evidence): Outcome {
    var o1 := CommitOpen(e, Patch);
    if o1.error.Some? then o1 else
      if OpenKind(o1.entry, Validate) && v.mutationObserved then Outcome(o1.entry, Some(ValidationUncommitted)) else
        var o2 := CommitOpen(o1.entry, Validate);
        if o2.error.Some? then o2 else
          var verificationPassed := v.verdicts.verifierPass || v.verdicts.bossApprove;
          var deterministicSubstitute := v.validation == Passed && !v.verdicts.verifierBlock && !v.verdicts.bossBlock;
          if OpenKind(o2.entry, Verify) && !verificationPassed && !deterministicSubstitute
          then Outcome(o2.entry, Some(VerificationUncommitted))
          else
            var o3 := CommitOpen(o2.entry, Verify);
            if o3.error.Some? then o3 else Complete(o3.entry)
  }

  function Postflight(e: Entry, v: Evidence): Outcome {
    if v.terminalFailure || v.blocked then Outcome(Fail(e), None) else
      var o1 := if v.mutationObserved then CommitOpen(e, Patch) else Outcome(e, None);
      if o1.error.Some? then o1 else
        var o2 := if v.validation == Passed then CommitOpen(o1.entry, Validate) else o1;
        if o2.error.Some? then o2
        else if v.continuing then Outcome(Continue(o2.entry), None)
        else if v.waitingForUser then Outcome(AwaitUser(o2.entry), None)
        else Deliverance(o2.entry, v)
  }

  /** The status of the root task a restarted process finds beside an unfinished job. */
  datatype RootTask = RootMissing | RootCompleted | RootFailed | RootCancelled | RootWaiting | RootActive

  /** What a process restart does to a stored job. */
  function Recover(e: Entry, root: RootTask): Entry {
    if e.status == Completed || e.status == JobFailed || e.status == Cancelled then e else
      var active := if ActiveStep(e).Some? then ActiveStep(e) else FirstOpen(e.steps);
      match root
      case RootMissing => MarkOpen(e, Failed).(status := JobFailed, active := None)
      case RootCompleted => MarkOpen(e, Done).(status := Completed, active := None)
      case RootFailed => MarkOpen(e, Failed).(status := JobFailed, active := None)
      case RootCancelled => MarkOpen(e, Failed).(status := Cancelled, active := None)
      case RootWaiting => MarkActive(e, active, Blocked, 0).(status := WaitingForApproval, active := active)
      case RootActive => MarkActive(e, active, RetryPending, 1).(status := JobRetryPending, active := active)
  }

  // ---------- the invariant ----------

  /** Kinds appear once each, in the order of their rank, from route to deliver. */
  predicate Ordered(kinds: seq<Kind>) {
    && |kinds| > 0 && kinds[0] == Route && kinds[|kinds| - 1] == Deliver
    && forall i, j {:trigger Rank(kinds[i]), Rank(kinds[j])} :: 0 <= i < j < |kinds| ==> Rank(kinds[i]) < Rank(kinds[j])
  }

  /** Done steps form a prefix by ordinal. */
  predicate PrefixDone(steps: seq<Step>) {
    forall i :: Frontier(steps) <= i < |steps| ==> Open(steps[i])
  }

  predicate Inv(e: Entry) {
    && Ordered(e.kinds)
    && PrefixDone(e.steps)
    && (e.active.None? || e.active == FirstOpen(e.steps))
    && (e.status == Completed ==> AllDone(e.steps))
  }

  /** Same steps; what was done stays done; retries never go down. */
  predicate Evolves(e: Entry, e': Entry) {
    && e'.kinds == e.kinds
    && forall i :: 0 <= i < |e.steps| ==>
         && e'.steps[i].retryCount >= e.steps[i].retryCount
         && (e.steps[i].status == Done ==> e'.steps[i].status == Done)
  }

  predicate SameRetries(e: Entry, e': Entry) {
    && e'.kinds == e.kinds
    && forall i :: 0 <= i < |e.steps| ==> e'.steps[i].retryCount == e.steps[i].retryCount
  }

  lemma PrefixDoneMeansPrefix(steps: seq<Step>)
    ensures PrefixDone(steps) <==>
            forall i, j :: 0 <= i < j < |steps| && steps[j].status == Done ==> steps[i].status == Done
  {
    var n := Frontier(steps);
    if !PrefixDone(steps) {
      var j :| n <= j < |steps| && !Open(steps[j]);
      assert n < j && steps[n].status != Done && steps[j].status == Done;
    }
  }

  lemma FindUnique(kinds: seq<Kind>, i: nat)
    requires Ordered(kinds) && i < |kinds|
    ensures Find(kinds, kinds[i]) == Some(i)
  {
    var r := Find(kinds, kinds[i]).value;
    assert Rank(kinds[r]) == Rank(kinds[i]);
  }

  lemma RequiredEnds(d: Decision, kinds: seq<Kind>)
    requires RequiredBelow(d, kinds, 7)
    ensures kinds != [] && kinds[0] == Route && kinds[|kinds| - 1] == Deliver
  {
    assert Route in kinds && Deliver in kinds;
    var i :| 0 <= i < |kinds| && kinds[i] == Route;
    var j :| 0 <= j < |kinds| && kinds[j] == Deliver;
    assert Rank(kinds[0]) >= Rank(kinds[i]) && Rank(kinds[j]) >= Rank(kinds[|kinds| - 1]);
  }

  /** The steps a decision requires make a well-formed job. */
  lemma CreatedInv(d: Decision, kinds: seq<Kind>)
    requires RequiredBelow(d, kinds, 7)
    ensures Inv(Created(kinds, d.requiresApproval))
    ensures var e := Created(kinds, d.requiresApproval);
      && e.kinds == kinds && e.active == Some(0) && e.steps[0] == Step(Running, 0)
      && (forall i :: 0 < i < |e.steps| ==> e.steps[i] == Step(Queued, 0))
      && e.status == (if d.requiresApproval then WaitingForApproval else JobRunning)
  {
    RequiredEnds(d, kinds);
    assert Ordered(kinds);
    assert Open(Created(kinds, d.requiresApproval).steps[0]);
  }

  // ---------- what every entry point keeps ----------

  /** Rewriting an entry without opening or closing a step. */
  lemma SameOpenness(e: Entry, e': Entry)
    requires Inv(e) && e'.kinds == e.kinds
    requires forall i :: 0 <= i < |e.steps| ==>
               && (Open(e'.steps[i]) <==> Open(e.steps[i])) && e'.steps[i].retryCount >= e.steps[i].retryCount
    requires e'.active.None? || e'.active == FirstOpen(e.steps)
    requires e'.status == Completed ==> AllDone(e.steps)
    ensures Inv(e') && Evolves(e, e') && Frontier(e'.steps) == Frontier(e.steps)
  {
    var n, n' := Frontier(e.steps), Frontier(e'.steps);
    assert n < |e.steps| ==> Open(e.steps[n]) && Open(e'.steps[n]);
    assert n' < |e.steps| ==> Open(e'.steps[n']) && Open(e.steps[n']);
  }

  lemma CommitAtFrontier(steps: seq<Step>, steps': seq<Step>)
    requires PrefixDone(steps) && Frontier(steps) < |steps| == |steps'|
    requires steps' == steps[Frontier(steps) := steps'[Frontier(steps)]] && !Open(steps'[Frontier(steps)])
    ensures PrefixDone(steps') && Frontier(steps') == Frontier(steps) + 1
  {
    var n, n' := Frontier(steps), Frontier(steps');
    assert n' < |steps| ==> Open(steps'[n']);
    assert n + 1 < |steps| ==> Open(steps[n + 1]) && Open(steps'[n + 1]);
  }

  /** A commit succeeds only at the frontier, which it moves by one. */
  lemma CommitKeeps(e: Entry, kind: Kind, retry: bool)
    requires Inv(e) && OpenKind(e, kind)
    ensures var o, i := Transition(e, kind, Done, retry), Find(e.kinds, kind).value;
      && (o.error.None? <==> i == Frontier(e.steps))
      && (o.error.None? ==> Inv(o.entry) && Evolves(e, o.entry) && Frontier(o.entry.steps) == i + 1
                            && o.entry.active == FirstOpen(o.entry.steps))
      && (o.error.Some? ==> o == Outcome(e, Some(PredecessorsOpen)))
  {
    hide Ordered;
    var o, i := Transition(e, kind, Done, retry), Find(e.kinds, kind).value;
    assert PredecessorsDone(e.steps, i) <==> i <= Frontier(e.steps);
    if o.error.None? {
      CommitAtFrontier(e.steps, o.entry.steps);
    }
  }

  lemma TransitionKeeps(e: Entry, kind: Kind, status: StepStatus, retry: bool)
    requires Inv(e) && (OpenKind(e, kind) || status == Done)
    ensures var o := Transition(e, kind, status, retry); Inv(o.entry) && Evolves(e, o.entry)
  {
    var o := Transition(e, kind, status, retry);
    if status == Done && OpenKind(e, kind) {
      CommitKeeps(e, kind, retry);
    } else if o.error.None? {
      var i := Find(e.kinds, kind).value;
      assert Open(e.steps[i]) <==> Open(o.entry.steps[i]);
      TransitionSameOpenness(e, o.entry, i);
    }
  }

  lemma TransitionSameOpenness(e: Entry, e': Entry, i: nat)
    requires Inv(e) && i < |e.steps| && e'.kinds == e.kinds && e'.steps == e.steps[i := e'.steps[i]]
    requires (Open(e.steps[i]) <==> Open(e'.steps[i])) && e'.steps[i].retryCount >= e.steps[i].retryCount
    requires e'.active == FirstOpen(e'.steps) && (e'.status == Completed ==> e'.status == e.status || AllDone(e'.steps))
    ensures Inv(e') && Evolves(e, e') && Frontier(e'.steps) == Frontier(e.steps)
  {
    SameOpenness(e, e'.(active := None, status := JobRunning));
  }

  /** Reopening is the one thing a bare transition does not refuse: it loses a done step exactly then. */
  lemma TransitionReopensIff(e: Entry, kind: Kind, status: StepStatus, retry: bool)
    requires Inv(e)
    ensures var o := Transition(e, kind, status, retry);
      Evolves(e, o.entry) <==> kind !in e.kinds || OpenKind(e, kind) || status == Done
  {
    var o, found := Transition(e, kind, status, retry), Find(e.kinds, kind);
    if o.error.None? && !OpenKind(e, kind) && status != Done {
      assert e.steps[found.value].status == Done && o.entry.steps[found.value].status != Done;
    }
  }

  lemma EvolvesTransitive(a: Entry, b: Entry, c: Entry)
    requires Evolves(a, b) && Evolves(b, c)
    ensures Evolves(a, c)
  {
  }

  /** Every step of lower rank is done. */
  predicate DoneBelow(e: Entry, rank: nat) {
    forall i :: 0 <= i < |e.kinds| && Rank(e.kinds[i]) < rank ==> e.steps[i].status == Done
  }

  lemma RankOrder(kinds: seq<Kind>, i: nat, j: nat)
    requires Ordered(kinds) && i < |kinds| && j < |kinds|
    ensures i < j <==> Rank(kinds[i]) < Rank(kinds[j])
  {
  }

  lemma DoneBelowAtFrontier(e: Entry, i: nat)
    requires Inv(e) && i < |e.kinds| && i <= Frontier(e.steps)
    ensures DoneBelow(e, Rank(e.kinds[i]))
  {
    forall j | 0 <= j < |e.kinds| && Rank(e.kinds[j]) < Rank(e.kinds[i]) ensures e.steps[j].status == Done {
      RankOrder(e.kinds, j, i);
    }
  }

  /** A kind can be committed exactly when every step of lower rank is done. */
  lemma AtFrontierIff(e: Entry, kind: Kind)
    requires Inv(e) && OpenKind(e, kind)
    ensures Find(e.kinds, kind).value == Frontier(e.steps) <==> DoneBelow(e, Rank(kind))
  {
    var i, n := Find(e.kinds, kind).value, Frontier(e.steps);
    assert n <= i;
    if n == i {
      DoneBelowAtFrontier(e, i);
    } else {
      RankOrder(e.kinds, n, i);
      assert Open(e.steps[n]);
    }
  }

  lemma OnlyKindCommitted(e: Entry, e': Entry, kind: Kind)
    requires Inv(e) && OpenKind(e, kind) && e'.kinds == e.kinds
    requires var i := Find(e.kinds, kind).value; e'.steps == e.steps[i := e'.steps[i]] && !Open(e'.steps[i])
    ensures forall k :: OpenKind(e', k) <==> OpenKind(e, k) && k != kind
    ensures forall r: nat :: r <= Rank(kind) ==> (DoneBelow(e', r) <==> DoneBelow(e, r))
    ensures DoneBelow(e, Rank(kind)) ==> DoneBelow(e', Rank(kind) + 1)
  {
    var i := Find(e.kinds, kind).value;
    forall j | 0 <= j < |e.kinds| && Rank(e.kinds[j]) == Rank(kind) ensures j == i {
      FindUnique(e.kinds, j);
    }
  }

  /** What a commit leaves open, and how far it carries the done ranks. */
  predicate Committed(e: Entry, kind: Kind, e': Entry) {
    && Inv(e') && Evolves(e, e') && SameRetries(e, e')
    && (forall k :: OpenKind(e', k) <==> OpenKind(e, k) && k != kind)
    && (forall r: nat :: r <= Rank(kind) ==> (DoneBelow(e', r) <==> DoneBelow(e, r)))
    && (DoneBelow(e, Rank(kind)) ==> DoneBelow(e', Rank(kind) + 1))
  }

  lemma CommitOpenWhenOpen(e: Entry, kind: Kind)
    requires Inv(e) && OpenKind(e, kind)
    ensures var o := CommitOpen(e, kind);
      && (o.error.None? <==> DoneBelow(e, Rank(kind)))
      && (o.error.Some? ==> o == Outcome(e, Some(PredecessorsOpen)))
      && (o.error.None? ==> Committed(e, kind, o.entry))
  {
    hide Ordered, PrefixDone, DoneBelow, Evolves, FirstOpen, AllDone;
    CommitKeeps(e, kind, false);
    AtFrontierIff(e, kind);
    var o := CommitOpen(e, kind);
    if o.error.None? {
      OnlyKindCommitted(e, o.entry, kind);
    }
  }

  lemma CommitOpenWhenDone(e: Entry, kind: Kind)
    requires Inv(e) && !OpenKind(e, kind)
    ensures CommitOpen(e, kind) == Outcome(e, None) && Committed(e, kind, e)
  {
    hide PrefixDone, FirstOpen, AllDone;
    forall i | 0 <= i < |e.kinds| && Rank(e.kinds[i]) == Rank(kind) ensures e.steps[i].status == Done {
      FindUnique(e.kinds, i);
    }
  }

  /** Postflight's commit raises exactly on an open step with an open step of lower rank, and then changes nothing. */
  lemma CommitOpenExact(e: Entry, kind: Kind)
    requires Inv(e)
    ensures var o := CommitOpen(e, kind);
      && (o.error.Some? <==> OpenKind(e, kind) && !DoneBelow(e, Rank(kind)))
      && (o.error.Some? ==> o == Outcome(e, Some(PredecessorsOpen)))
      && (o.error.None? ==> Committed(e, kind, o.entry))
  {
    if OpenKind(e, kind) {
      CommitOpenWhenOpen(e, kind);
    } else {
      CommitOpenWhenDone(e, kind);
    }
  }

  /** Preflight's commit is postflight's with the error swallowed. */
  lemma CommitIfReachableIsCommitOpen(e: Entry, kind: Kind)
    ensures CommitIfReachable(e, kind) == CommitOpen(e, kind).entry
  {
  }

  lemma NothingBelowZero(e: Entry)
    ensures DoneBelow(e, 0) && Evolves(e, e)
  {
  }

  lemma CommitIfReachableKeeps(e: Entry, kind: Kind)
    requires Inv(e)
    ensures var e' := CommitIfReachable(e, kind);
      Inv(e') && Evolves(e, e') && (DoneBelow(e, Rank(kind)) ==> DoneBelow(e', Rank(kind) + 1))
  {
    CommitOpenExact(e, kind);
    CommitIfReachableIsCommitOpen(e, kind);
  }

  lemma PreflightCommitsTo(e: Entry, hasPlanRef: bool) returns (e2: Entry)
    requires Inv(e)
    ensures var e1 := CommitIfReachable(CommitIfReachable(e, Route), Inspect);
      e2 == if hasPlanRef then CommitIfReachable(e1, Plan) else e1
    ensures Inv(e2) && Evolves(e, e2) && DoneBelow(e2, if hasPlanRef then 3 else 2)
  {
    hide CommitIfReachable, Inv, Evolves, DoneBelow;
    NothingBelowZero(e);
    CommitIfReachableKeeps(e, Route);
    var e0 := CommitIfReachable(e, Route);
    CommitIfReachableKeeps(e0, Inspect);
    var e1 := CommitIfReachable(e0, Inspect);
    EvolvesTransitive(e, e0, e1);
    e2 := e1;
    if hasPlanRef {
      CommitIfReachableKeeps(e1, Plan);
      e2 := CommitIfReachable(e1, Plan);
      EvolvesTransitive(e, e1, e2);
    }
  }

  /**
   Preflight always commits route and inspect, and plan too once it has a plan reference;
   it never raises, whatever state the steps were in.
   */
  lemma PreflightCommitsUpToPlan(e: Entry, hasPlanRef: bool, mutationExpected: bool, approvalRequired: bool)
    requires Inv(e)
    ensures var e' := Preflight(e, hasPlanRef, mutationExpected, approvalRequired);
      Inv(e') && Evolves(e, e') && DoneBelow(e', if hasPlanRef then 3 else 2)
  {
    hide CommitIfReachable, Transition, Ordered, PrefixDone, AllDone, FirstOpen, Evolves, DoneBelow, PredecessorsDone;
    var rank := if hasPlanRef then 3 else 2;
    var e2 := PreflightCommitsTo(e, hasPlanRef);
    var e3 := e2;
    if OpenKind(e2, Patch) {
      TransitionKeeps(e2, Patch, Running, false);
      var started := Transition(e2, Patch, Running, false).entry;
      EvolvesTransitive(e, e2, started);
      DoneBelowEvolves(e2, started, rank);
      var i := Find(e2.kinds, Patch).value;
      if e2.steps[i].status == Queued && mutationExpected && !approvalRequired && PredecessorsDone(e2.steps, i) {
        e3 := started;
      }
    }
    StatusIrrelevant(e, e3, rank);
    assert Preflight(e, hasPlanRef, mutationExpected, approvalRequired)
        == if approvalRequired then e3.(status := WaitingForApproval) else e3;
  }

  lemma DoneBelowEvolves(e: Entry, e': Entry, rank: nat)
    requires Evolves(e, e') && DoneBelow(e, rank)
    ensures DoneBelow(e', rank)
  {
  }

  lemma StatusIrrelevant(e: Entry, e': Entry, rank: nat)
    ensures forall status :: Evolves(e, e'.(status := status)) == Evolves(e, e')
    ensures forall status :: DoneBelow(e'.(status := status), rank) == DoneBelow(e', rank)
  {
  }

  lemma MarkActiveKeeps(e: Entry, active: Option<nat>, status: StepStatus, retries: nat)
    requires Inv(e) && status != Done
    ensures var e' := MarkActive(e, active, status, retries);
      Inv(e') && Evolves(e, e') && Frontier(e'.steps) == Frontier(e.steps)
  {
    SameOpenness(e, MarkActive(e, active, status, retries));
  }

  lemma ResumeKeeps(e: Entry)
    requires Inv(e)
    ensures Inv(Resume(e)) && Evolves(e, Resume(e))
  {
    MarkActiveKeeps(e, FirstOpen(e.steps), Running, 0);
  }

  lemma PauseKeeps(e: Entry, retryPending: bool)
    requires Inv(e)
    ensures Inv(Pause(e, retryPending)) && Evolves(e, Pause(e, retryPending))
  {
    MarkActiveKeeps(e, ActiveStep(e), RetryPending, 1);
  }

  lemma FailKeeps(e: Entry)
    requires Inv(e)
    ensures Inv(Fail(e)) && Evolves(e, Fail(e))
  {
    MarkActiveKeeps(e, ActiveStep(e), Failed, 0);
  }

  lemma CancelKeeps(e: Entry)
    requires Inv(e)
    ensures Inv(Cancel(e)) && Evolves(e, Cancel(e))
  {
    SameOpenness(e, Cancel(e));
  }

  lemma {:induction false} AllDoneWhen(steps: seq<Step>)
    requires forall i :: 0 <= i < |steps| ==> steps[i].status == Done
    ensures AllDone(steps)
  {
    if steps != [] {
      AllDoneWhen(steps[1..]);
    }
  }

  lemma MarkOpenKeeps(e: Entry, status: StepStatus, after: JobStatus)
    requires Inv(e) && status != Done && after != Completed
    ensures var e' := MarkOpen(e, status).(status := after, active := None); Inv(e') && Evolves(e, e')
  {
    SameOpenness(e, MarkOpen(e, status).(status := after, active := None));
  }

  lemma MarkAllDoneKeeps(e: Entry)
    requires Inv(e)
    ensures var e' := MarkOpen(e, Done).(status := Completed, active := None); Inv(e') && Evolves(e, e')
  {
    hide Ordered;
    AllDoneWhen(MarkOpen(e, Done).steps);
  }

  lemma MarkRecoveredKeeps(e: Entry, status: StepStatus, retries: nat, after: JobStatus)
    requires Inv(e) && status != Done && after != Completed
    ensures var active := if ActiveStep(e).Some? then ActiveStep(e) else FirstOpen(e.steps);
      var e' := MarkActive(e, active, status, retries).(status := after, active := active);
      Inv(e') && Evolves(e, e')
  {
    var active := if ActiveStep(e).Some? then ActiveStep(e) else FirstOpen(e.steps);
    SameOpenness(e, MarkActive(e, active, status, retries).(status := after, active := active));
  }

  lemma RecoverKeeps(e: Entry, root: RootTask)
    requires Inv(e)
    ensures Inv(Recover(e, root)) && Evolves(e, Recover(e, root))
  {
    hide Inv, MarkOpen, MarkActive, ActiveStep, FirstOpen;
    match root {
      case RootMissing => MarkOpenKeeps(e, Failed, JobFailed);
      case RootFailed => MarkOpenKeeps(e, Failed, JobFailed);
      case RootCancelled => MarkOpenKeeps(e, Failed, Cancelled);
      case RootCompleted => MarkAllDoneKeeps(e);
      case RootWaiting => MarkRecoveredKeeps(e, Blocked, 0, WaitingForApproval);
      case RootActive => MarkRecoveredKeeps(e, RetryPending, 1, JobRetryPending);
    }
  }

  /** With everything else done, the deliver step is done or stands at the frontier. */
  lemma DeliverLast(e: Entry)
    requires Inv(e)
    ensures Find(e.kinds, Deliver) == Some(|e.kinds| - 1)
    ensures DoneBelow(e, 6) <==> !exists i :: 0 <= i < |e.steps| && e.kinds[i] != Deliver && Open(e.steps[i])
    ensures DoneBelow(e, 6) ==> Frontier(e.steps) == if OpenKind(e, Deliver) then |e.steps| - 1 else |e.steps|
  {
    var last := |e.kinds| - 1;
    FindUnique(e.kinds, last);
    assert forall k: Kind :: k != Deliver <==> Rank(k) < 6;
    if DoneBelow(e, 6) {
      forall i | 0 <= i < last ensures e.steps[i].status == Done {
        RankOrder(e.kinds, i, last);
      }
      var n := Frontier(e.steps);
      assert n < |e.steps| ==> !(n < last);
    }
  }

  /** Completion demands every other step done, and then leaves all of them done. */
  lemma CompleteExact(e: Entry)
    requires Inv(e)
    ensures var o := Complete(e);
      && Inv(o.entry) && Evolves(e, o.entry)
      && (o.error.None? <==> DoneBelow(e, Rank(Deliver)))
      && (o.error.Some? ==> o == Outcome(e, Some(EvidenceUncommitted)))
      && (o.error.None? ==> AllDone(o.entry.steps) && o.entry.status == Completed && o.entry.active.None?)
  {
    hide Complete, DoneBelow, Transition, Ordered;
    CompleteCases(e);
    DeliverLast(e);
    if DoneBelow(e, 6) && OpenKind(e, Deliver) {
      CommitKeeps(e, Deliver, false);
    }
  }

  /** Completion, by whether the other steps and the deliver step are done. */
  lemma CompleteCases(e: Entry)
    requires Inv(e)
    ensures !DoneBelow(e, 6) ==> Complete(e) == Outcome(e, Some(EvidenceUncommitted))
    ensures DoneBelow(e, 6) ==>
      var o := if OpenKind(e, Deliver) then Transition(e, Deliver, Done, false) else Outcome(e, None);
      Complete(e) == if o.error.Some? then o else Outcome(o.entry.(status := Completed, active := None), None)
  {
    hide Transition, DoneBelow, PrefixDone, AllDone;
    DeliverLast(e);
  }

  lemma ContinueKeeps(e: Entry)
    requires Inv(e)
    ensures Inv(Continue(e)) && Evolves(e, Continue(e))
  {
    var e1 := MarkActive(e, ActiveStep(e), RetryPending, 1);
    MarkActiveKeeps(e, ActiveStep(e), RetryPending, 1);
    PauseKeeps(e1, true);
    EvolvesTransitive(e, e1, Continue(e));
  }

  // ---------- postflight ----------

  lemma DeliveranceKeeps(e: Entry, v: Evidence)
    requires Inv(e)
    ensures Inv(Deliverance(e, v).entry) && Evolves(e, Deliverance(e, v).entry)
  {
    hide CommitOpen, Complete, Inv, Evolves, DoneBelow, OpenKind;
    NothingBelowZero(e);
    CommitOpenExact(e, Patch);
    var e1 := CommitOpen(e, Patch).entry;
    CommitOpenExact(e1, Validate);
    var e2 := CommitOpen(e1, Validate).entry;
    CommitOpenExact(e2, Verify);
    var e3 := CommitOpen(e2, Verify).entry;
    CompleteExact(e3);
    EvolvesTransitive(e, e1, e2);
    EvolvesTransitive(e, e2, e3);
    EvolvesTransitive(e, e3, Complete(e3).entry);
  }

  lemma PostflightKeeps(e: Entry, v: Evidence)
    requires Inv(e)
    ensures Inv(Postflight(e, v).entry) && Evolves(e, Postflight(e, v).entry)
  {
    hide CommitOpen, Deliverance, Continue, AwaitUser, Fail, Inv, Evolves, DoneBelow, OpenKind;
    NothingBelowZero(e);
    FailKeeps(e);
    CommitOpenExact(e, Patch);
    var e1 := if v.mutationObserved then CommitOpen(e, Patch).entry else e;
    CommitOpenExact(e1, Validate);
    var e2 := if v.validation == Passed then CommitOpen(e1, Validate).entry else e1;
    EvolvesTransitive(e, e1, e2);
    ContinueKeeps(e2);
    AwaitUserKeeps(e2);
    DeliveranceKeeps(e2, v);
    EvolvesTransitive(e, e2, Continue(e2));
    EvolvesTransitive(e, e2, AwaitUser(e2));
    EvolvesTransitive(e, e2, Deliverance(e2, v).entry);
  }

  lemma AwaitUserKeeps(e: Entry)
    requires Inv(e)
    ensures Inv(AwaitUser(e)) && Evolves(e, AwaitUser(e))
  {
    MarkActiveKeeps(e, ActiveStep(e), Blocked, 0);
  }

  /** A review passed, or validation did and no review blocks. */
  predicate VerificationEvidence(v: Evidence) {
    || v.verdicts.verifierPass || v.verdicts.bossApprove
    || (v.validation == Passed && !v.verdicts.verifierBlock && !v.verdicts.bossBlock)
  }

  /** When a delivery fails, and with which error. */
  function DeliveranceError(e: Entry, v: Evidence): Option<Error> {
    if OpenKind(e, Patch) && !DoneBelow(e, 3) then Some(PredecessorsOpen)
    else if OpenKind(e, Validate) && v.mutationObserved then Some(ValidationUncommitted)
    else if OpenKind(e, Validate) && !DoneBelow(e, 3) then Some(PredecessorsOpen)
    else if OpenKind(e, Verify) && !VerificationEvidence(v) then Some(VerificationUncommitted)
    else if OpenKind(e, Verify) && !DoneBelow(e, 3) then Some(PredecessorsOpen)
    else if !DoneBelow(e, 3) then Some(EvidenceUncommitted)
    else None
  }

  lemma DoneBelowMonotone(e: Entry, r: nat, r': nat)
    requires r <= r' && DoneBelow(e, r')
    ensures DoneBelow(e, r)
  {
  }

  lemma DoneBelowExtends(e: Entry, kind: Kind)
    requires Inv(e) && !OpenKind(e, kind) && DoneBelow(e, Rank(kind))
    ensures DoneBelow(e, Rank(kind) + 1)
  {
    CommitOpenWhenDone(e, kind);
  }

  lemma DeliveranceExact(e: Entry, v: Evidence)
    requires Inv(e)
    ensures Deliverance(e, v).error == DeliveranceError(e, v)
    ensures Deliverance(e, v).error.None? ==>
              Deliverance(e, v).entry.status == Completed && AllDone(Deliverance(e, v).entry.steps)
  {
    hide CommitOpen, Complete, Inv, Evolves, DoneBelow, OpenKind, AllDone;
    CommitOpenExact(e, Patch);
    var o1 := CommitOpen(e, Patch);
    if o1.error.None? {
      CommitOpenExact(o1.entry, Validate);
      var o2 := CommitOpen(o1.entry, Validate);
      if DoneBelow(o1.entry, 4) { DoneBelowMonotone(o1.entry, 3, 4); }
      if o2.error.None? {
        CommitOpenExact(o2.entry, Verify);
        var o3 := CommitOpen(o2.entry, Verify);
        if DoneBelow(o2.entry, 5) { DoneBelowMonotone(o2.entry, 4, 5); }
        if o3.error.None? {
          CompleteExact(o3.entry);
          if DoneBelow(o3.entry, 6) { DoneBelowMonotone(o3.entry, 5, 6); }
        }
      }
    }
  }

  lemma DoneBelowSplit(e: Entry, kind: Kind)
    requires Inv(e)
    ensures DoneBelow(e, Rank(kind) + 1) <==> DoneBelow(e, Rank(kind)) && !OpenKind(e, kind)
  {
    if DoneBelow(e, Rank(kind)) && !OpenKind(e, kind) {
      DoneBelowExtends(e, kind);
    }
  }

  /**
   When postflight raises, and with which error, for every stored entry and every
   combination of evidence. "Planned" means that route, inspect and plan are committed.
   */
  function PostflightError(e: Entry, v: Evidence): Option<Error> {
    var planned, patchOpen, validateOpen, verifyOpen :=
      DoneBelow(e, 3), OpenKind(e, Patch), OpenKind(e, Validate), OpenKind(e, Verify);
    var passed := v.validation == Passed;
    if v.terminalFailure || v.blocked then None
    else if v.mutationObserved && patchOpen && !planned then Some(PredecessorsOpen)
    else if passed && validateOpen && (!planned || (patchOpen && !v.mutationObserved)) then Some(PredecessorsOpen)
    else if v.continuing || v.waitingForUser then None
    else if patchOpen && !v.mutationObserved && !planned then Some(PredecessorsOpen)
    else if validateOpen && !passed && v.mutationObserved then Some(ValidationUncommitted)
    else if validateOpen && !passed && !planned then Some(PredecessorsOpen)
    else if verifyOpen && !VerificationEvidence(v) then Some(VerificationUncommitted)
    else if !planned then Some(if verifyOpen then PredecessorsOpen else EvidenceUncommitted)
    else None
  }

  /** The entry postflight works on once the observed mutation and a passed validation are committed. */
  function EvidenceCommitted(e: Entry, v: Evidence): Outcome {
    var o1 := if v.mutationObserved then CommitOpen(e, Patch) else Outcome(e, None);
    if o1.error.Some? then o1 else
      if v.validation == Passed then CommitOpen(o1.entry, Validate) else o1
  }

  lemma EvidenceCommittedExact(e: Entry, v: Evidence)
    requires Inv(e)
    ensures var o := EvidenceCommitted(e, v);
      var planned, patchOpen, validateOpen := DoneBelow(e, 3), OpenKind(e, Patch), OpenKind(e, Validate);
      && Inv(o.entry) && Evolves(e, o.entry) && SameRetries(e, o.entry)
      && o.error == (if (v.mutationObserved && patchOpen && !planned)
                        || (v.validation == Passed && validateOpen && (!planned || (patchOpen && !v.mutationObserved)))
                     then Some(PredecessorsOpen) else None)
      && (o.error.None? ==>
            && (DoneBelow(o.entry, 3) <==> planned)
            && (OpenKind(o.entry, Patch) <==> patchOpen && !v.mutationObserved)
            && (OpenKind(o.entry, Validate) <==> validateOpen && v.validation != Passed)
            && (OpenKind(o.entry, Verify) <==> OpenKind(e, Verify))
            && forall k :: OpenKind(o.entry, k) <==>
                 OpenKind(e, k) && !(k == Patch && v.mutationObserved) && !(k == Validate && v.validation == Passed))
  {
    hide CommitOpen, Inv, Evolves, DoneBelow, OpenKind, SameRetries;
    NothingBelowZero(e);
    var e1 := if v.mutationObserved then CommitOpen(e, Patch).entry else e;
    CommitOpenExact(e, Patch);
    DoneBelowSplit(e1, Patch);
    CommitOpenExact(e1, Validate);
    var e2 := CommitOpen(e1, Validate).entry;
    EvolvesTransitive(e, e1, e2);
    SameRetriesTransitive(e, e1, e2);
  }

  lemma SameRetriesTransitive(a: Entry, b: Entry, c: Entry)
    ensures SameRetries(a, a)
    ensures SameRetries(a, b) && SameRetries(b, c) ==> SameRetries(a, c)
  {
  }

  lemma PostflightErrorExact(e: Entry, v: Evidence)
    requires Inv(e)
    ensures Postflight(e, v).error == PostflightError(e, v)
  {
    hide CommitOpen, Deliverance, Continue, AwaitUser, Fail, Inv, Evolves, DoneBelow, OpenKind, SameRetries;
    EvidenceCommittedExact(e, v);
    DeliveranceExact(EvidenceCommitted(e, v).entry, v);
  }

  /**
   With route, inspect and plan committed, the predecessor guard fires in one case only:
   validation passed while patch is open and no mutation was observed.
   */
  lemma GuardFiresIff(e: Entry, v: Evidence)
    requires Inv(e) && DoneBelow(e, Rank(Patch))
    ensures Postflight(e, v).error == Some(PredecessorsOpen) <==>
              && !v.terminalFailure && !v.blocked
              && OpenKind(e, Patch) && OpenKind(e, Validate) && !v.mutationObserved && v.validation == Passed
  {
    PostflightErrorExact(e, v);
    hide Postflight, OpenKind, DoneBelow;
  }

  /** Postflight reports a completed job exactly on the evidence it is meant to demand. */
  lemma CompletedIffEvidence(e: Entry, v: Evidence)
    requires Inv(e)
    ensures var o := Postflight(e, v);
      var patchOpen, validateOpen, passed := OpenKind(e, Patch), OpenKind(e, Validate), v.validation == Passed;
      (o.error.None? && o.entry.status == Completed) <==>
        && !v.terminalFailure && !v.blocked && !v.continuing && !v.waitingForUser
        && DoneBelow(e, Rank(Patch))
        && (validateOpen && v.mutationObserved ==> passed)
        && (OpenKind(e, Verify) ==>
              v.verdicts.verifierPass || v.verdicts.bossApprove
              || (passed && !v.verdicts.verifierBlock && !v.verdicts.bossBlock))
        && !(patchOpen && validateOpen && passed && !v.mutationObserved)
    ensures var o := Postflight(e, v); o.error.None? && o.entry.status == Completed ==> AllDone(o.entry.steps)
  {
    OtherExitsNotCompleted(e);
    hide CommitOpen, Deliverance, Continue, AwaitUser, Fail, Inv, Evolves, DoneBelow, OpenKind, SameRetries, AllDone;
    PostflightErrorExact(e, v);
    EvidenceCommittedExact(e, v);
    var e2 := EvidenceCommitted(e, v).entry;
    OtherExitsNotCompleted(e2);
    DeliveranceExact(e2, v);
  }

  lemma OtherExitsNotCompleted(e: Entry)
    ensures Fail(e).status != Completed && Continue(e).status != Completed && AwaitUser(e).status != Completed
  {
  }

  /** A continuation adds exactly one retry: to the first open step, when the job names it as active. */
  lemma ContinuationRetriesOnce(e: Entry, v: Evidence)
    requires Inv(e) && v.continuing && !v.terminalFailure && !v.blocked && Postflight(e, v).error.None?
    ensures var e', n := Postflight(e, v).entry, Frontier(Postflight(e, v).entry.steps);
      && e'.status == JobRetryPending && e'.kinds == e.kinds
      && (e'.active.Some? ==> e'.active == Some(n) && n < |e'.steps| && e'.steps[n].status == RetryPending)
      && forall i :: 0 <= i < |e'.steps| ==>
           e'.steps[i].retryCount == e.steps[i].retryCount + (if e'.active == Some(i) then 1 else 0)
  {
    hide CommitOpen, Continue, DoneBelow, OpenKind, Inv, Deliverance;
    EvidenceCommittedExact(e, v);
    var e2 := EvidenceCommitted(e, v).entry;
    ContinueMarksActive(e2);
  }

  lemma ContinueMarksActive(e: Entry)
    requires Inv(e)
    ensures var e', n := Continue(e), Frontier(Continue(e).steps);
      && Inv(e') && e'.status == JobRetryPending && e'.kinds == e.kinds && e'.active == e.active
      && (e'.active.Some? ==> e'.active == Some(n) && n < |e'.steps| && e'.steps[n].status == RetryPending)
      && forall i :: 0 <= i < |e'.steps| ==>
           e'.steps[i].retryCount == e.steps[i].retryCount + (if e'.active == Some(i) then 1 else 0)
  {
    ContinueKeeps(e);
    MarkActiveKeeps(e, ActiveStep(e), RetryPending, 1);
  }

  // ---------- whole runs ----------

  datatype Op =
    | CommitOp(kind: Kind, status: StepStatus, incrementRetry: bool)
    | PreflightOp(hasPlanRef: bool, mutationExpected: bool, approvalRequired: bool)
    | PostflightOp(evidence: Evidence)
    | ResumeOp | PauseOp(retryPending: bool) | CompleteOp | CancelOp | FailOp
    | RecoverOp(root: RootTask)

  function Apply(e: Entry, op: Op): Outcome {
    match op
    case CommitOp(kind, status, retry) => Transition(e, kind, status, retry)
    case PreflightOp(planRef, mutation, approval) => Outcome(Preflight(e, planRef, mutation, approval), None)
    case PostflightOp(v) => Postflight(e, v)
    case ResumeOp => Outcome(Resume(e), None)
    case PauseOp(retryPending) => Outcome(Pause(e, retryPending), None)
    case CompleteOp => Complete(e)
    case CancelOp => Outcome(Cancel(e), None)
    case FailOp => Outcome(Fail(e), None)
    case RecoverOp(root) => Outcome(Recover(e, root), None)
  }

  /** The guard every caller of a bare transition supplies: it only touches steps that are not done. */
  predicate CallerGuard(e: Entry, op: Op) {
    op.CommitOp? ==> OpenKind(e, op.kind) || op.status == Done
  }

  /** The stored entry after a run; an operation that raises leaves what it had written. */
  function Run(e: Entry, ops: seq<Op>): Entry
    decreases |ops|
  {
    if ops == [] then e else Run(Apply(e, ops[0]).entry, ops[1..])
  }

  predicate Guarded(e: Entry, ops: seq<Op>)
    decreases |ops|
  {
    ops != [] ==> CallerGuard(e, ops[0]) && Guarded(Apply(e, ops[0]).entry, ops[1..])
  }

  lemma ApplyKeeps(e: Entry, op: Op)
    requires Inv(e) && CallerGuard(e, op)
    ensures Inv(Apply(e, op).entry) && Evolves(e, Apply(e, op).entry)
  {
    hide Transition, Preflight, Postflight, Resume, Pause, Complete, Cancel, Fail, Recover, Inv, Evolves, OpenKind;
    match op {
      case CommitOp(kind, status, retry) => TransitionKeeps(e, kind, status, retry);
      case PreflightOp(planRef, mutation, approval) => PreflightCommitsUpToPlan(e, planRef, mutation, approval);
      case PostflightOp(v) => PostflightKeeps(e, v);
      case ResumeOp => ResumeKeeps(e);
      case PauseOp(retryPending) => PauseKeeps(e, retryPending);
      case CompleteOp => CompleteExact(e);
      case CancelOp => CancelKeeps(e);
      case FailOp => FailKeeps(e);
      case RecoverOp(root) => RecoverKeeps(e, root);
    }
  }

  /**
   From creation through any run of entry points, raising or not: done steps are a prefix
   and never reopen, the active step is the first open one or absent, and a completed job
   has every step done.
   */
  lemma {:induction false} RunKeeps(e: Entry, ops: seq<Op>)
    requires Inv(e) && Guarded(e, ops)
    ensures Inv(Run(e, ops)) && Evolves(e, Run(e, ops))
    decreases |ops|
  {
    hide Apply, CallerGuard, Inv, Evolves;
    if ops == [] {
      NothingBelowZero(e);
    } else {
      var e1 := Apply(e, ops[0]).entry;
      ApplyKeeps(e, ops[0]);
      RunKeeps(e1, ops[1..]);
      EvolvesTransitive(e, e1, Run(e1, ops[1..]));
    }
  }
}
