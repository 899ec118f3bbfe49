/**
 The end of a gateway turn: what the evidence of the turn says of the acceptance checks, whether an
 automatic continuation is scheduled, what becomes of the root task and of its coding task, and what
 the command job is told.
 */
module GatewayPostflight {
  import opened Numbers
  import opened Wrappers
  import C = CognitiveTask
  import J = CommandJob
  import K = CodingTask
  import L = AutonomousLoop
  import Safety = AutonomousLoopSafety
  import S = CommandJobStore

  // ---------- the workspace ----------

  datatype File = File(path: string, present: bool, hash: string)

  datatype WorkspaceState = WorkspaceState(dirtyDiff: string, changed: seq<File>)

  /** The last fingerprint listed for a path. */
  function FingerprintOf(files: seq<File>, path: string): Option<(bool, string)> {
    if files == [] then None
    else
      var last := files[|files| - 1];
      if last.path == path then Some((last.present, last.hash)) else FingerprintOf(files[..|files| - 1], path)
  }

  predicate Lists(files: seq<File>, path: string) { exists i :: 0 <= i < |files| && files[i].path == path }

  function MutationObserved(before: Option<WorkspaceState>, after: Option<WorkspaceState>): bool {
    if before.None? || after.None? then false
    else if before.value.dirtyDiff != after.value.dirtyDiff then true
    else
      || (exists i :: 0 <= i < |after.value.changed|
            && FingerprintOf(before.value.changed, after.value.changed[i].path)
               != Some((after.value.changed[i].present, after.value.changed[i].hash)))
      || (exists i :: 0 <= i < |before.value.changed| && !Lists(after.value.changed, before.value.changed[i].path))
  }

  predicate DistinctPaths(files: seq<File>) {
    forall i, j :: 0 <= i < j < |files| ==> files[i].path != files[j].path
  }

  lemma {:induction false} FingerprintExact(files: seq<File>, i: nat)
    requires DistinctPaths(files) && i < |files|
    ensures FingerprintOf(files, files[i].path) == Some((files[i].present, files[i].hash))
  {
    if i < |files| - 1 {
      FingerprintExact(files[..|files| - 1], i);
    }
  }

  lemma {:induction false} FingerprintMember(files: seq<File>, f: File)
    requires FingerprintOf(files, f.path) == Some((f.present, f.hash))
    ensures f in files
  {
    var n := |files| - 1;
    if files[n].path != f.path {
      FingerprintMember(files[..n], f);
    }
  }

  /** A mutation is observed exactly when both states are known and differ in the dirty diff or in
      the set of changed files. */
  lemma MutationObservedIff(before: WorkspaceState, after: WorkspaceState)
    requires DistinctPaths(before.changed) && DistinctPaths(after.changed)
    ensures MutationObserved(Some(before), Some(after)) <==>
            before.dirtyDiff != after.dirtyDiff || exists f :: (f in before.changed) != (f in after.changed)
  {
    hide DistinctPaths;
    if before.dirtyDiff == after.dirtyDiff {
      if forall f :: f in before.changed <==> f in after.changed {
        forall i | 0 <= i < |after.changed|
          ensures FingerprintOf(before.changed, after.changed[i].path)
                  == Some((after.changed[i].present, after.changed[i].hash))
        {
          assert after.changed[i] in after.changed;
          var j :| 0 <= j < |before.changed| && before.changed[j] == after.changed[i];
          FingerprintExact(before.changed, j);
        }
        forall i | 0 <= i < |before.changed| ensures Lists(after.changed, before.changed[i].path) {
          assert before.changed[i] in after.changed;
        }
      } else {
        var f :| (f in before.changed) != (f in after.changed);
        if f in after.changed {
          var i :| 0 <= i < |after.changed| && after.changed[i] == f;
          if FingerprintOf(before.changed, f.path) == Some((f.present, f.hash)) {
            FingerprintMember(before.changed, f);
          }
        } else {
          LostOrChanged(before.changed, after.changed, f);
        }
      }
    }
  }

  /** A file that was listed and no longer is, is either not listed at all or with another fingerprint. */
  lemma LostOrChanged(before: seq<File>, after: seq<File>, f: File)
    requires DistinctPaths(before) && f in before && f !in after
    ensures (exists i :: 0 <= i < |before| && !Lists(after, before[i].path))
         || (exists i :: 0 <= i < |after| && FingerprintOf(before, after[i].path) != Some((after[i].present, after[i].hash)))
  {
    var k :| 0 <= k < |before| && before[k] == f;
    FingerprintExact(before, k);
    if Lists(after, f.path) {
      var i :| 0 <= i < |after| && after[i].path == f.path;
      assert after[i] != f;
      assert FingerprintOf(before, after[i].path) != Some((after[i].present, after[i].hash));
    } else {
      assert !Lists(after, before[k].path);
    }
  }

  // ---------- acceptance checks from evidence ----------

  datatype ReceiptKind = ToolRun | ValidationRun | WorkspaceRun | ArtifactRun

  datatype ReceiptStatus = ReceiptPassed | ReceiptFailed | ReceiptBlocked | ReceiptUnknown

  datatype Receipt = Receipt(kind: ReceiptKind, status: ReceiptStatus, hasArtifacts: bool, hasChanges: bool)

  /** What a turn supplies: the Host's failure flag and whether it gave a response, its receipts, and
      what was observed of validation and of the workspace. */
  datatype Facts = Facts(
    failed: bool,
    responded: bool,
    receipts: seq<Receipt>,
    validation: J.Validation,
    mutated: bool,
    broken: bool,
    workspaceMutated: bool,
    codingTask: bool,
    useTools: bool)

  predicate IsFailed(r: Receipt) { r.status == ReceiptFailed || r.status == ReceiptBlocked }

  predicate AnyFailed(receipts: seq<Receipt>) { exists i :: 0 <= i < |receipts| && IsFailed(receipts[i]) }

  predicate AllPassed(receipts: seq<Receipt>) {
    receipts != [] && forall i :: 0 <= i < |receipts| ==> receipts[i].status == ReceiptPassed
  }

  predicate ArtifactSupplied(receipts: seq<Receipt>) {
    exists i :: 0 <= i < |receipts| &&
      (receipts[i].kind == ArtifactRun || receipts[i].hasArtifacts || receipts[i].hasChanges)
  }

  predicate ArtifactFailed(receipts: seq<Receipt>) {
    exists i :: 0 <= i < |receipts| && IsFailed(receipts[i]) && receipts[i].kind == ArtifactRun
  }

  function StatusAfter(check: C.Check, f: Facts): C.CheckStatus {
    var changed := f.mutated || f.workspaceMutated;
    if f.failed then C.CheckFailed
    else
      match check.kind
      case ValidationCheck =>
        if f.validation == J.Passed then C.Passed else if f.validation == J.NotPassed then C.CheckFailed else C.Pending
      case Implementation =>
        if f.broken then C.CheckFailed
        else if f.codingTask then (if changed then C.Passed else C.Pending)
        else if AllPassed(f.receipts) then C.Passed
        else check.status
      case Artifact =>
        if ArtifactSupplied(f.receipts) || f.workspaceMutated then C.Passed
        else if ArtifactFailed(f.receipts) then C.CheckFailed
        else C.Pending
      case Response => if f.responded then C.Passed else C.Pending
      case General =>
        if f.useTools then
          if AnyFailed(f.receipts) then C.CheckFailed
          else if AllPassed(f.receipts) || (f.codingTask && f.validation == J.Passed && changed) then C.Passed
          else C.Pending
        else if f.responded then C.Passed
        else C.Pending
  }

  function ChecksAfter(checks: seq<C.Check>, f: Facts): seq<C.Check> {
    seq(|checks|, i requires 0 <= i < |checks| => checks[i].(status := StatusAfter(checks[i], f)))
  }

  /** The required checks are all passed; a turn without a task has none. */
  predicate Satisfied(c: Option<C.Capsule>) {
    c.Some? ==> forall i :: 0 <= i < |c.value.checks| && c.value.checks[i].required ==> c.value.checks[i].status == C.Passed
  }

  /** After a turn the criteria are satisfied exactly when the Host did not fail and each required
      check has its own kind of evidence; a validation check only by a passed validation, and no
      check by a failed turn. */
  lemma SatisfiedIff(c: C.Capsule, f: Facts)
    ensures Satisfied(Some(c.(checks := ChecksAfter(c.checks, f)))) <==>
            forall i :: 0 <= i < |c.checks| && c.checks[i].required ==> Evidenced(c.checks[i], f)
    ensures C.Criteria(ChecksAfter(c.checks, f)) == C.Criteria(c.checks)
  {
    hide AnyFailed, AllPassed, ArtifactSupplied, ArtifactFailed;
    var after := ChecksAfter(c.checks, f);
    forall i | 0 <= i < |c.checks| ensures after[i].status == C.Passed <==> Evidenced(c.checks[i], f) {
      EvidencedIff(c.checks[i], f);
    }
    assert forall i :: 0 <= i < |c.checks| ==> after[i].required == c.checks[i].required;
  }

  predicate Evidenced(check: C.Check, f: Facts) {
    && !f.failed
    && match check.kind
       case ValidationCheck => f.validation == J.Passed
       case Implementation =>
         && !f.broken
         && (if f.codingTask then f.mutated || f.workspaceMutated
             else check.status == C.Passed || (f.receipts != [] && EveryReceipt(f.receipts, {ReceiptPassed})))
       case Artifact =>
         f.workspaceMutated || exists r :: r in f.receipts && (r.kind == ArtifactRun || r.hasArtifacts || r.hasChanges)
       case Response => f.responded
       case General =>
         if f.useTools
         then
           || (f.receipts != [] && EveryReceipt(f.receipts, {ReceiptPassed}))
           || (EveryReceipt(f.receipts, {ReceiptPassed, ReceiptUnknown})
               && f.codingTask && f.validation == J.Passed && (f.mutated || f.workspaceMutated))
         else f.responded
  }

  predicate EveryReceipt(receipts: seq<Receipt>, statuses: set<ReceiptStatus>) {
    forall i :: 0 <= i < |receipts| ==> receipts[i].status in statuses
  }

  lemma EvidencedIff(check: C.Check, f: Facts)
    ensures StatusAfter(check, f) == C.Passed <==> Evidenced(check, f)
  {
    ReceiptsOf(f.receipts);
    hide AnyFailed, AllPassed, ArtifactSupplied, ArtifactFailed, EveryReceipt;
  }

  lemma ReceiptsOf(receipts: seq<Receipt>)
    ensures AllPassed(receipts) <==> receipts != [] && EveryReceipt(receipts, {ReceiptPassed})
    ensures AnyFailed(receipts) <==> !EveryReceipt(receipts, {ReceiptPassed, ReceiptUnknown})
    ensures ArtifactSupplied(receipts) <==>
            exists r :: r in receipts && (r.kind == ArtifactRun || r.hasArtifacts || r.hasChanges)
    ensures receipts != [] && EveryReceipt(receipts, {ReceiptPassed}) ==> EveryReceipt(receipts, {ReceiptPassed, ReceiptUnknown})
  {
  }

  /** A check that is not evidenced has failed exactly when the Host did, when its own kind of evidence
      says so, or when it had failed before and nothing new is said of an implementation. */
  lemma FailedCheckIff(check: C.Check, f: Facts)
    ensures StatusAfter(check, f) == C.CheckFailed <==>
            || f.failed
            || (check.kind == C.ValidationCheck && f.validation == J.NotPassed)
            || (check.kind == C.Implementation
                && (f.broken || (!f.codingTask && check.status == C.CheckFailed && !Evidenced(check, f)
                                 && !(f.receipts != [] && EveryReceipt(f.receipts, {ReceiptPassed})))))
            || (check.kind == C.Artifact && !Evidenced(check, f)
                && exists r :: r in f.receipts && r.kind == ArtifactRun && (r.status == ReceiptFailed || r.status == ReceiptBlocked))
            || (check.kind == C.General && f.useTools
                && !EveryReceipt(f.receipts, {ReceiptPassed, ReceiptUnknown}))
  {
    ReceiptsOf(f.receipts);
    ArtifactFailedIs(f.receipts);
    hide AnyFailed, AllPassed, ArtifactSupplied, ArtifactFailed, EveryReceipt;
  }

  lemma ArtifactFailedIs(receipts: seq<Receipt>)
    ensures ArtifactFailed(receipts) <==>
            exists r :: r in receipts && r.kind == ArtifactRun && (r.status == ReceiptFailed || r.status == ReceiptBlocked)
  {
    if exists r :: r in receipts && r.kind == ArtifactRun && (r.status == ReceiptFailed || r.status == ReceiptBlocked) {
      var r :| r in receipts && r.kind == ArtifactRun && (r.status == ReceiptFailed || r.status == ReceiptBlocked);
      var i :| 0 <= i < |receipts| && receipts[i] == r;
      assert IsFailed(receipts[i]);
    }
  }

  // ---------- the turn ----------

  datatype VerifierVerdict = Pass | Revise | Escalate | Block

  datatype BossVerdict = Approve | BossRevise | AskUser | BossBlock

  /** The rest of a turn: what is known of the workspace and of the autonomous run, what the draft and
      the reviews say, and whether a queued continuation can be leased. */
  datatype Turn = Turn(
    facts: Facts,
    hasCodingTask: bool,
    hasWorkspaceState: bool,
    changedFiles: set<string>,
    policy: K.PolicyReply,
    autonomousRan: bool,
    asksUser: bool,
    stoppedEarly: bool,
    requiresApproval: bool,
    verifier: Option<VerifierVerdict>,
    boss: Option<BossVerdict>,
    sessionWorking: bool,
    otherQueued: bool,
    configuredLimit: int)

  /** A code change that is broken, unvalidated, or without the workspace state to check it against. */
  predicate Unresolved(t: Turn) {
    t.facts.mutated
    && (t.facts.broken || t.facts.validation != J.Passed
        || (t.hasCodingTask && !t.hasWorkspaceState && !t.autonomousRan))
  }

  predicate UserBlocker(t: Turn) { t.asksUser || t.boss == Some(AskUser) }

  predicate Blocks(t: Turn) { t.verifier == Some(Block) || t.boss == Some(BossBlock) }

  // ---------- the coding task ----------

  /** The schema of coding tasks bounds their automatic continuations. */
  type Attempts = n: nat | n <= 10

  /** A stored coding task, and how many automatic continuations it has had. */
  datatype Coding = Coding(task: K.Task, attempts: Attempts)

  /** The turn names a coding task, and it is stored. */
  predicate Holds(t: Turn, k: Option<Coding>) { t.hasCodingTask && k.Some? }

  predicate Spent(t: Turn, k: Option<Coding>) { Holds(t, k) && k.value.attempts == 10 }

  /** One more continuation for the coding task of the turn, if it has one. */
  function Counted(t: Turn, k: Option<Coding>): Option<Coding>
    requires !Spent(t, k)
  {
    if Holds(t, k) then Some(k.value.(attempts := k.value.attempts + 1)) else k
  }

  datatype Reconciled = Reconciled(coding: Option<Coding>, refused: bool)

  /** A recorded change that passed validation ends the coding task. */
  function Finished(task: K.Task): K.Task {
    task.(phase := K.Summarize, status := K.Completed, steps := task.steps + [K.TargetedValidation, K.Summarize])
  }

  /** What an observed mutation does to the coding task: it blocks it when nothing is known of the
      workspace; otherwise the changed files are recorded and a passed validation finishes it. */
  function Reconcile(t: Turn, k: Option<Coding>): Reconciled {
    if !Holds(t, k) || !t.facts.mutated then Reconciled(k, false)
    else if !t.hasWorkspaceState then
      Reconciled(if t.autonomousRan then k else Some(k.value.(task := k.value.task.(status := K.Blocked))), false)
    else
      match K.RecordVerdict(k.value.task, t.changedFiles, t.policy)
      case Refused(task, _) => Reconciled(Some(k.value.(task := task)), true)
      case Recorded(task, _) =>
        var after := if t.facts.validation == J.Passed && task.status == K.Active then Finished(task) else task;
        Reconciled(Some(k.value.(task := after)), false)
  }

  // ---------- the decision ----------

  function MaxAuto(c: Option<C.Capsule>, configured: int): nat {
    Max(1, Min(if c.Some? then c.value.maxCycles else configured, 12))
  }

  predicate IsActive(c: Option<C.Capsule>) { c.Some? && c.value.status == C.Active }

  /** The Host stopped early; a blocking Boss does not count against that, a blocking Verifier does. */
  predicate Interrupted(t: Turn, c: Option<C.Capsule>) {
    IsActive(c) && t.stoppedEarly && !t.requiresApproval && !UserBlocker(t) && t.verifier != Some(Block)
  }

  predicate AcceptancePending(t: Turn, c: Option<C.Capsule>) {
    IsActive(c) && !Satisfied(c) && !UserBlocker(t) && !Blocks(t)
  }

  predicate HasReason(t: Turn, c: Option<C.Capsule>) {
    Unresolved(t) || AcceptancePending(t, c) || Interrupted(t, c)
  }

  predicate Eligible(t: Turn, c: Option<C.Capsule>) {
    && HasReason(t, c) && IsActive(c)
    && (!Unresolved(t) || t.hasWorkspaceState)
    && !t.facts.failed
    && c.value.cycle < MaxAuto(c, t.configuredLimit)
  }

  datatype Error = PatchRefused | AttemptsSpent | NotLeased

  /** What a turn leaves of the root task and of the coding task, the attempt it scheduled, and the
      error it raised, if any. */
  datatype Ending = Ending(
    capsule: Option<C.Capsule>,
    coding: Option<Coding>,
    scheduled: Option<nat>,
    error: Option<Error>,
    terminalFailure: bool,
    markedCompleted: bool)

  function SetStatus(c: Option<C.Capsule>, status: C.Status): Option<C.Capsule> {
    if c.Some? then Some(C.Update(c.value, Some(status), None, false)) else None
  }

  /** The decision at the end of a turn whose Host did not fail, for the tasks as the turn's evidence
      left them. It raises when the coding task has had its continuations, before anything is
      scheduled, and when a scheduled continuation cannot be leased. */
  function Decide(t: Turn, c: Option<C.Capsule>, k: Option<Coding>): Ending {
    var asked := if UserBlocker(t) then SetStatus(c, C.WaitingForUser) else c;
    if Eligible(t, c) then
      if Spent(t, k) then Ending(asked, k, None, Some(AttemptsSpent), false, false)
      else
        var scheduled := Some(c.value.cycle + 1);
        var counted := Some(C.Update(asked.value, None, None, true));
        var leased := t.otherQueued || (t.sessionWorking && IsActive(asked));
        if !leased then Ending(counted, Counted(t, k), scheduled, Some(NotLeased), false, false)
        else Ending(if Blocks(t) then SetStatus(counted, C.Failed) else counted, Counted(t, k), scheduled, None, false, false)
    else
      var terminal := HasReason(t, c);
      if c.None? then Ending(None, k, None, None, terminal, false)
      else if terminal || Blocks(t) then Ending(SetStatus(asked, C.Failed), k, None, None, terminal, false)
      else if UserBlocker(t) then Ending(asked, k, None, None, false, false)
      else Ending(SetStatus(asked, C.Completed), k, None, None, false, true)
  }

  function EvidenceFor(t: Turn, c: Option<C.Capsule>, terminalFailure: bool): J.Evidence {
    J.Evidence(t.facts.mutated, t.facts.validation,
               J.Verdicts(t.verifier == Some(Pass), t.verifier == Some(Block),
                          t.boss == Some(Approve), t.boss == Some(BossBlock)),
               HasReason(t, c), UserBlocker(t), terminalFailure, Blocks(t))
  }

  datatype TurnEnd = TurnEnd(ending: Ending, job: Option<J.Outcome>)

  /** The task as the evidence of the turn leaves it. */
  function Evaluated(t: Turn, c: Option<C.Capsule>): Option<C.Capsule> {
    if c.Some? then Some(C.Update(c.value, None, Some(ChecksAfter(c.value.checks, t.facts)), false)) else None
  }

  function Untouched(job: Option<J.Entry>): Option<J.Outcome> {
    if job.Some? then Some(J.Outcome(job.value, None)) else None
  }

  /** The decision on the tasks as the turn's evidence left them, and what the command job is told. */
  function Concluded(t: Turn, c: Option<C.Capsule>, k: Option<Coding>, job: Option<J.Entry>): TurnEnd {
    var ending := Decide(t, c, k);
    TurnEnd(ending,
            if job.None? || ending.error.Some? then Untouched(job)
            else Some(J.Postflight(job.value, EvidenceFor(t, c, ending.terminalFailure))))
  }

  /** The whole postflight: the coding task, the evidence, the decision, and the command job. */
  function Postflight(t: Turn, c: Option<C.Capsule>, k: Option<Coding>, job: Option<J.Entry>): TurnEnd {
    var reconciled := Reconcile(t, k);
    var evaluated := Evaluated(t, c);
    if reconciled.refused then
      TurnEnd(Ending(c, reconciled.coding, None, Some(PatchRefused), false, false), Untouched(job))
    else if t.facts.failed then
      TurnEnd(Ending(SetStatus(evaluated, C.Failed), reconciled.coding, None, None, false, false),
              if job.Some? then Some(J.Outcome(J.Fail(job.value), None)) else None)
    else Concluded(t, evaluated, reconciled.coding, job)
  }

  // ---------- the turn, step by step ----------

  /** The stored row of a coding task. */
  class CodingRow {
    var coding: Coding

    constructor (task: K.Task)
      ensures coding == Coding(task, 0)
    {
      coding := Coding(task, 0);
    }

    method ReconcileMutation(t: Turn) returns (refused: bool)
      modifies this
      ensures Reconciled(Some(coding), refused) == Reconcile(t, Some(old(coding)))
    {
      refused := false;
      if !t.hasCodingTask || !t.facts.mutated {
        return;
      }
      if !t.hasWorkspaceState {
        if !t.autonomousRan {
          coding := coding.(task := coding.task.(status := K.Blocked));
        }
        return;
      }
      var recorded := K.RecordVerdict(coding.task, t.changedFiles, t.policy);
      coding := coding.(task := recorded.task);
      if recorded.Refused? {
        return true;
      }
      if t.facts.validation == J.Passed && coding.task.status == K.Active {
        if coding.task.phase == K.Patch || coding.task.phase == K.Revise {
          var tested := K.Transition(coding.task, K.TargetedValidation);
          assert tested.Some?;
          coding := coding.(task := tested.value);
        }
        if coding.task.phase == K.TargetedValidation {
          var summarized := K.Transition(coding.task, K.Summarize);
          assert summarized.Some?;
          coding := coding.(task := summarized.value);
        }
        assert recorded.task.steps + [K.TargetedValidation] + [K.Summarize]
            == recorded.task.steps + [K.TargetedValidation, K.Summarize];
      }
    }

    /** Counts a continuation; true when the schema refuses the count. */
    method CountContinuation() returns (spent: bool)
      modifies this
      ensures spent <==> old(coding).attempts == 10
      ensures coding == if spent then old(coding) else old(coding).(attempts := old(coding).attempts + 1)
    {
      spent := coding.attempts == 10;
      if !spent {
        coding := coding.(attempts := coding.attempts + 1);
      }
    }
  }

  function RowOf(row: CodingRow?): Option<Coding>
    reads row
  {
    if row == null then None else Some(row.coding)
  }

  method PostflightTail(store: C.CognitiveStore, row: CodingRow?, t: Turn)
    returns (scheduled: Option<nat>, error: Option<Error>, terminalFailure: bool, markedCompleted: bool)
    requires !t.facts.failed
    requires store.capsule.Some? ==> store.capsule.value.maxCycles >= 1
    modifies store, row
    ensures Ending(store.capsule, RowOf(row), scheduled, error, terminalFailure, markedCompleted)
         == Decide(t, old(store.capsule), old(RowOf(row)))
    ensures store.attempts == old(store.attempts) + if scheduled.Some? then [scheduled.value] else []
  {
    hide Satisfied;
    scheduled, error, terminalFailure, markedCompleted := None, None, false, false;
    var c := store.capsule;
    var maxAutoContinuations := MaxAuto(c, t.configuredLimit);
    var genuineUserBlocker := UserBlocker(t);
    var hasReason := HasReason(t, c);
    var eligible := hasReason && IsActive(c) && (!Unresolved(t) || t.hasWorkspaceState)
                    && c.value.cycle < maxAutoContinuations;
    if genuineUserBlocker && c.Some? {
      var waiting := store.UpdateCognitiveTask(Some(C.WaitingForUser), None, false);
      c := Some(waiting);
    }
    if eligible {
      if row != null && t.hasCodingTask {
        var spent := row.CountContinuation();
        if spent {
          error := Some(AttemptsSpent);
          return;
        }
      }
      var accepted := store.ScheduleCognitiveContinuation(c.value);
      assert accepted;
      scheduled := Some(c.value.cycle + 1);
      if !t.otherQueued && !(t.sessionWorking && IsActive(c)) {
        error := Some(NotLeased);
        return;
      }
    }
    terminalFailure := hasReason && scheduled.None?;
    if c.Some? {
      if terminalFailure || Blocks(t) {
        var failed := store.UpdateCognitiveTask(Some(C.Failed), None, false);
      } else if scheduled.None? && !genuineUserBlocker {
        var completed := store.UpdateCognitiveTask(Some(C.Completed), None, false);
        markedCompleted := true;
      }
    }
  }

  ghost function JobOf(job: S.StoredJob?): Option<J.Entry>
    requires job != null ==> job.Valid()
    reads job
  {
    if job == null then None else Some(job.Stored())
  }

  method ConcludeTurn(store: C.CognitiveStore, row: CodingRow?, job: S.StoredJob?, t: Turn)
    returns (scheduled: Option<nat>, error: Option<Error>, terminalFailure: bool, markedCompleted: bool,
             jobError: Option<J.Error>)
    requires !t.facts.failed
    requires store.capsule.Some? ==> store.capsule.value.maxCycles >= 1
    requires job != null ==> job.Valid()
    modifies store, row, job
    ensures job != null ==> job.Valid()
    ensures TurnEnd(Ending(store.capsule, RowOf(row), scheduled, error, terminalFailure, markedCompleted),
                    if job == null then None else Some(J.Outcome(job.Stored(), jobError)))
         == Concluded(t, old(store.capsule), old(RowOf(row)), old(JobOf(job)))
    ensures store.attempts == old(store.attempts) + if scheduled.Some? then [scheduled.value] else []
  {
    hide Decide, HasReason, UserBlocker, Blocks, J.Postflight;
    jobError := None;
    var reason, blocker := HasReason(t, store.capsule), UserBlocker(t);
    scheduled, error, terminalFailure, markedCompleted := PostflightTail(store, row, t);
    if error.Some? || job == null {
      return;
    }
    jobError := job.SynchronizeCommandJobPostflight(
      J.Evidence(t.facts.mutated, t.facts.validation,
                 J.Verdicts(t.verifier == Some(Pass), t.verifier == Some(Block),
                            t.boss == Some(Approve), t.boss == Some(BossBlock)),
                 reason, blocker, terminalFailure, Blocks(t)));
  }

  /** The whole postflight of a turn, on the stored root task, and on the stored coding task and the
      stored job if the turn has them. */
  method PostflightGatewayTurn(store: C.CognitiveStore, row: CodingRow?, job: S.StoredJob?, t: Turn)
    returns (scheduled: Option<nat>, error: Option<Error>, terminalFailure: bool, markedCompleted: bool,
             jobError: Option<J.Error>)
    requires store.capsule.Some? ==> store.capsule.value.maxCycles >= 1
    requires job != null ==> job.Valid()
    modifies store, row, job
    ensures job != null ==> job.Valid()
    ensures TurnEnd(Ending(store.capsule, RowOf(row), scheduled, error, terminalFailure, markedCompleted),
                    if job == null then None else Some(J.Outcome(job.Stored(), jobError)))
         == Postflight(t, old(store.capsule), old(RowOf(row)), old(JobOf(job)))
    ensures store.attempts == old(store.attempts) + if scheduled.Some? then [scheduled.value] else []
  {
    hide Concluded, ChecksAfter, Reconcile, J.Fail;
    scheduled, error, terminalFailure, markedCompleted, jobError := None, None, false, false, None;
    if row != null {
      var refused := row.ReconcileMutation(t);
      if refused {
        error := Some(PatchRefused);
        return;
      }
    } else {
      NoRowReconciled(t);
    }
    if store.capsule.Some? {
      var evaluated :=
        store.UpdateCognitiveTask(None, Some(ChecksAfter(store.capsule.value.checks, t.facts)), false);
    }
    if t.facts.failed {
      if store.capsule.Some? {
        var failed := store.UpdateCognitiveTask(Some(C.Failed), None, false);
      }
      if job != null {
        job.FailCommandJob();
      }
      return;
    }
    scheduled, error, terminalFailure, markedCompleted, jobError := ConcludeTurn(store, row, job, t);
  }

  lemma NoRowReconciled(t: Turn)
    ensures Reconcile(t, None) == Reconciled(None, false)
  {
  }

  // ---------- what becomes of the coding task ----------

  /** The postflight raises over the coding task exactly when a mutation comes with the workspace's
      state and the task's phase does not let it be recorded, or the policy cannot be asked. */
  lemma RefusedIff(t: Turn, k: Option<Coding>)
    ensures Reconcile(t, k).refused <==>
            && Holds(t, k) && t.facts.mutated && t.hasWorkspaceState
            && !(K.Recordable(k.value.task) && t.policy != K.PolicyFails)
    ensures k.Some? ==> Reconcile(t, k).coding.Some? && Reconcile(t, k).coding.value.attempts == k.value.attempts
    ensures k.None? ==> Reconcile(t, k).coding.None?
  {
    if k.Some? {
      K.RecordedIff(k.value.task, t.changedFiles, t.policy);
    }
  }

  predicate Reconcilable(t: Turn, task: K.Task) {
    t.facts.mutated && t.hasWorkspaceState && K.Recordable(task) && (t.policy == K.Pass || t.policy == K.Review)
  }

  /** A turn completes an active coding task exactly when it records a mutation the policy lets
      through and validation passed; it blocks it exactly when the policy does, or when a mutation
      comes with neither the workspace's state nor an autonomous run. The steps stay a path of the
      phase graph. */
  lemma CodingTaskAfterTurn(t: Turn, k: Coding)
    requires t.hasCodingTask && k.task.status == K.Active
    ensures var task := Reconcile(t, Some(k)).coding.value.task;
            && (task.status == K.Completed <==> Reconcilable(t, k.task) && t.facts.validation == J.Passed)
            && (task.status == K.Blocked <==>
                  && t.facts.mutated
                  && (if t.hasWorkspaceState then K.Recordable(k.task) && t.policy == K.Block else !t.autonomousRan))
            && (task.status == K.Completed ==> task.phase == K.Summarize)
            && task.filesChanged == k.task.filesChanged +
                 (if t.facts.mutated && t.hasWorkspaceState && !Reconcile(t, Some(k)).refused then t.changedFiles else {})
            && (K.LegalSteps(k.task) ==> K.LegalSteps(task))
  {
    hide K.LegalSteps, K.RecordVerdict;
    K.RecordedIff(k.task, t.changedFiles, t.policy);
    var recorded := K.RecordVerdict(k.task, t.changedFiles, t.policy).task;
    if recorded.phase == K.Patch || recorded.phase == K.Revise {
      FinishedLegal(recorded);
    }
    BlockedLegal(k.task);
  }

  lemma FinishedLegal(task: K.Task)
    requires task.phase == K.Patch || task.phase == K.Revise
    ensures K.LegalSteps(task) ==> K.LegalSteps(Finished(task))
  {
  }

  lemma BlockedLegal(task: K.Task)
    ensures K.LegalSteps(task) ==> K.LegalSteps(task.(status := K.Blocked))
  {
  }

  /** A turn completes the coding task although its mutation is unresolved, exactly when the evidence
      says at once that validation passed and that the code is broken. */
  lemma CompletedYetUnresolvedIff(t: Turn, k: Coding)
    requires t.hasCodingTask && k.task.status == K.Active
    ensures Reconcile(t, Some(k)).coding.value.task.status == K.Completed && Unresolved(t) <==>
            Reconcilable(t, k.task) && t.facts.validation == J.Passed && t.facts.broken
  {
    hide K.LegalSteps, Reconcile;
    CodingTaskAfterTurn(t, k);
  }

  /** A coding task the autonomous loop has completed is in its last phase, so a turn that comes with
      the workspace's state raises over it: the root task and the job are left as they were. */
  lemma CompletedLoopRefused(env: K.Env, r: L.Request, w: K.World, t: Turn, attempts: Attempts,
                             c: Option<C.Capsule>, job: Option<J.Entry>)
    requires L.RunLoop(env, r, w).status == L.Done
    requires t.hasCodingTask && t.facts.mutated && t.hasWorkspaceState
    ensures var k := Some(Coding(L.RunLoop(env, r, w).w.task, attempts));
            Postflight(t, c, k, job) ==
            TurnEnd(Ending(c, k, None, Some(PatchRefused), false, false), Untouched(job))
  {
    hide L.RunLoop, Decide, Evaluated, K.AllSucceeded;
    Safety.CompletedIsEarned(env, r, w);
    assert L.RunLoop(env, r, w).w.task.phase == K.Summarize;
  }

  // ---------- what the decision means ----------

  /** A continuation of an active task is due when a change is unresolved and the workspace's state can
      tell how; or else when the user was not asked and the Verifier does not block, and the Boss leaves
      a required check open or the Host stopped early without waiting for approval. */
  predicate Due(t: Turn, c: C.Capsule) {
    && c.status == C.Active
    && if t.facts.mutated
          && (t.facts.broken || t.facts.validation != J.Passed
              || (t.hasCodingTask && !t.hasWorkspaceState && !t.autonomousRan))
       then t.hasWorkspaceState
       else
         && !t.asksUser && t.boss != Some(AskUser) && t.verifier != Some(Block)
         && (|| (t.boss != Some(BossBlock)
                 && exists i :: 0 <= i < |c.checks| && c.checks[i].required && c.checks[i].status != C.Passed)
             || (t.stoppedEarly && !t.requiresApproval))
  }

  lemma EligibleIff(t: Turn, c: Option<C.Capsule>)
    requires c.Some? ==> c.value.maxCycles >= 1
    ensures Eligible(t, c) <==>
            c.Some? && Due(t, c.value) && !t.facts.failed && c.value.cycle < Max(1, Min(c.value.maxCycles, 12))
    ensures Eligible(t, c) ==> IsActive(c)
  {
    if c.Some? {
      SatisfiedUnless(c.value);
      hide Satisfied;
    }
  }

  lemma SatisfiedUnless(c: C.Capsule)
    ensures Satisfied(Some(c)) <==>
            !exists i :: 0 <= i < |c.checks| && c.checks[i].required && c.checks[i].status != C.Passed
  {
  }

  /** A continuation is scheduled exactly when one is due and the budgets allow it: it is the next
      attempt, within the task's budget and within twelve, and within the ten of the coding task; the
      scheduler's own budget error cannot occur. */
  lemma ContinuationWithinBudget(t: Turn, c: Option<C.Capsule>, k: Option<Coding>)
    requires c.Some? ==> c.value.maxCycles >= 1
    ensures var e := Decide(t, c, k);
            && (e.scheduled.Some? <==> Eligible(t, c) && !Spent(t, k))
            && (e.scheduled.Some? <==>
                  && c.Some? && Due(t, c.value) && !t.facts.failed
                  && c.value.cycle < Max(1, Min(c.value.maxCycles, 12))
                  && !(t.hasCodingTask && k.Some? && k.value.attempts == 10))
            && (e.scheduled.Some? ==>
                  && e.scheduled == C.ScheduledAttempt(c.value)
                  && e.scheduled.value <= Max(1, Min(c.value.maxCycles, 12))
                  && e.capsule.value.cycle == e.scheduled.value == c.value.cycle + 1)
            && (e.scheduled.None? && c.Some? ==> e.capsule.value.cycle == c.value.cycle)
            && (c.Some? ==> e.capsule.Some? && e.capsule.value.maxCycles == c.value.maxCycles
                            && e.capsule.value.checks == c.value.checks)
            && (k.Some? <==> e.coding.Some?)
            && (k.Some? ==> && e.coding.value.task == k.value.task
                            && e.coding.value.attempts == k.value.attempts +
                                 if t.hasCodingTask && e.scheduled.Some? then 1 else 0)
  {
    hide Eligible, HasReason, Due;
    EligibleIff(t, c);
  }

  /** The decision raises exactly when a continuation is due and either the coding task has had its
      ten, or nothing else is queued and the session is not working or the user has been asked. Only
      in the second case has a cycle been used up. */
  lemma RaisedIff(t: Turn, c: Option<C.Capsule>, k: Option<Coding>)
    ensures var e := Decide(t, c, k);
            && (e.error == Some(AttemptsSpent) <==> Eligible(t, c) && Spent(t, k))
            && (e.error == Some(NotLeased) <==>
                  Eligible(t, c) && !Spent(t, k) && !t.otherQueued && (UserBlocker(t) || !t.sessionWorking))
            && e.error != Some(PatchRefused)
            && (e.error.Some? ==>
                  && e.capsule.value.status == (if UserBlocker(t) then C.WaitingForUser else C.Active)
                  && e.capsule.value.cycle == c.value.cycle + (if e.error == Some(NotLeased) then 1 else 0))
  {
    hide Satisfied;
  }

  /** A question to the user over an unresolved mutation uses up a cycle and then raises, because the
      task it has just set waiting is not one a continuation can be leased for. */
  lemma AskingOverMutationRaises(t: Turn, c: C.Capsule, k: Option<Coding>)
    requires UserBlocker(t) && Unresolved(t) && Eligible(t, Some(c)) && !Spent(t, k) && !t.otherQueued
    ensures var e := Decide(t, Some(c), k);
            && e.error == Some(NotLeased)
            && e.capsule.value.cycle == c.cycle + 1 && e.capsule.value.status == C.WaitingForUser
  {
    hide Eligible, Unresolved, Decide;
    RaisedIff(t, Some(c), k);
  }

  /** A turn both schedules a continuation and fails the task exactly when a review blocks while a
      continuation is due and can be leased; by then it is either an unresolved mutation, or a Boss
      that blocks a Host that stopped early. */
  lemma ScheduledYetFailedIff(t: Turn, c: Option<C.Capsule>, k: Option<Coding>)
    ensures var e := Decide(t, c, k);
            e.scheduled.Some? && e.capsule.value.status == C.Failed <==>
            && Eligible(t, c) && !Spent(t, k) && Blocks(t)
            && (t.otherQueued || (t.sessionWorking && !UserBlocker(t)))
    ensures Eligible(t, c) && Blocks(t) ==> Unresolved(t) || (Interrupted(t, c) && t.boss == Some(BossBlock))
  {
    hide Satisfied;
  }

  /** A blocking review over an unresolved mutation fails the task although a continuation for it has
      just been scheduled. */
  lemma BlockedYetScheduled(t: Turn, c: C.Capsule, k: Option<Coding>)
    requires Blocks(t) && Unresolved(t) && Eligible(t, Some(c)) && Decide(t, Some(c), k).error.None?
    ensures var e := Decide(t, Some(c), k);
            e.scheduled == Some(c.cycle + 1) && e.capsule.value.status == C.Failed && !e.terminalFailure
  {
    hide Satisfied;
  }

  /** The decision marks a task completed exactly when nothing blocks or waits, no mutation is
      unresolved, and an active task has every required check passed and was not cut short. */
  lemma MarkedCompletedIff(t: Turn, c: C.Capsule, k: Option<Coding>)
    ensures Decide(t, Some(c), k).markedCompleted <==>
            && t.verifier != Some(Block) && t.boss != Some(BossBlock) && !t.asksUser && t.boss != Some(AskUser)
            && !Unresolved(t)
            && (c.status == C.Active ==> Satisfied(Some(c)) && !(t.stoppedEarly && !t.requiresApproval))
    ensures Decide(t, Some(c), k).markedCompleted <==>
            Decide(t, Some(c), k).capsule.value.status == C.Completed
            && (c.status == C.Completed ==> !HasReason(t, Some(c)) && !UserBlocker(t) && !Blocks(t))
  {
    hide Satisfied;
  }

  /** Whole turns: a task active at postflight is completed exactly on the evidence it is meant to
      demand, and never by a turn the Host reported as failed or the coding task refused. */
  lemma ActiveTaskCompletedIff(t: Turn, c: C.Capsule, k: Option<Coding>, job: Option<J.Entry>)
    requires c.status == C.Active
    ensures Postflight(t, Some(c), k, job).ending.capsule.value.status == C.Completed <==>
            && !Reconcile(t, k).refused && !t.facts.failed && !Blocks(t) && !UserBlocker(t) && !Unresolved(t)
            && !(t.stoppedEarly && !t.requiresApproval)
            && forall i :: 0 <= i < |c.checks| && c.checks[i].required ==> Evidenced(c.checks[i], t.facts)
  {
    hide Satisfied, Evidenced, ChecksAfter, Unresolved, Blocks, UserBlocker, Reconcile;
    SatisfiedIff(c, t.facts);
    var evaluated := Evaluated(t, Some(c)).value;
    assert evaluated == c.(checks := ChecksAfter(c.checks, t.facts));
    MarkedCompletedIff(t, evaluated, Reconcile(t, k).coding);
  }

  /** The command job is told to deliver exactly when the task is marked completed, and to fail
      exactly when the task fails for good or a review blocks. */
  lemma JobFollowsTask(t: Turn, c: C.Capsule, k: Option<Coding>)
    requires Decide(t, Some(c), k).error.None?
    ensures var e := Decide(t, Some(c), k);
            var v := EvidenceFor(t, Some(c), e.terminalFailure);
            && (e.markedCompleted <==> !v.terminalFailure && !v.blocked && !v.continuing && !v.waitingForUser)
            && (v.terminalFailure || v.blocked ==> e.capsule.value.status == C.Failed)
            && (e.capsule.value.status == C.Failed && c.status != C.Failed ==> v.terminalFailure || v.blocked)
  {
    hide Satisfied, Unresolved;
  }

  /** The job of a completed task is completed too, or raises on evidence the task did not demand;
      and the job of a task that is not marked completed is never completed by the turn. */
  lemma JobCompletedIff(t: Turn, c: C.Capsule, k: Option<Coding>, job: J.Entry)
    requires J.Inv(job) && !t.facts.failed && Postflight(t, Some(c), k, Some(job)).ending.error.None?
    ensures var p := Postflight(t, Some(c), k, Some(job));
            var o := p.job.value;
            && (p.ending.markedCompleted ==>
                  (o.error.None? ==> o.entry.status == J.Completed && J.AllDone(o.entry.steps)))
            && (p.ending.markedCompleted ==>
                  o.error == J.PostflightError(job, EvidenceFor(t, Evaluated(t, Some(c)), false)))
            && (o.error.None? && o.entry.status == J.Completed ==> p.ending.markedCompleted)
  {
    hide Decide, Evaluated, HasReason, Reconcile, J.Postflight, J.PostflightError, J.Inv, J.AllDone, J.DoneBelow, J.OpenKind;
    var evaluated := Evaluated(t, Some(c));
    EvaluatedSome(t, c);
    var ending := Decide(t, evaluated, Reconcile(t, k).coding);
    JobFollowsTask(t, evaluated.value, Reconcile(t, k).coding);
    var v := EvidenceFor(t, evaluated, ending.terminalFailure);
    J.PostflightErrorExact(job, v);
    DeliveryCompletes(job, v);
  }

  /** When a turn completes the job: its task is marked completed, the job is planned, a change it saw was
      validated, a review it needs was passed or stood in for by a passed validation, and validation did
      not pass without a change while patch and validate were open. */
  lemma JobDeliveredIff(t: Turn, c: C.Capsule, k: Option<Coding>, job: J.Entry)
    requires J.Inv(job) && !t.facts.failed && Postflight(t, Some(c), k, Some(job)).ending.error.None?
    ensures var p := Postflight(t, Some(c), k, Some(job));
            var o := p.job.value;
            (o.error.None? && o.entry.status == J.Completed) <==>
            && p.ending.markedCompleted && J.DoneBelow(job, 3)
            && (J.OpenKind(job, J.Validate) && t.facts.mutated ==> t.facts.validation == J.Passed)
            && (J.OpenKind(job, J.Verify) ==>
                  t.verifier == Some(Pass) || t.boss == Some(Approve) || t.facts.validation == J.Passed)
            && !(J.OpenKind(job, J.Patch) && J.OpenKind(job, J.Validate)
                 && t.facts.validation == J.Passed && !t.facts.mutated)
  {
    hide Decide, Evaluated, HasReason, Reconcile, J.Postflight, J.Inv, J.AllDone, J.DoneBelow, J.OpenKind;
    var evaluated := Evaluated(t, Some(c));
    EvaluatedSome(t, c);
    var ending := Decide(t, evaluated, Reconcile(t, k).coding);
    JobFollowsTask(t, evaluated.value, Reconcile(t, k).coding);
    MarkedCompletedIff(t, evaluated.value, Reconcile(t, k).coding);
    J.CompletedIffEvidence(job, EvidenceFor(t, evaluated, ending.terminalFailure));
  }

  lemma EvaluatedSome(t: Turn, c: C.Capsule)
    ensures Evaluated(t, Some(c)).Some?
  {
  }

  /** A job told to deliver is completed or raises; a job told otherwise is not completed. */
  lemma DeliveryCompletes(job: J.Entry, v: J.Evidence)
    requires J.Inv(job)
    ensures var o := J.Postflight(job, v);
            var delivers := !v.terminalFailure && !v.blocked && !v.continuing && !v.waitingForUser;
            && (delivers && o.error.None? ==> o.entry.status == J.Completed && J.AllDone(o.entry.steps))
            && (o.error.None? && o.entry.status == J.Completed ==> delivers)
  {
    hide J.Inv, J.AllDone, J.Deliverance, J.CommitOpen;
    J.EvidenceCommittedExact(job, v);
    J.DeliveranceExact(J.EvidenceCommitted(job, v).entry, v);
    J.CompletedIffEvidence(job, v);
  }

  // ---------- whole runs of a root task ----------

  /** A root task's turns, the preparation of each, restarts of the process, and what happens to its
      coding task between turns: a new one is opened, or work goes on on the same one. */
  datatype Event =
    | Turned(turn: Turn)
    | Prepared(packet: C.Packet, texts: C.Texts, kind: C.Classifier)
    | Restarted(queued: bool)
    | Opened(task: K.Task)
    | Worked(task: K.Task)

  /** The task, its coding task, and the attempts scheduled for it by the gateway. */
  datatype Root = Root(capsule: C.Capsule, coding: Option<Coding>, attempts: seq<nat>)

  function After(r: Root, e: Event): Root {
    match e
    case Turned(t) =>
      var ending := Postflight(t, Some(r.capsule), r.coding, None).ending;
      Root(if ending.capsule.Some? then ending.capsule.value else r.capsule,
           ending.coding,
           r.attempts + if ending.scheduled.Some? then [ending.scheduled.value] else [])
    case Prepared(p, texts, kind) =>
      r.(capsule := if r.capsule.status == C.Active || r.capsule.status == C.WaitingForUser
                    then C.Prepare(texts, kind, Some(r.capsule), p, true).capsule else r.capsule)
    case Restarted(queued) =>
      r.(capsule := if queued && r.capsule.status == C.Active
                    then r.capsule.(cycle := C.RecoveryAttempt(r.capsule)) else r.capsule)
    case Opened(task) => r.(coding := Some(Coding(task, 0)))
    case Worked(task) => r.(coding := if r.coding.Some? then Some(r.coding.value.(task := task)) else None)
  }

  function Run(r: Root, events: seq<Event>): Root {
    if events == [] then r else After(Run(r, events[..|events| - 1]), events[|events| - 1])
  }

  predicate ValidEvents(events: seq<Event>) {
    forall i :: 0 <= i < |events| && events[i].Prepared? ==> C.ValidPacket(events[i].packet)
  }

  predicate NoRestart(events: seq<Event>) { forall i :: 0 <= i < |events| ==> !events[i].Restarted? }

  /** All turns are turns on the one coding task the run starts with. */
  predicate OneCodingTask(events: seq<Event>) {
    forall i :: 0 <= i < |events| ==>
      !events[i].Opened? && (events[i].Turned? ==> events[i].turn.hasCodingTask)
  }

  ghost predicate Budgeted(r: Root) {
    && 1 <= r.capsule.maxCycles <= 12 && r.capsule.cycle <= r.capsule.maxCycles
    && (forall i :: 0 <= i < |r.attempts| ==> 1 <= r.attempts[i] <= r.capsule.cycle)
    && (forall i, j :: 0 <= i < j < |r.attempts| ==> r.attempts[i] < r.attempts[j])
  }

  ghost predicate Numbered(r: Root) {
    |r.attempts| == r.capsule.cycle && forall i :: 0 <= i < |r.attempts| ==> r.attempts[i] == i + 1
  }

  lemma TurnCycle(t: Turn, c: C.Capsule, k: Option<Coding>)
    requires c.maxCycles >= 1
    ensures var e := Postflight(t, Some(c), k, None).ending;
            && e.capsule.Some? && e.capsule.value.maxCycles == c.maxCycles
            && (e.scheduled.Some? ==>
                  && e.scheduled.value == c.cycle + 1 == e.capsule.value.cycle
                  && e.scheduled.value <= Max(1, Min(c.maxCycles, 12)))
            && (e.scheduled.None? ==> e.capsule.value.cycle == c.cycle)
            && (k.Some? ==> && e.coding.Some?
                            && e.coding.value.attempts == k.value.attempts +
                                 if t.hasCodingTask && e.scheduled.Some? then 1 else 0)
  {
    hide Decide, Satisfied, ChecksAfter, Reconcile;
    RefusedIff(t, k);
    ContinuationWithinBudget(t, Evaluated(t, Some(c)), Reconcile(t, k).coding);
  }

  lemma PrepareCycle(texts: C.Texts, kind: C.Classifier, c: C.Capsule, p: C.Packet)
    ensures var next := C.Prepare(texts, kind, Some(c), p, true).capsule;
            next.cycle == c.cycle && next.maxCycles == Max(c.maxCycles, p.maxCycles)
  {
    hide C.Unique, C.MergeChecks;
  }

  lemma AfterBudgeted(r: Root, e: Event)
    requires Budgeted(r) && (e.Prepared? ==> C.ValidPacket(e.packet))
    ensures Budgeted(After(r, e))
    ensures Numbered(r) && !e.Restarted? ==> Numbered(After(r, e))
  {
    hide Postflight, C.Prepare;
    match e
    case Turned(t) => TurnCycle(t, r.capsule, r.coding);
    case Prepared(p, texts, kind) => PrepareCycle(texts, kind, r.capsule, p);
    case Restarted(_) =>
    case Opened(_) =>
    case Worked(_) =>
  }

  /** Over any run, a root task gets at most twelve automatic continuations, with ascending attempts
      within its budget; without restarts they are numbered 1, 2, 3 and so on. */
  lemma {:induction false} AtMostTwelveContinuations(r: Root, events: seq<Event>)
    requires Budgeted(r) && ValidEvents(events)
    ensures Budgeted(Run(r, events)) && |Run(r, events).attempts| <= 12
    ensures Numbered(r) && NoRestart(events) ==> Numbered(Run(r, events))
    decreases |events|
  {
    hide After, Budgeted, Numbered;
    if events != [] {
      var n := |events| - 1;
      AtMostTwelveContinuations(r, events[..n]);
      AfterBudgeted(Run(r, events[..n]), events[n]);
    }
    CountBudgeted(Run(r, events));
  }

  lemma CountBudgeted(r: Root)
    requires Budgeted(r)
    ensures |r.attempts| <= 12
  {
    if r.attempts != [] {
      AscendingAtLeast(r.attempts, |r.attempts| - 1);
    }
  }

  lemma {:induction false} AscendingAtLeast(attempts: seq<nat>, i: nat)
    requires i < |attempts| && attempts[0] >= 1
    requires forall j, k :: 0 <= j < k < |attempts| ==> attempts[j] < attempts[k]
    ensures attempts[i] >= i + 1
  {
    if i > 0 {
      AscendingAtLeast(attempts, i - 1);
    }
  }

  lemma NewTaskBudgeted(texts: C.Texts, kind: C.Classifier, p: C.Packet, k: Option<Coding>)
    requires C.ValidPacket(p)
    ensures var r := Root(C.NewCapsule(texts, kind, p), k, []); Budgeted(r) && Numbered(r)
  {
  }

  /** As long as a root task stays with one coding task, each continuation counts against the ten of
      that task: it gets no more than the ten, less those it had before. */
  lemma {:induction false} ContinuationsOfCodingTask(r: Root, events: seq<Event>)
    requires Budgeted(r) && ValidEvents(events)
    requires r.coding.Some? && OneCodingTask(events)
    ensures var after := Run(r, events);
            && after.coding.Some?
            && |after.attempts| - |r.attempts| == after.coding.value.attempts - r.coding.value.attempts
            && |after.attempts| <= |r.attempts| + 10 - r.coding.value.attempts
    decreases |events|
  {
    hide After, Budgeted;
    if events != [] {
      var n := |events| - 1;
      ContinuationsOfCodingTask(r, events[..n]);
      AtMostTwelveContinuations(r, events[..n]);
      AfterCounts(Run(r, events[..n]), events[n]);
    }
  }

  lemma AfterCounts(r: Root, e: Event)
    requires Budgeted(r) && r.coding.Some? && !e.Opened? && (e.Turned? ==> e.turn.hasCodingTask)
    ensures var after := After(r, e);
            && after.coding.Some?
            && |after.attempts| - |r.attempts| == after.coding.value.attempts - r.coding.value.attempts
  {
    hide Postflight, C.Prepare;
    if e.Turned? {
      TurnCycle(e.turn, r.capsule, r.coding);
    }
  }

  // ---------- the budget is reached ----------

  /** A turn that leaves a change unvalidated and nothing in the way of going on. */
  function PushingTurn(): Turn {
    Turn(Facts(false, true, [], J.NotPassed, true, false, true, true, true),
         false, true, {}, K.Pass, false, false, false, false, None, None, true, false, 6)
  }

  lemma PushedOnce(r: Root)
    requires r.capsule.status == C.Active && r.capsule.cycle < r.capsule.maxCycles <= 12 && r.coding.None?
    ensures var after := After(r, Turned(PushingTurn()));
            && after.capsule.status == C.Active && after.capsule.cycle == r.capsule.cycle + 1
            && after.capsule.maxCycles == r.capsule.maxCycles && after.coding.None?
            && after.attempts == r.attempts + [r.capsule.cycle + 1]
  {
    hide Satisfied, ChecksAfter;
  }

  function Pushes(n: nat): seq<Event> { seq(n, _ => Turned(PushingTurn())) }

  lemma {:induction false} PushedRun(r: Root, n: nat)
    requires r.capsule.status == C.Active && r.capsule.cycle == 0 && r.coding.None? && r.attempts == []
    requires n <= r.capsule.maxCycles <= 12
    ensures var after := Run(r, Pushes(n));
            && after.capsule.status == C.Active && after.capsule.cycle == n == |after.attempts|
            && after.capsule.maxCycles == r.capsule.maxCycles && after.coding.None?
  {
    hide After, PushingTurn;
    if n > 0 {
      PushedRun(r, n - 1);
      assert Pushes(n)[..n - 1] == Pushes(n - 1) && Pushes(n)[n - 1] == Turned(PushingTurn());
      PushedOnce(Run(r, Pushes(n - 1)));
    }
  }

  /** A new task without a coding task can have every continuation of its budget, whatever that is; the
      turn after the last one fails it. */
  lemma BudgetReached(texts: C.Texts, kind: C.Classifier, p: C.Packet)
    requires C.ValidPacket(p) && !p.waiting
    ensures var r := Root(C.NewCapsule(texts, kind, p), None, []);
            && |Run(r, Pushes(p.maxCycles)).attempts| == p.maxCycles
            && Run(r, Pushes(p.maxCycles)).capsule.status == C.Active
            && Run(r, Pushes(p.maxCycles + 1)).capsule.status == C.Failed
            && |Run(r, Pushes(p.maxCycles + 1)).attempts| == p.maxCycles
  {
    hide C.MergeChecks, Postflight, After, PushingTurn;
    var r, n := Root(C.NewCapsule(texts, kind, p), None, []), p.maxCycles;
    PushedRun(r, n);
    assert Pushes(n + 1)[..n] == Pushes(n) && Pushes(n + 1)[n] == Turned(PushingTurn());
    PushedOnceMore(Run(r, Pushes(n)));
  }

  lemma PushedOnceMore(r: Root)
    requires r.capsule.status == C.Active && 1 <= r.capsule.maxCycles <= r.capsule.cycle && r.coding.None?
    ensures var after := After(r, Turned(PushingTurn()));
            after.capsule.status == C.Failed && after.attempts == r.attempts
  {
    hide Satisfied, ChecksAfter;
  }
}
