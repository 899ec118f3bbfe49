/**
 The autonomous coding loop: plan, inspect, then a bounded number of patch candidates, each
 applied, checked and either accepted, sent back for revision or rolled back.
 */
module AutonomousLoop {
  import opened Numbers
  import opened Wrappers
  import opened CodingTask

  datatype LoopStatus = JustPlanned | PolicyBlocked | NoChange | ValidationFailed | Remote | Done | GaveUp

  /** How a run ends: its status, the state it leaves, and the error when it gave up because of one. */
  datatype Outcome = Outcome(status: LoopStatus, w: World, fault: Option<Fault>)

  /** The caller's request: approval to write, the revisions asked for, and the files that the
      repository analysis allows besides those planned and inspected. */
  datatype Request = Request(approved: bool, maxRevisions: Option<int>, scope: seq<Path>)

  function MaxRevisions(r: Request): (m: nat)
    ensures m <= 3
  {
    Max(0, Min(r.maxRevisions.GetOr(2), 3))
  }

  function Ask(w: World, call: Call): World {
    w.(tick := w.tick + 1, history := w.history + [Asked(call)])
  }

  function Tick(w: World): World { w.(tick := w.tick + 1) }

  /** An error ends the run; the latest checkpoint is restored when the task the loop last saw had
      recorded changes. */
  function Catch(env: Env, r: Request, w: World, seen: set<Path>, fault: Fault): Outcome {
    Outcome(GaveUp,
            if r.approved && seen != {} && w.task.checkpoints != [] then Rollback(env, w).w else w,
            Some(fault))
  }

  // ---------- one candidate ----------

  /** The disk after one patch and whether its file changed. */
  function Write(disk: Disk, path: Path, content: Bytes): (Disk, bool) {
    var original := if path in disk then disk[path] else [];
    if content != original then (disk[path := content], true) else (disk, false)
  }

  /** Sends the patches one by one; an error leaves the files changed before it unrecorded. */
  function ApplyPatches(env: Env, r: Request, allowed: seq<Path>, paths: seq<Path>, w: World, changed: set<Path>)
    : Applied
    decreases |paths|
  {
    if paths == [] then
      if changed == {} then Applied(w, false) else RecordOrAbandon(env, w, changed)
    else if paths[0] !in allowed then ApplyThrew(Abandon(w, changed), External)
    else
      var sent := w.(tick := w.tick + 1, history := w.history + [PatchSent(paths[0], r.approved)]);
      match env.patch(w.tick)
      case PatchFails => ApplyThrew(Abandon(sent, changed), External)
      case Written(content) =>
        var (disk, changes) := Write(w.disk, paths[0], content);
        ApplyPatches(env, r, allowed, paths[1..], sent.(disk := disk),
                     if changes then changed + {paths[0]} else changed)
  }

  function Abandon(w: World, changed: set<Path>): World {
    if changed == {} then w else w.(history := w.history + [Abandoned(changed)])
  }

  function RecordOrAbandon(env: Env, w: World, changed: set<Path>): Applied {
    match RecordPatch(env, w, changed)
    case ApplyThrew(later, fault) => ApplyThrew(Abandon(later, changed), fault)
    case Applied(later, blocked) =>
      if !blocked || later.task.checkpoints == [] then Applied(later, blocked)
      else
        match Rollback(env, later)
        case Went(back) => Applied(back, true)
        case Threw(back, fault) => ApplyThrew(back, fault)
  }

  // ---------- one attempt ----------

  datatype Attempt = Finish(o: Outcome) | Again(w: World)

  function AfterValidation(env: Env, r: Request, attempt: nat, w: World): Attempt {
    if attempt >= MaxRevisions(r) then
      if w.task.checkpoints == [] then Finish(Outcome(ValidationFailed, w, None))
      else
        match Rollback(env, w)
        case Went(back) => Finish(Outcome(ValidationFailed, back, None))
        case Threw(back, fault) => Finish(Catch(env, r, back, w.task.filesChanged, fault))
    else
      match BeginRevision(w)
      case Went(next) => Again(next)
      case Threw(next, fault) => Finish(Catch(env, r, next, w.task.filesChanged, fault))
  }

  function Check(env: Env, r: Request, attempt: nat, w: World): Attempt {
    match Validate(env, w, Targeted)
    case ValidationThrew(later, fault) => Finish(Catch(env, r, later, w.task.filesChanged, fault))
    case Validated(t, verdict) =>
      match verdict
      case RemoteRequired => Finish(Outcome(Remote, t, None))
      case Failing => AfterValidation(env, r, attempt, t)
      case Passed =>
        match Validate(env, t, Full)
        case ValidationThrew(later, fault) => Finish(Catch(env, r, later, t.task.filesChanged, fault))
        case Validated(f, outcome) =>
          match outcome
          case Passed => Finish(Outcome(Done, f, None))
          case RemoteRequired => Finish(Outcome(Remote, f, None))
          case Failing => AfterValidation(env, r, attempt, f)
  }

  /** A candidate without patches ends the run; recorded changes are rolled back. */
  function GiveUp(env: Env, r: Request, w: World): Outcome {
    if w.task.filesChanged == {} || w.task.checkpoints == [] then Outcome(NoChange, w, None)
    else
      match Rollback(env, w)
      case Went(back) => Outcome(NoChange, back, None)
      case Threw(back, fault) => Catch(env, r, back, w.task.filesChanged, fault)
  }

  function TryCandidate(env: Env, r: Request, attempt: nat, allowed: seq<Path>, paths: seq<Path>, w: World): Attempt {
    if paths == [] then Finish(GiveUp(env, r, w))
    else
      match ApplyPatches(env, r, allowed, paths, w, {})
      case ApplyThrew(later, fault) => Finish(Catch(env, r, later, w.task.filesChanged, fault))
      case Applied(later, blocked) =>
        if blocked then Finish(Outcome(PolicyBlocked, later, None)) else Check(env, r, attempt, later)
  }

  function OneAttempt(env: Env, r: Request, attempt: nat, planned: seq<Path>, first: seq<Path>, w: World): Attempt {
    var inspected := if attempt == 0 then Inspected(first) else env.inspect(w.tick);
    var looked := if attempt == 0 then w else Tick(w);
    if inspected.InspectFails? then Finish(Catch(env, r, looked, w.task.filesChanged, External))
    else
      var asked := Ask(looked, if attempt == 0 then PatchCall else ReviseCall);
      match env.candidate(looked.tick)
      case CandidateFails => Finish(Catch(env, r, asked, w.task.filesChanged, External))
      case Candidate(paths) => TryCandidate(env, r, attempt, inspected.paths + planned + r.scope, paths, asked)
  }

  function RunAttempts(env: Env, r: Request, attempt: nat, planned: seq<Path>, first: seq<Path>, w: World): Outcome
    requires attempt <= MaxRevisions(r) + 1
    decreases MaxRevisions(r) + 1 - attempt
  {
    if attempt > MaxRevisions(r) then Outcome(GaveUp, w, None)
    else
      match OneAttempt(env, r, attempt, planned, first, w)
      case Finish(o) => o
      case Again(next) => RunAttempts(env, r, attempt + 1, planned, first, next)
  }

  function RunLoop(env: Env, r: Request, w: World): Outcome {
    var asked := Ask(w, PlanCall);
    match env.plan(w.tick)
    case PlanFails => Catch(env, r, asked, w.task.filesChanged, External)
    case Planned(planned) =>
      var looked := Tick(asked);
      match env.inspect(asked.tick)
      case InspectFails => Catch(env, r, looked, w.task.filesChanged, External)
      case Inspected(first) =>
        if !r.approved then Outcome(JustPlanned, looked, None)
        else if first == [] then Catch(env, r, looked, w.task.filesChanged, External)
        else RunAttempts(env, r, 0, planned, first, looked)
  }

  // ---------- the loop, step by step ----------

  /** The error handler of the loop. */
  method HandleError(c: CodingRuntime, r: Request, seen: set<Path>, fault: Fault) returns (status: LoopStatus)
    modifies c
    ensures Outcome(status, c.Now(), Some(fault)) == Catch(c.env, r, old(c.Now()), seen, fault)
  {
    if r.approved && seen != {} && c.task.checkpoints != [] {
      var ignored := c.RollbackCodingCheckpoint();
    }
    status := GaveUp;
  }

  method ApplyPatchCandidate(c: CodingRuntime, r: Request, allowed: seq<Path>, paths: seq<Path>)
    returns (blocked: bool, fault: Option<Fault>)
    modifies c
    ensures ApplyPatches(c.env, r, allowed, paths, old(c.Now()), {}) ==
            if fault.None? then Applied(c.Now(), blocked) else ApplyThrew(c.Now(), fault.value)
  {
    hide RecordPatch, Rollback;
    blocked, fault := false, None;
    var changed: set<Path> := {};
    var i := 0;
    assert paths[0..] == paths;
    while i < |paths|
      invariant i <= |paths|
      invariant ApplyPatches(c.env, r, allowed, paths[i..], c.Now(), changed) ==
                ApplyPatches(c.env, r, allowed, paths, old(c.Now()), {})
    {
      assert paths[i..][0] == paths[i] && paths[i..][1..] == paths[i + 1..];
      if paths[i] !in allowed {
        if changed != {} {
          c.history := c.history + [Abandoned(changed)];
        }
        return false, Some(External);
      }
      var reply := c.env.patch(c.tick);
      c.tick := c.tick + 1;
      c.history := c.history + [PatchSent(paths[i], r.approved)];
      if reply.PatchFails? {
        if changed != {} {
          c.history := c.history + [Abandoned(changed)];
        }
        return false, Some(External);
      }
      var original := if paths[i] in c.disk then c.disk[paths[i]] else [];
      if reply.content != original {
        c.disk := c.disk[paths[i] := reply.content];
        changed := changed + {paths[i]};
      }
      i := i + 1;
    }
    assert paths[i..] == [];
    if changed == {} {
      return;
    }
    blocked, fault := c.RecordCodexPatch(changed);
    if fault.Some? {
      c.history := c.history + [Abandoned(changed)];
      return;
    }
    if blocked && c.task.checkpoints != [] {
      fault := c.RollbackCodingCheckpoint();
    }
  }

  method RunAutonomousCodingLoop(c: CodingRuntime, r: Request) returns (status: LoopStatus, fault: Option<Fault>)
    modifies c
    ensures Outcome(status, c.Now(), fault) == RunLoop(c.env, r, old(c.Now()))
  {
    hide OneAttempt, Catch;
    fault := None;
    var seen := c.task.filesChanged;
    var plan := c.env.plan(c.tick);
    c.tick, c.history := c.tick + 1, c.history + [Asked(PlanCall)];
    if plan.PlanFails? {
      status := HandleError(c, r, seen, External);
      return status, Some(External);
    }
    var inspected := c.env.inspect(c.tick);
    c.tick := c.tick + 1;
    if inspected.InspectFails? {
      status := HandleError(c, r, seen, External);
      return status, Some(External);
    }
    if !r.approved {
      return JustPlanned, None;
    }
    if inspected.paths == [] {
      status := HandleError(c, r, seen, External);
      return status, Some(External);
    }
    var attempt := 0;
    while attempt <= MaxRevisions(r)
      invariant attempt <= MaxRevisions(r) + 1
      invariant RunAttempts(c.env, r, attempt, plan.paths, inspected.paths, c.Now()) == RunLoop(c.env, r, old(c.Now()))
    {
      var over;
      over, status, fault := HandleAttempt(c, r, attempt, plan.paths, inspected.paths);
      if over {
        return;
      }
      attempt := attempt + 1;
    }
    return GaveUp, None;
  }

  /** One attempt of the loop: whether the run is over, and how. */
  method HandleAttempt(c: CodingRuntime, r: Request, attempt: nat, planned: seq<Path>, first: seq<Path>)
    returns (over: bool, status: LoopStatus, fault: Option<Fault>)
    modifies c
    ensures OneAttempt(c.env, r, attempt, planned, first, old(c.Now())) ==
            if over then Finish(Outcome(status, c.Now(), fault)) else Again(c.Now())
    ensures !over ==> fault == None
  {
    hide TryCandidate, Catch;
    var seen := c.task.filesChanged;
    var inspected := Inspected(first);
    if attempt > 0 {
      inspected := c.env.inspect(c.tick);
      c.tick := c.tick + 1;
      if inspected.InspectFails? {
        status := HandleError(c, r, seen, External);
        return true, status, Some(External);
      }
    }
    var candidate := c.env.candidate(c.tick);
    c.tick := c.tick + 1;
    c.history := c.history + [Asked(if attempt == 0 then PatchCall else ReviseCall)];
    if candidate.CandidateFails? {
      status := HandleError(c, r, seen, External);
      return true, status, Some(External);
    }
    over, status, fault := HandleCandidate(c, r, attempt, inspected.paths + planned + r.scope, candidate.paths);
  }

  /** Handles one candidate: whether the run is over, and how. */
  method HandleCandidate(c: CodingRuntime, r: Request, attempt: nat, allowed: seq<Path>, paths: seq<Path>)
    returns (over: bool, status: LoopStatus, fault: Option<Fault>)
    modifies c
    ensures TryCandidate(c.env, r, attempt, allowed, paths, old(c.Now())) ==
            if over then Finish(Outcome(status, c.Now(), fault)) else Again(c.Now())
    ensures !over ==> fault == None
  {
    hide ApplyPatches, Validate, Rollback, BeginRevision, Catch;
    over, status, fault := true, GaveUp, None;
    var seen := c.task.filesChanged;
    if paths == [] {
      if seen != {} && c.task.checkpoints != [] {
        fault := c.RollbackCodingCheckpoint();
        if fault.Some? {
          status := HandleError(c, r, seen, fault.value);
          return;
        }
      }
      status := NoChange;
      return;
    }
    var blocked;
    blocked, fault := ApplyPatchCandidate(c, r, allowed, paths);
    if fault.Some? {
      status := HandleError(c, r, seen, fault.value);
      return;
    }
    if blocked {
      status := PolicyBlocked;
      return;
    }
    over, status, fault := HandleValidation(c, r, attempt);
  }

  method HandleValidation(c: CodingRuntime, r: Request, attempt: nat)
    returns (over: bool, status: LoopStatus, fault: Option<Fault>)
    modifies c
    ensures Check(c.env, r, attempt, old(c.Now())) ==
            if over then Finish(Outcome(status, c.Now(), fault)) else Again(c.Now())
    ensures !over ==> fault == None
  {
    hide Validate, Rollback, BeginRevision, Catch;
    over, status := true, GaveUp;
    var seen := c.task.filesChanged;
    var verdict;
    verdict, fault := c.RunCodexValidationStage(Targeted);
    if fault.Some? {
      status := HandleError(c, r, seen, fault.value);
      return;
    }
    if verdict == RemoteRequired {
      status := Remote;
      return;
    }
    seen := c.task.filesChanged;
    if verdict == Passed {
      verdict, fault := c.RunCodexValidationStage(Full);
      if fault.Some? {
        status := HandleError(c, r, seen, fault.value);
        return;
      }
      if verdict == Passed {
        status := Done;
        return;
      }
      if verdict == RemoteRequired {
        status := Remote;
        return;
      }
      seen := c.task.filesChanged;
    }
    if attempt >= MaxRevisions(r) {
      if c.task.checkpoints != [] {
        fault := c.RollbackCodingCheckpoint();
        if fault.Some? {
          status := HandleError(c, r, seen, fault.value);
          return;
        }
      }
      status := ValidationFailed;
      return;
    }
    fault := c.BeginCodingRevision();
    if fault.Some? {
      status := HandleError(c, r, seen, fault.value);
      return;
    }
    over := false;
  }

  // ---------- no guard is ever violated ----------

  /** Applying a candidate touches the task's phase and status only as a patch may. */
  lemma {:induction false} ApplyKeepsReady(env: Env, r: Request, allowed: seq<Path>, paths: seq<Path>, w: World,
                                           changed: set<Path>)
    requires Ready(w.task)
    ensures var a := ApplyPatches(env, r, allowed, paths, w, changed);
            && (a.Applied? && !a.blocked ==> Ready(a.w.task))
            && (a.ApplyThrew? ==> a.fault != Guard)
            && a.w.task.checkpoints == w.task.checkpoints
    decreases |paths|
  {
    if paths != [] && paths[0] in allowed && env.patch(w.tick).Written? {
      var sent := w.(tick := w.tick + 1, history := w.history + [PatchSent(paths[0], r.approved)]);
      var (disk, changes) := Write(w.disk, paths[0], env.patch(w.tick).content);
      ApplyKeepsReady(env, r, allowed, paths[1..], sent.(disk := disk),
                      if changes then changed + {paths[0]} else changed);
    } else if paths == [] && changed != {} {
      RecordKeepsReady(env, w, changed);
    }
  }

  lemma RecordKeepsReady(env: Env, w: World, changed: set<Path>)
    requires Ready(w.task)
    ensures var a := RecordOrAbandon(env, w, changed);
            && (a.Applied? && !a.blocked ==> Ready(a.w.task))
            && (a.ApplyThrew? ==> a.fault != Guard)
            && a.w.task.checkpoints == w.task.checkpoints
  {
    hide Restore, PathsOf;
  }

  /** Validation of a ready task violates no guard, and what fails leaves it where a revision may begin. */
  lemma ValidateKeepsReady(env: Env, w: World, stage: Stage)
    requires if stage == Targeted then Ready(w.task) else w.task.status == Active && w.task.phase == FullValidation
    ensures var v := Validate(env, w, stage);
            && (v.ValidationThrew? ==> v.fault != Guard)
            && (v.Validated? && v.verdict == Failing ==>
                  v.w.task.phase == AnalyzeFailure && v.w.task.status == Active)
            && (v.Validated? && v.verdict == Passed ==>
                  if stage == Targeted then v.w.task.phase == FullValidation && v.w.task.status == Active
                  else v.w.task.phase == Summarize && v.w.task.status == Completed)
            && v.w.task.checkpoints == w.task.checkpoints && v.w.task.filesChanged == w.task.filesChanged
            && v.w.disk == w.disk
  {
    hide RunChecks;
    var t := EnterStage(w.task, stage).value;
    var entered := w.(task := t, tick := w.tick + 1);
    if env.tools(w.tick).Tools? {
      RunChecksExact(env, entered, env.tools(w.tick).count, []);
    }
  }

  lemma CatchKeepsFault(env: Env, r: Request, w: World, seen: set<Path>, fault: Fault)
    ensures Catch(env, r, w, seen, fault).fault == Some(fault) && Catch(env, r, w, seen, fault).status == GaveUp
    ensures Catch(env, r, w, seen, fault).w.history == w.history
  {
  }

  lemma RollbackFault(env: Env, w: World)
    requires w.task.checkpoints != []
    ensures Rollback(env, w).Threw? ==> Rollback(env, w).fault != Guard
    ensures Rollback(env, w).w.history == w.history
    ensures Rollback(env, w).w.task.checkpoints == w.task.checkpoints
  {
    hide Restore, PathsOf;
  }

  ghost predicate NoGuard(a: Attempt) {
    match a
    case Finish(o) => o.fault != Some(Guard) && (o.status == GaveUp <==> o.fault.Some?)
    case Again(w) => Ready(w.task)
  }

  lemma CheckNoGuard(env: Env, r: Request, attempt: nat, w: World)
    requires Ready(w.task)
    ensures NoGuard(Check(env, r, attempt, w))
    ensures attempt >= MaxRevisions(r) ==> Check(env, r, attempt, w).Finish?
  {
    hide Validate, Rollback, Catch;
    ValidateKeepsReady(env, w, Targeted);
    var v := Validate(env, w, Targeted);
    if v.ValidationThrew? {
      CatchKeepsFault(env, r, v.w, w.task.filesChanged, v.fault);
    } else if v.verdict == Failing {
      AfterNoGuard(env, r, attempt, v.w);
    } else if v.verdict == Passed {
      ValidateKeepsReady(env, v.w, Full);
      var f := Validate(env, v.w, Full);
      if f.ValidationThrew? {
        CatchKeepsFault(env, r, f.w, v.w.task.filesChanged, f.fault);
      } else if f.verdict == Failing {
        AfterNoGuard(env, r, attempt, f.w);
      }
    }
  }

  lemma AfterNoGuard(env: Env, r: Request, attempt: nat, w: World)
    requires w.task.phase == AnalyzeFailure && w.task.status == Active
    ensures NoGuard(AfterValidation(env, r, attempt, w))
    ensures attempt >= MaxRevisions(r) ==> AfterValidation(env, r, attempt, w).Finish?
  {
    hide Rollback, Catch;
    if w.task.checkpoints != [] {
      RollbackFault(env, w);
      if Rollback(env, w).Threw? {
        CatchKeepsFault(env, r, Rollback(env, w).w, w.task.filesChanged, Rollback(env, w).fault);
      }
    }
  }

  lemma CandidateNoGuard(env: Env, r: Request, attempt: nat, allowed: seq<Path>, paths: seq<Path>, w: World)
    requires Ready(w.task)
    ensures NoGuard(TryCandidate(env, r, attempt, allowed, paths, w))
    ensures attempt >= MaxRevisions(r) ==> TryCandidate(env, r, attempt, allowed, paths, w).Finish?
  {
    hide ApplyPatches, Check, Rollback, Catch;
    if paths == [] {
      if w.task.checkpoints != [] {
        RollbackFault(env, w);
        if Rollback(env, w).Threw? {
          CatchKeepsFault(env, r, Rollback(env, w).w, w.task.filesChanged, Rollback(env, w).fault);
        }
      }
    } else {
      ApplyKeepsReady(env, r, allowed, paths, w, {});
      var a := ApplyPatches(env, r, allowed, paths, w, {});
      if a.ApplyThrew? {
        CatchKeepsFault(env, r, a.w, w.task.filesChanged, a.fault);
      } else if !a.blocked {
        CheckNoGuard(env, r, attempt, a.w);
      }
    }
  }

  lemma AttemptNoGuard(env: Env, r: Request, attempt: nat, planned: seq<Path>, first: seq<Path>, w: World)
    requires Ready(w.task)
    ensures NoGuard(OneAttempt(env, r, attempt, planned, first, w))
    ensures attempt >= MaxRevisions(r) ==> OneAttempt(env, r, attempt, planned, first, w).Finish?
  {
    hide TryCandidate, Catch;
    var looked := if attempt == 0 then w else Tick(w);
    var asked := Ask(looked, if attempt == 0 then PatchCall else ReviseCall);
    CatchKeepsFault(env, r, looked, w.task.filesChanged, External);
    CatchKeepsFault(env, r, asked, w.task.filesChanged, External);
    var inspected := if attempt == 0 then Inspected(first) else env.inspect(w.tick);
    if inspected.Inspected? && env.candidate(looked.tick).Candidate? {
      CandidateNoGuard(env, r, attempt, inspected.paths + planned + r.scope, env.candidate(looked.tick).paths, asked);
    }
  }

  lemma {:induction false} AttemptsNoGuard(env: Env, r: Request, attempt: nat, planned: seq<Path>, first: seq<Path>,
                                           w: World)
    requires attempt <= MaxRevisions(r) && Ready(w.task)
    ensures var o := RunAttempts(env, r, attempt, planned, first, w);
            o.fault != Some(Guard) && (o.status == GaveUp <==> o.fault.Some?)
    decreases MaxRevisions(r) - attempt
  {
    hide OneAttempt;
    AttemptNoGuard(env, r, attempt, planned, first, w);
    var a := OneAttempt(env, r, attempt, planned, first, w);
    if a.Again? {
      AttemptsNoGuard(env, r, attempt + 1, planned, first, a.w);
    }
  }

  /** For any replies, the loop on a ready task violates no guard, and gives up only because of an
      error: the end of the loop without a result is never reached. */
  lemma ReadyTripsNoGuard(env: Env, r: Request, w: World)
    requires Ready(w.task)
    ensures var o := RunLoop(env, r, w);
            o.fault != Some(Guard) && (o.status == GaveUp <==> o.fault.Some?)
  {
    hide RunAttempts, Catch;
    var asked := Ask(w, PlanCall);
    var looked := Tick(asked);
    CatchKeepsFault(env, r, asked, w.task.filesChanged, External);
    CatchKeepsFault(env, r, looked, w.task.filesChanged, External);
    if env.plan(w.tick).Planned? && env.inspect(asked.tick).Inspected? {
      AttemptsNoGuard(env, r, 0, env.plan(w.tick).paths, env.inspect(asked.tick).paths, looked);
    }
  }
}
