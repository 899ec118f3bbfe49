/**
 What a run of the autonomous coding loop answers: by the last event of its history, by the replies it
 gets, and after how many candidates.
 */
module AutonomousLoopOutcomes {
  import opened Numbers
  import opened Wrappers
  import opened CodingTask
  import opened AutonomousLoop
  import opened AutonomousLoopSafety
  import opened AutonomousLoopRecords

  // ---------- the answer by the last event ----------

  function Last(w: World): Event
    requires w.history != []
  {
    w.history[|w.history| - 1]
  }

  /** The answer of a run that met no error, by the last thing that happened. */
  predicate Answers(e: Event, status: LoopStatus) {
    match status
    case JustPlanned => e == Asked(PlanCall)
    case NoChange => e == Asked(PatchCall) || e == Asked(ReviseCall)
    case PolicyBlocked => e.PatchSent?
    case ValidationFailed => StageFailed(e)
    case Remote => Deferred(e)
    case Done => AllSucceeded(Full, e)
    case GaveUp => false
  }

  /** A run gives up exactly on an error, which never comes after a stage that decides it. */
  predicate Ends(o: Outcome) {
    && o.w.history != []
    && (o.fault.None? ==> Answers(Last(o.w), o.status))
    && (o.fault.Some? ==> o.status == GaveUp && !Deferred(Last(o.w)) && !AllSucceeded(Full, Last(o.w)))
  }

  /** An attempt ends the run, or goes on after a failed stage while revisions are left; only the last
      one reports a failed validation. */
  predicate AttemptEndsWell(r: Request, attempt: nat, a: Attempt) {
    && (a.Finish? ==> Ends(a.o) && a.o.status != JustPlanned && (a.o.status == ValidationFailed ==> attempt >= MaxRevisions(r)))
    && (a.Again? ==> a.w.history != [] && StageFailed(Last(a.w)) && attempt < MaxRevisions(r))
  }

  predicate Undecided(w: World) { w.history != [] && !Deferred(Last(w)) && !AllSucceeded(Full, Last(w)) }

  lemma RollbackHistory(env: Env, w: World)
    requires w.task.checkpoints != []
    ensures Rollback(env, w).w.history == w.history
  {
    hide Restore, PathsOf;
  }

  lemma CatchEnds(env: Env, r: Request, w: World, seen: set<Path>, fault: Fault)
    requires Undecided(w)
    ensures Ends(Catch(env, r, w, seen, fault)) && Catch(env, r, w, seen, fault).status == GaveUp
  {
    hide Rollback, Deferred, AllSucceeded;
    if w.task.checkpoints != [] {
      RollbackHistory(env, w);
    }
  }

  /** A stage that throws adds nothing to the history. */
  lemma ThrowingStage(env: Env, w: World, stage: Stage)
    requires Validate(env, w, stage).ValidationThrew?
    ensures Validate(env, w, stage).w.history == w.history
  {
    hide RunChecks;
    if EnterStage(w.task, stage).Some? && env.tools(w.tick).Tools? {
      var entered := w.(task := EnterStage(w.task, stage).value, tick := w.tick + 1);
      RunChecksKeeps(env, entered, env.tools(w.tick).count, []);
    }
  }

  lemma AfterEnds(env: Env, r: Request, attempt: nat, w: World)
    requires w.history != [] && StageFailed(Last(w))
    ensures AttemptEndsWell(r, attempt, AfterValidation(env, r, attempt, w))
  {
    hide Rollback, Catch, Ends, Transition, StageFailed, MaxRevisions;
    FailedUndecided(w);
    if attempt >= MaxRevisions(r) {
      if w.task.checkpoints != [] {
        RollbackHistory(env, w);
        var back := Rollback(env, w);
        FailedEnds(back.w);
        if back.Threw? {
          FailedUndecided(back.w);
          CatchEnds(env, r, back.w, w.task.filesChanged, back.fault);
        }
      } else {
        FailedEnds(w);
      }
    } else if BeginRevision(w).Threw? {
      CatchEnds(env, r, BeginRevision(w).w, w.task.filesChanged, BeginRevision(w).fault);
    }
  }

  lemma FailedUndecided(w: World)
    requires w.history != [] && StageFailed(Last(w))
    ensures Undecided(w)
  {
  }

  lemma FailedEnds(w: World)
    requires w.history != [] && StageFailed(Last(w))
    ensures Ends(Outcome(ValidationFailed, w, None))
  {
  }

  lemma CheckEnds(env: Env, r: Request, attempt: nat, w: World)
    requires w.history != [] && !Last(w).Checked?
    ensures AttemptEndsWell(r, attempt, Check(env, r, attempt, w))
  {
    hide Validate, AfterValidation, Catch, StageFailed, Deferred, AllSucceeded, MaxRevisions;
    NotCheckedUndecided(w);
    var t := Validate(env, w, Targeted);
    if t.ValidationThrew? {
      ThrowingStage(env, w, Targeted);
      CatchEnds(env, r, t.w, w.task.filesChanged, t.fault);
    } else {
      StagePassesIff(env, w, Targeted);
      if t.verdict == Failing {
        AfterEnds(env, r, attempt, t.w);
      } else if t.verdict == Passed {
        FullEnds(env, r, attempt, t.w);
      }
    }
  }

  lemma NotCheckedUndecided(w: World)
    requires w.history != [] && !Last(w).Checked?
    ensures Undecided(w)
  {
  }

  lemma TargetedUndecided(w: World)
    requires w.history != [] && AllSucceeded(Targeted, Last(w))
    ensures Undecided(w)
  {
  }

  lemma FullEnds(env: Env, r: Request, attempt: nat, w: World)
    requires w.history != [] && AllSucceeded(Targeted, Last(w))
    ensures var f := Validate(env, w, Full);
            && (f.ValidationThrew? ==>
                  AttemptEndsWell(r, attempt, Finish(Catch(env, r, f.w, w.task.filesChanged, f.fault))))
            && (f.Validated? && f.verdict == Passed ==> Ends(Outcome(Done, f.w, None)))
            && (f.Validated? && f.verdict == RemoteRequired ==> Ends(Outcome(Remote, f.w, None)))
            && (f.Validated? && f.verdict == Failing ==>
                  AttemptEndsWell(r, attempt, AfterValidation(env, r, attempt, f.w)))
  {
    hide Validate, AfterValidation, Catch, StageFailed, Deferred, AllSucceeded, MaxRevisions;
    TargetedUndecided(w);
    var f := Validate(env, w, Full);
    if f.ValidationThrew? {
      ThrowingStage(env, w, Full);
      CatchEnds(env, r, f.w, w.task.filesChanged, f.fault);
    } else {
      StagePassesIff(env, w, Full);
      if f.verdict == Failing {
        AfterEnds(env, r, attempt, f.w);
      }
    }
  }

  /** Sending patches leaves a patch, or files given up, as the last event. */
  lemma {:induction false} ApplyLast(env: Env, r: Request, allowed: seq<Path>, paths: seq<Path>, w: World,
                                     changed: set<Path>)
    requires w.history != [] && !Last(w).Checked?
    ensures var a := ApplyPatches(env, r, allowed, paths, w, changed);
            && a.w.history != [] && !Last(a.w).Checked?
            && (a.Applied? && (paths != [] || Last(w).PatchSent?) ==> Last(a.w).PatchSent?)
    decreases |paths|
  {
    hide RecordPatch, Rollback, Write;
    if paths == [] {
      if changed != {} {
        RecordHistory(env, w, changed);
      }
    } else if paths[0] in allowed && env.patch(w.tick).Written? {
      var sent := w.(tick := w.tick + 1, history := w.history + [PatchSent(paths[0], r.approved)]);
      var (disk, changes) := Write(w.disk, paths[0], env.patch(w.tick).content);
      ApplyLast(env, r, allowed, paths[1..], sent.(disk := disk), if changes then changed + {paths[0]} else changed);
    }
  }

  lemma RecordHistory(env: Env, w: World, changed: set<Path>)
    ensures var a := RecordOrAbandon(env, w, changed);
            a.w.history == w.history || (a.ApplyThrew? && a.w.history == w.history + [Abandoned(changed)])
  {
    hide Rollback, Transition;
    var recorded := RecordPatch(env, w, changed);
    if recorded.w.task.checkpoints != [] {
      RollbackHistory(env, recorded.w);
    }
  }

  lemma GiveUpEnds(env: Env, r: Request, w: World)
    requires w.history != [] && (Last(w) == Asked(PatchCall) || Last(w) == Asked(ReviseCall))
    ensures Ends(GiveUp(env, r, w))
  {
    hide Rollback, Catch;
    if w.task.checkpoints != [] {
      RollbackHistory(env, w);
      var back := Rollback(env, w);
      if back.Threw? {
        CatchEnds(env, r, back.w, w.task.filesChanged, back.fault);
      }
    }
  }

  lemma CandidateEnds(env: Env, r: Request, attempt: nat, allowed: seq<Path>, paths: seq<Path>, w: World)
    requires w.history != [] && (Last(w) == Asked(PatchCall) || Last(w) == Asked(ReviseCall))
    ensures AttemptEndsWell(r, attempt, TryCandidate(env, r, attempt, allowed, paths, w))
  {
    hide ApplyPatches, Check, Catch, GiveUp, MaxRevisions, Deferred, AllSucceeded, StageFailed;
    if paths == [] {
      GiveUpEnds(env, r, w);
      GiveUpNotFailed(env, r, w);
    } else {
      ApplyLast(env, r, allowed, paths, w, {});
      var a := ApplyPatches(env, r, allowed, paths, w, {});
      if a.ApplyThrew? {
        NotCheckedUndecided(a.w);
        CatchEnds(env, r, a.w, w.task.filesChanged, a.fault);
      } else if !a.blocked {
        CheckEnds(env, r, attempt, a.w);
      }
    }
  }

  lemma GiveUpNotFailed(env: Env, r: Request, w: World)
    ensures GiveUp(env, r, w).status != ValidationFailed && GiveUp(env, r, w).status != JustPlanned
  {
    hide Rollback;
  }

  lemma AttemptEnds(env: Env, r: Request, attempt: nat, planned: seq<Path>, first: seq<Path>, w: World)
    requires Undecided(w)
    ensures AttemptEndsWell(r, attempt, OneAttempt(env, r, attempt, planned, first, w))
  {
    hide TryCandidate, Catch, MaxRevisions, StageFailed, Undecided;
    var looked := if attempt == 0 then w else Tick(w);
    var asked := Ask(looked, if attempt == 0 then PatchCall else ReviseCall);
    assert Last(asked) == Asked(if attempt == 0 then PatchCall else ReviseCall);
    NotCheckedUndecided(asked);
    SameUndecided(w, looked);
    CatchEnds(env, r, looked, w.task.filesChanged, External);
    CatchEnds(env, r, asked, w.task.filesChanged, External);
    var inspected := if attempt == 0 then Inspected(first) else env.inspect(w.tick);
    if inspected.Inspected? && env.candidate(looked.tick).Candidate? {
      CandidateEnds(env, r, attempt, inspected.paths + planned + r.scope, env.candidate(looked.tick).paths, asked);
    }
  }

  lemma SameUndecided(w: World, same: World)
    requires Undecided(w) && same.history == w.history
    ensures Undecided(same)
  {
  }

  lemma {:induction false} AttemptsEnd(env: Env, r: Request, attempt: nat, planned: seq<Path>, first: seq<Path>, w: World)
    requires attempt <= MaxRevisions(r) && Undecided(w)
    ensures Ends(RunAttempts(env, r, attempt, planned, first, w))
    ensures RunAttempts(env, r, attempt, planned, first, w).status != JustPlanned
    decreases MaxRevisions(r) - attempt
  {
    hide OneAttempt, Ends, Undecided, StageFailed;
    AttemptEnds(env, r, attempt, planned, first, w);
    var a := OneAttempt(env, r, attempt, planned, first, w);
    if a.Again? {
      FailedUndecided(a.w);
      AttemptsEnd(env, r, attempt + 1, planned, first, a.w);
    }
  }

  lemma RunEnds(env: Env, r: Request, w: World)
    ensures Ends(RunLoop(env, r, w))
    ensures var o := RunLoop(env, r, w);
            && (o.status == JustPlanned ==> !r.approved)
            && (!r.approved ==> o.status == JustPlanned || o.status == GaveUp)
  {
    hide RunAttempts, Catch, Undecided;
    var asked := Ask(w, PlanCall);
    var looked := Tick(asked);
    assert Last(asked) == Asked(PlanCall);
    NotCheckedUndecided(asked);
    NotCheckedUndecided(looked);
    CatchEnds(env, r, asked, w.task.filesChanged, External);
    CatchEnds(env, r, looked, w.task.filesChanged, External);
    if env.plan(w.tick).Planned? && env.inspect(asked.tick).Inspected? && r.approved {
      AttemptsEnd(env, r, 0, env.plan(w.tick).paths, env.inspect(asked.tick).paths, looked);
    }
  }

  /** The answer of every run: it is given up exactly on an error; it is completed exactly with approval
      and a full stage of successful tools as the last event; it waits for remote validation exactly
      after a stage that does; without an error it is a failed validation exactly after a failed stage,
      blocked after a patch, without change after a request for patches, and planned after the plan. */
  lemma AnswerByLastEvent(env: Env, r: Request, w: World)
    ensures var o := RunLoop(env, r, w);
            o.w.history != [] &&
            var last := o.w.history[|o.w.history| - 1];
            && (o.status == GaveUp <==> o.fault.Some?)
            && (o.status == Done <==>
                  r.approved && last.Checked? && last.stage == Full && last.results != []
                  && forall i :: 0 <= i < |last.results| ==> last.results[i] == Succeeded)
            && (o.status == Remote <==>
                  last.Checked? && NeedsRemote in last.results
                  && CheckFailed !in last.results && CheckBlocked !in last.results)
            && (o.status == ValidationFailed <==>
                  o.fault.None? && last.Checked?
                  && (last.results == [] || CheckFailed in last.results || CheckBlocked in last.results))
            && (o.status == PolicyBlocked <==> o.fault.None? && last.PatchSent?)
            && (o.status == NoChange <==> o.fault.None? && (last == Asked(PatchCall) || last == Asked(ReviseCall)))
            && (o.status == JustPlanned <==> o.fault.None? && last == Asked(PlanCall))
  {
    hide RunLoop;
    RunEnds(env, r, w);
    LastDecides(RunLoop(env, r, w));
  }

  lemma LastDecides(o: Outcome)
    requires Ends(o)
    ensures AllSucceeded(Full, Last(o.w)) ==> o.status == Done
    ensures Deferred(Last(o.w)) ==> o.status == Remote
    ensures StageFailed(Last(o.w)) && o.fault.None? ==> o.status == ValidationFailed
  {
    if StageFailed(Last(o.w)) {
      FailedUndecided(o.w);
    }
  }

  // ---------- how many candidates a failed validation takes ----------

  lemma {:induction false} CallsPrefix(h: seq<Event>, later: seq<Event>)
    requires h <= later
    ensures Calls(h) <= Calls(later)
    decreases |later|
  {
    if h == later {
    } else {
      var n := |later| - 1;
      CallsPrefix(h, later[..n]);
    }
  }

  lemma AttemptAsks(env: Env, r: Request, attempt: nat, planned: seq<Path>, first: seq<Path>, w: World)
    requires r.approved
    ensures var a := OneAttempt(env, r, attempt, planned, first, w);
            a.Again? || a.o.status != GaveUp ==> Calls(Left(a).history) == Calls(w.history) + 1
  {
    hide Sound, TryCandidate, Calls;
    AttemptSound(env, r, map[], attempt, planned, first, w);
    SoundCalls(r, w, Left(OneAttempt(env, r, attempt, planned, first, w)), 1);
    var looked := if attempt == 0 then w else Tick(w);
    var call := if attempt == 0 then PatchCall else ReviseCall;
    var asked := Ask(looked, call);
    CallsNext(looked.history, Asked(call));
    var inspected := if attempt == 0 then Inspected(first) else env.inspect(w.tick);
    CatchKeepsFault(env, r, looked, w.task.filesChanged, External);
    CatchKeepsFault(env, r, asked, w.task.filesChanged, External);
    if inspected.Inspected? && env.candidate(looked.tick).Candidate? {
      var allowed, paths := inspected.paths + planned + r.scope, env.candidate(looked.tick).paths;
      CandidateSound(env, r, map[], attempt, allowed, paths, asked);
      SoundCalls(r, asked, Left(TryCandidate(env, r, attempt, allowed, paths, asked)), 0);
    }
  }

  lemma SoundCalls(r: Request, w: World, after: World, n: nat)
    requires Sound(r, map[], w, after, n)
    ensures Calls(w.history) <= Calls(after.history) <= Calls(w.history) + n
  {
    hide Tracked, LatestReflects, ApprovedFrom;
    CallsPrefix(w.history, after.history);
  }

  lemma {:induction false} AttemptsAsk(env: Env, r: Request, attempt: nat, planned: seq<Path>, first: seq<Path>, w: World)
    requires r.approved && attempt <= MaxRevisions(r) && Undecided(w)
    ensures var o := RunAttempts(env, r, attempt, planned, first, w);
            o.status == ValidationFailed ==> Calls(o.w.history) == Calls(w.history) + MaxRevisions(r) - attempt + 1
    decreases MaxRevisions(r) - attempt
  {
    hide OneAttempt, Ends, Undecided, StageFailed, Calls, MaxRevisions;
    AttemptEnds(env, r, attempt, planned, first, w);
    AttemptAsks(env, r, attempt, planned, first, w);
    var a := OneAttempt(env, r, attempt, planned, first, w);
    if a.Again? {
      FailedUndecided(a.w);
      AttemptsAsk(env, r, attempt + 1, planned, first, a.w);
    } else if a.o.status == ValidationFailed {
      RevisionsUsedUp(env, r, attempt, planned, first, w);
    }
  }

  lemma RevisionsUsedUp(env: Env, r: Request, attempt: nat, planned: seq<Path>, first: seq<Path>, w: World)
    requires attempt <= MaxRevisions(r) && Undecided(w)
    requires OneAttempt(env, r, attempt, planned, first, w).Finish?
    ensures OneAttempt(env, r, attempt, planned, first, w).o.status == ValidationFailed ==> attempt == MaxRevisions(r)
  {
    hide OneAttempt, Ends, Undecided, StageFailed, MaxRevisions;
    AttemptEnds(env, r, attempt, planned, first, w);
  }

  /** A run reports a failed validation only after all its candidates: the first and as many revisions as
      were asked for, two unless told otherwise and never more than three. */
  lemma FailureTakesAllRevisions(env: Env, r: Request, w: World)
    ensures var o := RunLoop(env, r, w);
            o.status == ValidationFailed ==>
              Calls(o.w.history) == Calls(w.history) + 2 + Max(0, Min(r.maxRevisions.GetOr(2), 3))
  {
    hide RunAttempts, Catch, Undecided, Calls;
    var asked := Ask(w, PlanCall);
    var looked := Tick(asked);
    assert Last(asked) == Asked(PlanCall);
    NotCheckedUndecided(looked);
    CatchKeepsFault(env, r, asked, w.task.filesChanged, External);
    CatchKeepsFault(env, r, looked, w.task.filesChanged, External);
    CallsNext(w.history, Asked(PlanCall));
    if env.plan(w.tick).Planned? && env.inspect(asked.tick).Inspected? && r.approved {
      AttemptsAsk(env, r, 0, env.plan(w.tick).paths, env.inspect(asked.tick).paths, looked);
    }
  }

  // ---------- the answer by the replies ----------

  /** From this moment on, some tools are named and all of them succeed. */
  predicate StagePasses(env: Env, at: nat) {
    && env.tools(at).Tools? && env.tools(at).count > 0
    && forall t :: at < t <= at + env.tools(at).count ==> env.check(t) == Result(Succeeded)
  }

  /** A stage that may be entered passes exactly on its replies, and leaves the moment after them. */
  lemma StageAt(env: Env, w: World, stage: Stage)
    requires MayEnter(w.task, stage)
    ensures var v := Validate(env, w, stage);
            && (v.Validated? && v.verdict == Passed <==> StagePasses(env, w.tick))
            && (StagePasses(env, w.tick) ==> v.w.tick == w.tick + 1 + env.tools(w.tick).count)
  {
    hide RunChecks;
    StageByReplies(env, w, stage);
    if StagePasses(env, w.tick) {
      var entered := w.(task := EnterStage(w.task, stage).value, tick := w.tick + 1);
      var n := env.tools(w.tick).count;
      ResultsAreReplies(env, entered, n);
      RunChecksByReplies(env, entered, n, []);
      RepliesDecide(env, entered, n);
    }
  }

  /** The replies that complete a candidate: every patch is of an allowed file and goes through, the
      policy lets the changes pass, and then both stages do. */
  predicate Completes(env: Env, allowed: seq<Path>, paths: seq<Path>, w: World) {
    var s := SentFrom(env, allowed, paths, w);
    var at := if s.changed == {} then s.tick else s.tick + 1;
    && paths != [] && s.all
    && (s.changed != {} ==> env.policy(s.tick) == Pass || env.policy(s.tick) == Review)
    && StagePasses(env, at) && StagePasses(env, at + 1 + env.tools(at).count)
  }

  lemma CheckByReplies(env: Env, r: Request, attempt: nat, w: World)
    requires MayEnter(w.task, Targeted)
    ensures var a := Check(env, r, attempt, w);
            && (a.Finish? && a.o.status == Done <==>
                  StagePasses(env, w.tick) && StagePasses(env, w.tick + 1 + env.tools(w.tick).count))
            && (a.Finish? && a.o.status == Done ==>
                  a.o.w.disk == w.disk && a.o.w.task.filesChanged == w.task.filesChanged)
  {
    hide Validate, AfterValidation, Catch, StagePasses;
    StageAt(env, w, Targeted);
    var t := Validate(env, w, Targeted);
    if t.ValidationThrew? {
      CatchKeepsFault(env, r, t.w, w.task.filesChanged, t.fault);
    } else {
      StagePassesIff(env, w, Targeted);
      AfterNotDone(env, r, attempt, t.w);
      if t.verdict == Passed {
        StageAt(env, t.w, Full);
        var f := Validate(env, t.w, Full);
        if f.ValidationThrew? {
          CatchKeepsFault(env, r, f.w, t.w.task.filesChanged, f.fault);
        } else {
          StagePassesIff(env, t.w, Full);
          AfterNotDone(env, r, attempt, f.w);
        }
      }
    }
  }

  lemma AfterNotDone(env: Env, r: Request, attempt: nat, w: World)
    ensures var a := AfterValidation(env, r, attempt, w); a.Finish? ==> a.o.status != Done
  {
    hide Rollback, Transition;
  }

  /** A candidate on an active task in inspection, patching or revision completes the run exactly on such
      replies; the files are then as the patches left them and recorded as changed. */
  lemma CandidateCompletesIff(env: Env, r: Request, attempt: nat, allowed: seq<Path>, paths: seq<Path>, w: World)
    requires w.task.status == Active && (w.task.phase == Inspect || w.task.phase == Patch || w.task.phase == Revise)
    ensures var a := TryCandidate(env, r, attempt, allowed, paths, w);
            var s := SentFrom(env, allowed, paths, w);
            && (a.Finish? && a.o.status == Done <==> Completes(env, allowed, paths, w))
            && (a.Finish? && a.o.status == Done ==>
                  a.o.w.disk == s.disk && a.o.w.task.filesChanged == w.task.filesChanged + s.changed)
  {
    hide ApplyPatches, Check, Sent, StagePasses, Catch;
    if paths == [] {
      GiveUpNotDone(env, r, w);
    } else {
      var after := ApplyIs(env, r, allowed, paths, w, {});
      var s := SentFrom(env, allowed, paths, w);
      var a := ApplyPatches(env, r, allowed, paths, w, {});
      if a.ApplyThrew? {
        CatchKeepsFault(env, r, a.w, w.task.filesChanged, a.fault);
      }
      if s.all && s.changed != {} {
        RecordedPasses(env, after, s.changed);
      }
      if a.Applied? && !a.blocked {
        CheckByReplies(env, r, attempt, a.w);
      }
    }
  }

  lemma GiveUpNotDone(env: Env, r: Request, w: World)
    ensures GiveUp(env, r, w).status != Done
  {
    hide Rollback;
  }

  lemma RecordedPasses(env: Env, w: World, changed: set<Path>)
    requires w.task.status == Active && (w.task.phase == Inspect || w.task.phase == Patch || w.task.phase == Revise)
    ensures var a := RecordOrAbandon(env, w, changed);
            && (a.Applied? && !a.blocked <==> env.policy(w.tick) == Pass || env.policy(w.tick) == Review)
            && (a.Applied? && !a.blocked ==>
                  && a.w.disk == w.disk && a.w.tick == w.tick + 1
                  && MayEnter(a.w.task, Targeted) && a.w.task.filesChanged == w.task.filesChanged + changed)
  {
    hide Rollback;
    RecordedIff(w.task, changed, env.policy(w.tick));
  }

  /** A run is completed by its first candidate when the request is approved, the task is ready, and the
      replies give a plan, some inspected files, and patches that complete. */
  lemma RunCompletes(env: Env, r: Request, w: World)
    requires r.approved
    requires w.task.status == Active && (w.task.phase == Inspect || w.task.phase == Patch || w.task.phase == Revise)
    requires env.plan(w.tick).Planned? && env.inspect(w.tick + 1).Inspected? && env.inspect(w.tick + 1).paths != []
    requires env.candidate(w.tick + 2).Candidate?
    requires Completes(env, env.inspect(w.tick + 1).paths + env.plan(w.tick).paths + r.scope,
                       env.candidate(w.tick + 2).paths, w.(tick := w.tick + 3))
    ensures var o := RunLoop(env, r, w);
            && o.status == Done && o.fault.None?
            && o.w.task.phase == Summarize && o.w.task.status == Completed
            && o.w.disk == SentFrom(env, env.inspect(w.tick + 1).paths + env.plan(w.tick).paths + r.scope,
                                    env.candidate(w.tick + 2).paths, w.(tick := w.tick + 3)).disk
  {
    hide TryCandidate, Completes, SentFrom, Catch;
    var looked := Tick(Ask(w, PlanCall));
    var asked := Ask(looked, PatchCall);
    var allowed := env.inspect(w.tick + 1).paths + env.plan(w.tick).paths + r.scope;
    var paths := env.candidate(w.tick + 2).paths;
    SameCompletes(env, allowed, paths, w.(tick := w.tick + 3), asked);
    CandidateCompletesIff(env, r, 0, allowed, paths, asked);
    assert OneAttempt(env, r, 0, env.plan(w.tick).paths, env.inspect(w.tick + 1).paths, looked)
        == TryCandidate(env, r, 0, allowed, paths, asked);
    CompletedIsEarned(env, r, w);
    AnswerByLastEvent(env, r, w);
  }

  lemma SameCompletes(env: Env, allowed: seq<Path>, paths: seq<Path>, a: World, b: World)
    requires a.disk == b.disk && a.tick == b.tick
    ensures SentFrom(env, allowed, paths, a) == SentFrom(env, allowed, paths, b)
    ensures Completes(env, allowed, paths, a) <==> Completes(env, allowed, paths, b)
  {
    hide Sent, StagePasses;
  }
}
