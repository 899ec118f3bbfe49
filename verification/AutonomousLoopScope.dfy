/**
 Which files a run of the autonomous coding loop can touch: those it planned, those it inspected, and
 those the repository analysis allows.
 */
module AutonomousLoopScope {
  import opened Wrappers
  import opened CodingTask
  import opened AutonomousLoop
  import opened AutonomousLoopSafety
  import opened AutonomousLoopOutcomes

  ghost predicate InScope(env: Env, planned: seq<Path>, scope: seq<Path>, p: Path) {
    p in planned || p in scope || exists t: nat :: env.inspect(t).Inspected? && p in env.inspect(t).paths
  }

  /** From one state to a later one, only paths in scope were patched, and every other path that was as in
      the checkpoint still is. */
  ghost predicate Within(env: Env, planned: seq<Path>, scope: seq<Path>, base: Disk, w: World, after: World) {
    && w.history <= after.history && after.task.checkpoints == w.task.checkpoints
    && (forall i :: |w.history| <= i < |after.history| && after.history[i].PatchSent? ==>
          InScope(env, planned, scope, after.history[i].path))
    && (LatestReflects(w.task, base) ==>
          forall p :: !InScope(env, planned, scope, p) && SameAt(w.disk, base, p) ==> SameAt(after.disk, base, p))
  }

  lemma WithinThen(env: Env, planned: seq<Path>, scope: seq<Path>, base: Disk, a: World, b: World, c: World)
    requires Within(env, planned, scope, base, a, b) && Within(env, planned, scope, base, b, c)
    ensures Within(env, planned, scope, base, a, c)
  {
    hide InScope, SameAt, Reflects;
    forall i | |a.history| <= i < |c.history| && c.history[i].PatchSent?
      ensures InScope(env, planned, scope, c.history[i].path)
    {
      assert i < |b.history| ==> b.history[i] == c.history[i];
    }
  }

  /** At most one event that is not a patch, and the files as they were. */
  lemma WithinSame(env: Env, planned: seq<Path>, scope: seq<Path>, base: Disk, w: World, after: World)
    requires after.disk == w.disk && after.task.checkpoints == w.task.checkpoints
    requires after.history == w.history
             || (|after.history| == |w.history| + 1 && w.history <= after.history && !Last(after).PatchSent?)
    ensures Within(env, planned, scope, base, w, after)
  {
    hide InScope, SameAt, Reflects;
  }

  lemma RollbackWithin(env: Env, planned: seq<Path>, scope: seq<Path>, base: Disk, w: World)
    requires w.task.checkpoints != []
    ensures Within(env, planned, scope, base, w, Rollback(env, w).w)
  {
    hide InScope, Rollback, Restore, PathsOf, SameAt, NoEmptyFile, Reflects;
    RollbackExact(env, w);
    var entries, after := w.task.checkpoints[|w.task.checkpoints| - 1], Rollback(env, w).w;
    if LatestReflects(w.task, base) {
      forall p | SameAt(w.disk, base, p) ensures SameAt(after.disk, base, p) {
        RestoreAgrees(w.disk, entries, base, p);
        SameAtTrans(after.disk, w.disk, base, p);
      }
    }
  }

  lemma CatchWithin(env: Env, r: Request, planned: seq<Path>, base: Disk, w: World, seen: set<Path>, fault: Fault)
    ensures Within(env, planned, r.scope, base, w, Catch(env, r, w, seen, fault).w)
  {
    hide Rollback, Within;
    WithinSame(env, planned, r.scope, base, w, w);
    if w.task.checkpoints != [] {
      RollbackWithin(env, planned, r.scope, base, w);
    }
  }

  lemma StageWithin(env: Env, planned: seq<Path>, scope: seq<Path>, base: Disk, w: World, stage: Stage)
    ensures Within(env, planned, scope, base, w, Validate(env, w, stage).w)
  {
    hide Validate, Within, AllSucceeded, StageFailed, Deferred;
    if Validate(env, w, stage).Validated? {
      StagePassesIff(env, w, stage);
    } else {
      ThrowingStage(env, w, stage);
      StageKeepsFiles(env, w, stage);
    }
    WithinSame(env, planned, scope, base, w, Validate(env, w, stage).w);
  }

  lemma StageKeepsFiles(env: Env, w: World, stage: Stage)
    ensures var after := Validate(env, w, stage).w; after.disk == w.disk && after.task.checkpoints == w.task.checkpoints
  {
    hide RunChecks;
    if EnterStage(w.task, stage).Some? && env.tools(w.tick).Tools? {
      RunChecksKeeps(env, w.(task := EnterStage(w.task, stage).value, tick := w.tick + 1), env.tools(w.tick).count, []);
    }
  }

  lemma AfterWithin(env: Env, r: Request, planned: seq<Path>, base: Disk, attempt: nat, w: World)
    ensures Within(env, planned, r.scope, base, w, Left(AfterValidation(env, r, attempt, w)))
  {
    hide Within, Rollback, Catch;
    WithinSame(env, planned, r.scope, base, w, w);
    WithinSame(env, planned, r.scope, base, w, BeginRevision(w).w);
    if attempt >= MaxRevisions(r) {
      if w.task.checkpoints != [] {
        var back := Rollback(env, w).w;
        RollbackWithin(env, planned, r.scope, base, w);
        if Rollback(env, w).Threw? {
          var fault := Rollback(env, w).fault;
          CatchWithin(env, r, planned, base, back, w.task.filesChanged, fault);
          WithinThen(env, planned, r.scope, base, w, back, Catch(env, r, back, w.task.filesChanged, fault).w);
        }
      }
    } else if BeginRevision(w).Threw? {
      var next := BeginRevision(w);
      CatchWithin(env, r, planned, base, next.w, w.task.filesChanged, next.fault);
      WithinThen(env, planned, r.scope, base, w, next.w, Catch(env, r, next.w, w.task.filesChanged, next.fault).w);
    }
  }

  lemma CheckWithin(env: Env, r: Request, planned: seq<Path>, base: Disk, attempt: nat, w: World)
    ensures Within(env, planned, r.scope, base, w, Left(Check(env, r, attempt, w)))
  {
    hide Within, Validate, AfterValidation, Catch;
    var t := Validate(env, w, Targeted);
    StageWithin(env, planned, r.scope, base, w, Targeted);
    if t.ValidationThrew? {
      CatchWithin(env, r, planned, base, t.w, w.task.filesChanged, t.fault);
      WithinThen(env, planned, r.scope, base, w, t.w, Catch(env, r, t.w, w.task.filesChanged, t.fault).w);
    } else if t.verdict == Failing {
      AfterWithin(env, r, planned, base, attempt, t.w);
      WithinThen(env, planned, r.scope, base, w, t.w, Left(AfterValidation(env, r, attempt, t.w)));
    } else if t.verdict == Passed {
      var f := Validate(env, t.w, Full);
      StageWithin(env, planned, r.scope, base, t.w, Full);
      WithinThen(env, planned, r.scope, base, w, t.w, f.w);
      if f.ValidationThrew? {
        CatchWithin(env, r, planned, base, f.w, t.w.task.filesChanged, f.fault);
        WithinThen(env, planned, r.scope, base, w, f.w, Catch(env, r, f.w, t.w.task.filesChanged, f.fault).w);
      } else if f.verdict == Failing {
        AfterWithin(env, r, planned, base, attempt, f.w);
        WithinThen(env, planned, r.scope, base, w, f.w, Left(AfterValidation(env, r, attempt, f.w)));
      }
    }
  }

  lemma RecordWithin(env: Env, planned: seq<Path>, scope: seq<Path>, base: Disk, w: World, changed: set<Path>)
    ensures Within(env, planned, scope, base, w, RecordOrAbandon(env, w, changed).w)
  {
    hide Within, Rollback, RecordVerdict;
    var recorded := RecordPatch(env, w, changed);
    RecordedIff(w.task, changed, env.policy(w.tick));
    WithinSame(env, planned, scope, base, w, recorded.w);
    WithinSame(env, planned, scope, base, w, Abandon(recorded.w, changed));
    if recorded.Applied? && recorded.w.task.checkpoints != [] {
      RollbackWithin(env, planned, scope, base, recorded.w);
      WithinThen(env, planned, scope, base, w, recorded.w, Rollback(env, recorded.w).w);
    }
  }

  /** One patch of a path in scope. */
  lemma SentWithin(env: Env, planned: seq<Path>, scope: seq<Path>, base: Disk, w: World, next: World, path: Path,
                   approved: bool)
    requires InScope(env, planned, scope, path)
    requires next.history == w.history + [PatchSent(path, approved)] && next.task == w.task
    requires forall p :: p != path ==> SameAt(next.disk, w.disk, p)
    ensures Within(env, planned, scope, base, w, next)
  {
    hide InScope, SameAt, Reflects;
    forall p | !InScope(env, planned, scope, p) && SameAt(w.disk, base, p) ensures SameAt(next.disk, base, p) {
      SameAtTrans(next.disk, w.disk, base, p);
    }
  }

  lemma {:induction false} ApplyWithin(env: Env, r: Request, planned: seq<Path>, base: Disk, allowed: seq<Path>,
                                       paths: seq<Path>, w: World, changed: set<Path>)
    requires forall p :: p in allowed ==> InScope(env, planned, r.scope, p)
    ensures Within(env, planned, r.scope, base, w, ApplyPatches(env, r, allowed, paths, w, changed).w)
    decreases |paths|
  {
    hide Within, InScope, RecordOrAbandon, Write, SameAt;
    WithinSame(env, planned, r.scope, base, w, w);
    if paths == [] {
      RecordWithin(env, planned, r.scope, base, w, changed);
    } else if paths[0] !in allowed {
      WithinSame(env, planned, r.scope, base, w, Abandon(w, changed));
    } else {
      var sent := w.(tick := w.tick + 1, history := w.history + [PatchSent(paths[0], r.approved)]);
      if env.patch(w.tick).PatchFails? {
        SameFiles(w.disk);
        SentWithin(env, planned, r.scope, base, w, sent, paths[0], r.approved);
        WithinSame(env, planned, r.scope, base, sent, Abandon(sent, changed));
        WithinThen(env, planned, r.scope, base, w, sent, Abandon(sent, changed));
      } else {
        var (disk, changes) := Write(w.disk, paths[0], env.patch(w.tick).content);
        var next, more := sent.(disk := disk), if changes then changed + {paths[0]} else changed;
        WriteChanges(w.disk, paths[0], env.patch(w.tick).content);
        SentWithin(env, planned, r.scope, base, w, next, paths[0], r.approved);
        ApplyWithin(env, r, planned, base, allowed, paths[1..], next, more);
        WithinThen(env, planned, r.scope, base, w, next, ApplyPatches(env, r, allowed, paths[1..], next, more).w);
      }
    }
  }

  lemma SameFiles(disk: Disk)
    ensures forall p :: SameAt(disk, disk, p)
  {
  }

  lemma CandidateWithin(env: Env, r: Request, planned: seq<Path>, base: Disk, attempt: nat, allowed: seq<Path>,
                        paths: seq<Path>, w: World)
    requires forall p :: p in allowed ==> InScope(env, planned, r.scope, p)
    ensures Within(env, planned, r.scope, base, w, Left(TryCandidate(env, r, attempt, allowed, paths, w)))
  {
    hide Within, InScope, ApplyPatches, Check, Catch, Rollback;
    if paths == [] {
      WithinSame(env, planned, r.scope, base, w, w);
      if w.task.checkpoints != [] {
        var back := Rollback(env, w);
        RollbackWithin(env, planned, r.scope, base, w);
        if back.Threw? {
          CatchWithin(env, r, planned, base, back.w, w.task.filesChanged, back.fault);
          WithinThen(env, planned, r.scope, base, w, back.w, Catch(env, r, back.w, w.task.filesChanged, back.fault).w);
        }
      }
    } else {
      var a := ApplyPatches(env, r, allowed, paths, w, {});
      ApplyWithin(env, r, planned, base, allowed, paths, w, {});
      if a.ApplyThrew? {
        CatchWithin(env, r, planned, base, a.w, w.task.filesChanged, a.fault);
        WithinThen(env, planned, r.scope, base, w, a.w, Catch(env, r, a.w, w.task.filesChanged, a.fault).w);
      } else {
        CheckWithin(env, r, planned, base, attempt, a.w);
        WithinThen(env, planned, r.scope, base, w, a.w, Left(Check(env, r, attempt, a.w)));
      }
    }
  }

  lemma AttemptWithin(env: Env, r: Request, planned: seq<Path>, base: Disk, attempt: nat, first: seq<Path>, w: World)
    requires forall p :: p in first ==> InScope(env, planned, r.scope, p)
    ensures Within(env, planned, r.scope, base, w, Left(OneAttempt(env, r, attempt, planned, first, w)))
  {
    hide Within, TryCandidate, Catch;
    var looked := if attempt == 0 then w else Tick(w);
    var asked := Ask(looked, if attempt == 0 then PatchCall else ReviseCall);
    WithinSame(env, planned, r.scope, base, w, looked);
    WithinSame(env, planned, r.scope, base, w, asked);
    CatchWithin(env, r, planned, base, looked, w.task.filesChanged, External);
    WithinThen(env, planned, r.scope, base, w, looked, Catch(env, r, looked, w.task.filesChanged, External).w);
    CatchWithin(env, r, planned, base, asked, w.task.filesChanged, External);
    WithinThen(env, planned, r.scope, base, w, asked, Catch(env, r, asked, w.task.filesChanged, External).w);
    var inspected := if attempt == 0 then Inspected(first) else env.inspect(w.tick);
    if inspected.Inspected? && env.candidate(looked.tick).Candidate? {
      var allowed, paths := inspected.paths + planned + r.scope, env.candidate(looked.tick).paths;
      CandidateWithin(env, r, planned, base, attempt, allowed, paths, asked);
      WithinThen(env, planned, r.scope, base, w, asked, Left(TryCandidate(env, r, attempt, allowed, paths, asked)));
    }
  }

  lemma {:induction false} AttemptsWithin(env: Env, r: Request, planned: seq<Path>, base: Disk, attempt: nat,
                                          first: seq<Path>, w: World)
    requires attempt <= MaxRevisions(r) + 1
    requires forall p :: p in first ==> InScope(env, planned, r.scope, p)
    ensures Within(env, planned, r.scope, base, w, RunAttempts(env, r, attempt, planned, first, w).w)
    decreases MaxRevisions(r) + 1 - attempt
  {
    hide Within, InScope, OneAttempt;
    WithinSame(env, planned, r.scope, base, w, w);
    if attempt <= MaxRevisions(r) {
      AttemptWithin(env, r, planned, base, attempt, first, w);
      var a := OneAttempt(env, r, attempt, planned, first, w);
      if a.Again? {
        AttemptsWithin(env, r, planned, base, attempt + 1, first, a.w);
        WithinThen(env, planned, r.scope, base, w, a.w, RunAttempts(env, r, attempt + 1, planned, first, a.w).w);
      }
    }
  }

  /** A run patches only files that it planned, that an inspection of it gave, or that the request allows;
      and every other file that was as in the checkpoint is so when it ends. */
  lemma RunStaysInScope(env: Env, r: Request, base: Disk, w: World)
    ensures var o, planned := RunLoop(env, r, w), if env.plan(w.tick).Planned? then env.plan(w.tick).paths else [];
            && (forall i :: |w.history| <= i < |o.w.history| && o.w.history[i].PatchSent? ==>
                  InScope(env, planned, r.scope, o.w.history[i].path))
            && (LatestReflects(w.task, base) ==>
                  forall p :: !InScope(env, planned, r.scope, p) && SameAt(w.disk, base, p) ==>
                    SameAt(o.w.disk, base, p))
  {
    hide RunAttempts, Catch, InScope, SameAt, Reflects, LatestReflects;
    RunWithin(env, r, base, w);
  }

  lemma RunWithin(env: Env, r: Request, base: Disk, w: World)
    ensures var planned := if env.plan(w.tick).Planned? then env.plan(w.tick).paths else [];
            Within(env, planned, r.scope, base, w, RunLoop(env, r, w).w)
  {
    hide Within, RunAttempts, Catch;
    var planned := if env.plan(w.tick).Planned? then env.plan(w.tick).paths else [];
    var asked := Ask(w, PlanCall);
    var looked := Tick(asked);
    WithinSame(env, planned, r.scope, base, w, asked);
    WithinSame(env, planned, r.scope, base, w, looked);
    CatchWithin(env, r, planned, base, asked, w.task.filesChanged, External);
    WithinThen(env, planned, r.scope, base, w, asked, Catch(env, r, asked, w.task.filesChanged, External).w);
    CatchWithin(env, r, planned, base, looked, w.task.filesChanged, External);
    WithinThen(env, planned, r.scope, base, w, looked, Catch(env, r, looked, w.task.filesChanged, External).w);
    if env.plan(w.tick).Planned? && env.inspect(asked.tick).Inspected? {
      var first := env.inspect(asked.tick).paths;
      AttemptsWithin(env, r, planned, base, 0, first, looked);
      WithinThen(env, planned, r.scope, base, w, looked, RunAttempts(env, r, 0, planned, first, looked).w);
    }
  }
}
