/**
 What every run of the autonomous coding loop keeps: how often models are asked, that nothing is
 patched without approval, what completion rests on, and which files can differ from the checkpoint.
 */
module AutonomousLoopSafety {
  import opened Wrappers
  import opened CodingTask
  import opened AutonomousLoop

  function Calls(history: seq<Event>): nat {
    if history == [] then 0
    else Calls(history[..|history| - 1]) + if history[|history| - 1].Asked? then 1 else 0
  }

  ghost predicate WasAbandoned(history: seq<Event>, path: Path) {
    exists i :: 0 <= i < |history| && history[i].Abandoned? && path in history[i].files
  }

  /** Every path that differs from the base is recorded as changed, is among the given ones, or was
      changed by a candidate that failed before it could be recorded. */
  ghost predicate TrackedWith(w: World, base: Disk, changed: set<Path>) {
    forall p :: !SameAt(w.disk, base, p) ==> p in w.task.filesChanged || p in changed || WasAbandoned(w.history, p)
  }

  ghost predicate Tracked(w: World, base: Disk) { TrackedWith(w, base, {}) }

  /** The latest checkpoint, if any, holds the base. */
  ghost predicate LatestReflects(t: Task, base: Disk) {
    t.checkpoints != [] ==> Reflects(t.checkpoints[|t.checkpoints| - 1], base)
  }

  ghost predicate ApprovedFrom(history: seq<Event>, from: nat, approved: bool) {
    forall i :: from <= i < |history| && history[i].PatchSent? ==> approved && history[i].approved
  }

  /** From one state to a later one: history is only added to, with at most n model calls and no
      unapproved patch, checkpoints stay, and differing files stay tracked. */
  ghost predicate Sound(r: Request, base: Disk, w: World, after: World, n: nat) {
    && w.history <= after.history
    && Calls(after.history) <= Calls(w.history) + n
    && ApprovedFrom(after.history, |w.history|, r.approved)
    && after.task.checkpoints == w.task.checkpoints
    && (Tracked(w, base) && LatestReflects(w.task, base) ==> Tracked(after, base))
  }

  lemma SoundTwice(r: Request, base: Disk, a: World, b: World, c: World, m: nat, n: nat)
    requires Sound(r, base, a, b, m) && Sound(r, base, b, c, n)
    ensures Sound(r, base, a, c, m + n)
  {
    hide Tracked, Calls;
  }

  lemma AbandonedLater(history: seq<Event>, more: seq<Event>, path: Path)
    requires WasAbandoned(history, path)
    ensures WasAbandoned(history + more, path)
  {
    var i :| 0 <= i < |history| && history[i].Abandoned? && path in history[i].files;
    assert (history + more)[i] == history[i];
  }

  /** Adding to the history and to the recorded files keeps files tracked. */
  lemma TrackedLater(w: World, after: World, base: Disk, changed: set<Path>, more: seq<Event>)
    requires TrackedWith(w, base, changed) && after.disk == w.disk
    requires after.history == w.history + more
    requires w.task.filesChanged <= after.task.filesChanged
    ensures TrackedWith(after, base, changed)
  {
    hide WasAbandoned;
    forall p | !SameAt(after.disk, base, p)
      ensures p in after.task.filesChanged || p in changed || WasAbandoned(after.history, p)
    {
      assert !SameAt(w.disk, base, p);
      if WasAbandoned(w.history, p) {
        AbandonedLater(w.history, more, p);
      }
    }
  }

  lemma CallsNext(history: seq<Event>, e: Event)
    ensures Calls(history + [e]) == Calls(history) + if e.Asked? then 1 else 0
  {
    assert (history + [e])[..|history|] == history;
  }

  /** One more event, with the disk and the task's files as they were. */
  lemma EventSound(r: Request, base: Disk, w: World, after: World, e: Event)
    requires after.history == w.history + [e] && after.disk == w.disk
    requires after.task.filesChanged == w.task.filesChanged && after.task.checkpoints == w.task.checkpoints
    requires e.PatchSent? ==> r.approved && e.approved
    ensures Sound(r, base, w, after, if e.Asked? then 1 else 0)
  {
    hide Calls, TrackedWith;
    CallsNext(w.history, e);
    if Tracked(w, base) {
      TrackedLater(w, after, base, {}, [e]);
    }
  }

  lemma SameSound(r: Request, base: Disk, w: World, after: World)
    requires after.history == w.history && after.disk == w.disk
    requires after.task.filesChanged == w.task.filesChanged && after.task.checkpoints == w.task.checkpoints
    ensures Sound(r, base, w, after, 0)
  {
    hide Calls, WasAbandoned;
  }

  lemma RollbackSound(env: Env, r: Request, base: Disk, w: World)
    requires w.task.checkpoints != []
    ensures Sound(r, base, w, Rollback(env, w).w, 0)
  {
    hide Calls, WasAbandoned, Restore, PathsOf, SameAt;
    var entries := w.task.checkpoints[|w.task.checkpoints| - 1];
    var after := Rollback(env, w).w;
    if Tracked(w, base) && LatestReflects(w.task, base) {
      forall p | !SameAt(after.disk, base, p)
        ensures p in after.task.filesChanged || WasAbandoned(after.history, p)
      {
        RestoreAgrees(w.disk, entries, base, p);
        SameAtTrans(after.disk, w.disk, base, p);
      }
    }
  }

  lemma SameAtTrans(a: Disk, b: Disk, c: Disk, p: Path)
    ensures SameAt(a, b, p) && SameAt(b, c, p) ==> SameAt(a, c, p)
  {
  }

  lemma CatchSound(env: Env, r: Request, base: Disk, w: World, seen: set<Path>, fault: Fault)
    ensures Sound(r, base, w, Catch(env, r, w, seen, fault).w, 0)
  {
    hide Sound, Rollback;
    SameSound(r, base, w, w);
    if w.task.checkpoints != [] {
      RollbackSound(env, r, base, w);
    }
  }

  lemma RunChecksKeeps(env: Env, w: World, count: nat, results: seq<CheckStatus>)
    ensures var after := RunChecks(env, w, count, results).w;
            after.task == w.task && after.disk == w.disk && after.history == w.history
    decreases count
  {
    if count > 0 && env.check(w.tick).Result? {
      RunChecksKeeps(env, w.(tick := w.tick + 1), count - 1, results + [env.check(w.tick).status]);
    }
  }

  /** A validation stage adds at most its results to the history and leaves the files alone. */
  lemma ValidateSound(env: Env, r: Request, base: Disk, w: World, stage: Stage)
    ensures Sound(r, base, w, Validate(env, w, stage).w, 0)
    ensures Validate(env, w, stage).w.disk == w.disk
    ensures Validate(env, w, stage).w.task.filesChanged == w.task.filesChanged
  {
    hide Sound, RunChecks, AnyFailed;
    var after := Validate(env, w, stage).w;
    SameIfNothingAdded(r, base, w, after);
    if EnterStage(w.task, stage).Some? {
      var entered := w.(task := EnterStage(w.task, stage).value, tick := w.tick + 1);
      if env.tools(w.tick).Tools? {
        RunChecksKeeps(env, entered, env.tools(w.tick).count, []);
        if env.tools(w.tick).count == 0 {
          EventSound(r, base, w, after, Checked(stage, []));
        } else if RunChecks(env, entered, env.tools(w.tick).count, []).Checks? {
          var results := RunChecks(env, entered, env.tools(w.tick).count, []).results;
          EventSound(r, base, w, after, Checked(stage, results));
        }
      }
    }
  }

  lemma SameIfNothingAdded(r: Request, base: Disk, w: World, after: World)
    ensures (after.history == w.history && after.disk == w.disk && after.task.filesChanged == w.task.filesChanged
             && after.task.checkpoints == w.task.checkpoints) ==>
              Sound(r, base, w, after, 0)
  {
    hide Sound;
    if after.history == w.history && after.disk == w.disk && after.task.filesChanged == w.task.filesChanged
      && after.task.checkpoints == w.task.checkpoints
    {
      SameSound(r, base, w, after);
    }
  }

  // ---------- candidates ----------

  /** As Sound, for a state in which some files are changed but not yet recorded. */
  ghost predicate SoundWith(r: Request, base: Disk, w: World, changed: set<Path>, after: World) {
    && w.history <= after.history
    && Calls(after.history) <= Calls(w.history)
    && ApprovedFrom(after.history, |w.history|, r.approved)
    && after.task.checkpoints == w.task.checkpoints
    && (TrackedWith(w, base, changed) && LatestReflects(w.task, base) ==> Tracked(after, base))
  }

  lemma AbandonSound(r: Request, base: Disk, w: World, changed: set<Path>)
    ensures SoundWith(r, base, w, changed, Abandon(w, changed))
  {
    hide Calls, SameAt;
    var after := Abandon(w, changed);
    if changed != {} {
      CallsNext(w.history, Abandoned(changed));
      assert after.history[|w.history|] == Abandoned(changed);
      if TrackedWith(w, base, changed) {
        TrackedLater(w, after, base, changed, [Abandoned(changed)]);
        forall p | !SameAt(after.disk, base, p) ensures p in after.task.filesChanged || WasAbandoned(after.history, p) {
        }
      }
    }
  }

  lemma SoundWithThen(r: Request, base: Disk, w: World, changed: set<Path>, mid: World, after: World)
    requires SoundWith(r, base, w, changed, mid) && Sound(r, base, mid, after, 0)
    ensures SoundWith(r, base, w, changed, after)
  {
    hide Tracked, TrackedWith, Calls;
  }

  lemma RecordSound(env: Env, r: Request, base: Disk, w: World, changed: set<Path>)
    ensures SoundWith(r, base, w, changed, RecordOrAbandon(env, w, changed).w)
  {
    hide SoundWith, Sound, Abandon, Rollback, TrackedWith;
    var recorded := RecordPatch(env, w, changed);
    var later := recorded.w;
    if recorded.ApplyThrew? {
      AbandonSound(r, base, later, changed);
      SoundWithSame(r, base, w, later, changed, Abandon(later, changed));
    } else {
      RecordedSound(r, base, w, later, changed);
      if recorded.blocked && later.task.checkpoints != [] {
        RollbackSound(env, r, base, later);
        SoundWithThen(r, base, w, changed, later, Rollback(env, later).w);
      }
    }
  }

  lemma SoundWithSame(r: Request, base: Disk, w: World, same: World, changed: set<Path>, after: World)
    requires same.history == w.history && same.disk == w.disk && same.task.filesChanged == w.task.filesChanged
    requires same.task.checkpoints == w.task.checkpoints
    requires SoundWith(r, base, same, changed, after)
    ensures SoundWith(r, base, w, changed, after)
  {
    hide Calls, WasAbandoned, SameAt;
  }

  lemma RecordedSound(r: Request, base: Disk, w: World, after: World, changed: set<Path>)
    requires after.history == w.history && after.disk == w.disk && after.task.checkpoints == w.task.checkpoints
    requires after.task.filesChanged == w.task.filesChanged + changed
    ensures SoundWith(r, base, w, changed, after)
  {
    hide Calls, WasAbandoned, SameAt;
  }

  lemma {:induction false} ApplySound(env: Env, r: Request, base: Disk, allowed: seq<Path>, paths: seq<Path>, w: World,
                                      changed: set<Path>)
    requires r.approved
    ensures SoundWith(r, base, w, changed, ApplyPatches(env, r, allowed, paths, w, changed).w)
    decreases |paths|
  {
    hide SoundWith, Sound, Abandon, RecordOrAbandon, Write;
    if paths == [] {
      if changed == {} {
        RecordedSound(r, base, w, w, changed);
      } else {
        RecordSound(env, r, base, w, changed);
      }
    } else if paths[0] !in allowed {
      AbandonSound(r, base, w, changed);
    } else {
      var e := PatchSent(paths[0], r.approved);
      var sent := w.(tick := w.tick + 1, history := w.history + [e]);
      if env.patch(w.tick).PatchFails? {
        AbandonSound(r, base, sent, changed);
        SentSound(r, base, w, e, sent, changed, changed, Abandon(sent, changed));
      } else {
        var (disk, changes) := Write(w.disk, paths[0], env.patch(w.tick).content);
        var more := if changes then changed + {paths[0]} else changed;
        var next := sent.(disk := disk);
        ApplySound(env, r, base, allowed, paths[1..], next, more);
        WriteChanges(w.disk, paths[0], env.patch(w.tick).content);
        SentSound(r, base, w, e, next, changed, more, ApplyPatches(env, r, allowed, paths[1..], next, more).w);
      }
    }
  }

  lemma WriteChanges(disk: Disk, path: Path, content: Bytes)
    ensures var (after, changes) := Write(disk, path, content);
            && (!changes ==> after == disk) && (forall p :: p != path ==> SameAt(after, disk, p))
  {
  }

  /** One patch sent, and at most the files now counted as changed written. */
  lemma SentSound(r: Request, base: Disk, w: World, e: Event, next: World, changed: set<Path>, more: set<Path>,
                  after: World)
    requires next.history == w.history + [e] && next.task == w.task
    requires e.PatchSent? && e.approved && r.approved
    requires changed <= more && forall p :: p !in more ==> SameAt(next.disk, w.disk, p)
    requires SoundWith(r, base, next, more, after)
    ensures SoundWith(r, base, w, changed, after)
  {
    hide Calls, WasAbandoned, SameAt;
    CallsNext(w.history, e);
    if TrackedWith(w, base, changed) {
      forall p | !SameAt(next.disk, base, p)
        ensures p in next.task.filesChanged || p in more || WasAbandoned(next.history, p)
      {
        SameAtTrans(next.disk, w.disk, base, p);
        if WasAbandoned(w.history, p) {
          AbandonedLater(w.history, [e], p);
        }
      }
    }
  }

  // ---------- whole runs ----------

  function Left(a: Attempt): World { if a.Finish? then a.o.w else a.w }

  lemma AfterSound(env: Env, r: Request, base: Disk, attempt: nat, w: World)
    ensures Sound(r, base, w, Left(AfterValidation(env, r, attempt, w)), 0)
  {
    hide Sound, Rollback, Catch;
    SameSound(r, base, w, w);
    if attempt >= MaxRevisions(r) {
      if w.task.checkpoints != [] {
        RollbackSound(env, r, base, w);
        var back := Rollback(env, w);
        if back.Threw? {
          CatchSound(env, r, base, back.w, w.task.filesChanged, back.fault);
          SoundTwice(r, base, w, back.w, Catch(env, r, back.w, w.task.filesChanged, back.fault).w, 0, 0);
        }
      }
    } else {
      var next := BeginRevision(w);
      SameSound(r, base, w, next.w);
      if next.Threw? {
        CatchSound(env, r, base, next.w, w.task.filesChanged, next.fault);
        SoundTwice(r, base, w, next.w, Catch(env, r, next.w, w.task.filesChanged, next.fault).w, 0, 0);
      }
    }
  }

  lemma CheckSound(env: Env, r: Request, base: Disk, attempt: nat, w: World)
    ensures Sound(r, base, w, Left(Check(env, r, attempt, w)), 0)
  {
    hide Sound, Validate, AfterValidation, Catch;
    ValidateSound(env, r, base, w, Targeted);
    var t := Validate(env, w, Targeted);
    if t.ValidationThrew? {
      CatchSound(env, r, base, t.w, w.task.filesChanged, t.fault);
      SoundTwice(r, base, w, t.w, Catch(env, r, t.w, w.task.filesChanged, t.fault).w, 0, 0);
    } else if t.verdict == Failing {
      AfterSound(env, r, base, attempt, t.w);
      SoundTwice(r, base, w, t.w, Left(AfterValidation(env, r, attempt, t.w)), 0, 0);
    } else if t.verdict == Passed {
      ValidateSound(env, r, base, t.w, Full);
      var f := Validate(env, t.w, Full);
      SoundTwice(r, base, w, t.w, f.w, 0, 0);
      if f.ValidationThrew? {
        CatchSound(env, r, base, f.w, t.w.task.filesChanged, f.fault);
        SoundTwice(r, base, w, f.w, Catch(env, r, f.w, t.w.task.filesChanged, f.fault).w, 0, 0);
      } else if f.verdict == Failing {
        AfterSound(env, r, base, attempt, f.w);
        SoundTwice(r, base, w, f.w, Left(AfterValidation(env, r, attempt, f.w)), 0, 0);
      }
    }
  }

  lemma GiveUpSound(env: Env, r: Request, base: Disk, w: World)
    ensures Sound(r, base, w, GiveUp(env, r, w).w, 0)
  {
    hide Sound, Rollback, Catch;
    SameSound(r, base, w, w);
    if w.task.checkpoints != [] {
      RollbackSound(env, r, base, w);
      var back := Rollback(env, w);
      if back.Threw? {
        CatchSound(env, r, base, back.w, w.task.filesChanged, back.fault);
        SoundTwice(r, base, w, back.w, Catch(env, r, back.w, w.task.filesChanged, back.fault).w, 0, 0);
      }
    }
  }

  lemma SoundFromWith(r: Request, base: Disk, w: World, after: World)
    requires SoundWith(r, base, w, {}, after)
    ensures Sound(r, base, w, after, 0)
  {
    hide Calls, TrackedWith;
  }

  lemma CandidateSound(env: Env, r: Request, base: Disk, attempt: nat, allowed: seq<Path>, paths: seq<Path>, w: World)
    requires r.approved
    ensures Sound(r, base, w, Left(TryCandidate(env, r, attempt, allowed, paths, w)), 0)
  {
    hide Sound, SoundWith, ApplyPatches, Check, GiveUp, Catch;
    if paths == [] {
      GiveUpSound(env, r, base, w);
    } else {
      ApplySound(env, r, base, allowed, paths, w, {});
      var a := ApplyPatches(env, r, allowed, paths, w, {});
      SoundFromWith(r, base, w, a.w);
      if a.ApplyThrew? {
        CatchSound(env, r, base, a.w, w.task.filesChanged, a.fault);
        SoundTwice(r, base, w, a.w, Catch(env, r, a.w, w.task.filesChanged, a.fault).w, 0, 0);
      } else if !a.blocked {
        CheckSound(env, r, base, attempt, a.w);
        SoundTwice(r, base, w, a.w, Left(Check(env, r, attempt, a.w)), 0, 0);
      }
    }
  }

  lemma AskSound(r: Request, base: Disk, w: World, call: Call)
    ensures Sound(r, base, w, Ask(w, call), 1) && Sound(r, base, w, Tick(w), 0)
  {
    EventSound(r, base, w, Ask(w, call), Asked(call));
    SameSound(r, base, w, Tick(w));
  }

  lemma MoreCalls(r: Request, base: Disk, w: World, after: World, m: nat, n: nat)
    requires Sound(r, base, w, after, m) && m <= n
    ensures Sound(r, base, w, after, n)
  {
  }

  lemma AttemptSound(env: Env, r: Request, base: Disk, attempt: nat, planned: seq<Path>, first: seq<Path>, w: World)
    requires r.approved
    ensures Sound(r, base, w, Left(OneAttempt(env, r, attempt, planned, first, w)), 1)
  {
    hide Sound, TryCandidate, Catch, Ask, Tick;
    var looked := if attempt == 0 then w else Tick(w);
    var call := if attempt == 0 then PatchCall else ReviseCall;
    AskSound(r, base, w, call);
    SameSound(r, base, w, w);
    AskSound(r, base, looked, call);
    var asked := Ask(looked, call);
    SoundTwice(r, base, w, looked, asked, 0, 1);
    CatchSound(env, r, base, looked, w.task.filesChanged, External);
    SoundTwice(r, base, w, looked, Catch(env, r, looked, w.task.filesChanged, External).w, 0, 0);
    MoreCalls(r, base, w, Catch(env, r, looked, w.task.filesChanged, External).w, 0, 1);
    CatchSound(env, r, base, asked, w.task.filesChanged, External);
    SoundTwice(r, base, w, asked, Catch(env, r, asked, w.task.filesChanged, External).w, 1, 0);
    var inspected := if attempt == 0 then Inspected(first) else env.inspect(w.tick);
    if inspected.Inspected? && env.candidate(looked.tick).Candidate? {
      var allowed, paths := inspected.paths + planned + r.scope, env.candidate(looked.tick).paths;
      CandidateSound(env, r, base, attempt, allowed, paths, asked);
      SoundTwice(r, base, w, asked, Left(TryCandidate(env, r, attempt, allowed, paths, asked)), 1, 0);
    }
  }

  lemma {:induction false} AttemptsSound(env: Env, r: Request, base: Disk, attempt: nat, planned: seq<Path>,
                                         first: seq<Path>, w: World)
    requires r.approved && attempt <= MaxRevisions(r) + 1
    ensures Sound(r, base, w, RunAttempts(env, r, attempt, planned, first, w).w, MaxRevisions(r) + 1 - attempt)
    decreases MaxRevisions(r) + 1 - attempt
  {
    hide Sound, OneAttempt;
    if attempt > MaxRevisions(r) {
      SameSound(r, base, w, w);
    } else {
      AttemptSound(env, r, base, attempt, planned, first, w);
      var a := OneAttempt(env, r, attempt, planned, first, w);
      if a.Again? {
        AttemptsSound(env, r, base, attempt + 1, planned, first, a.w);
        SoundTwice(r, base, w, a.w, RunAttempts(env, r, attempt + 1, planned, first, a.w).w, 1,
                   MaxRevisions(r) - attempt);
      } else {
        MoreCalls(r, base, w, a.o.w, 1, MaxRevisions(r) + 1 - attempt);
      }
    }
  }

  /** Every run, for any replies and from any state of the task: at most maxRevisions + 2 model
      calls, no patch without approval, and every file that differs from the checkpoint is recorded
      as changed or was left behind by a candidate that failed before it was recorded. */
  lemma RunIsSound(env: Env, r: Request, base: Disk, w: World)
    ensures Sound(r, base, w, RunLoop(env, r, w).w, MaxRevisions(r) + 2)
    ensures MaxRevisions(r) + 2 <= 5
  {
    hide Sound, RunAttempts, Catch, Ask, Tick;
    AskSound(r, base, w, PlanCall);
    var asked := Ask(w, PlanCall);
    AskSound(r, base, asked, PlanCall);
    var looked := Tick(asked);
    SoundTwice(r, base, w, asked, looked, 1, 0);
    CatchSound(env, r, base, asked, w.task.filesChanged, External);
    SoundTwice(r, base, w, asked, Catch(env, r, asked, w.task.filesChanged, External).w, 1, 0);
    MoreCalls(r, base, w, Catch(env, r, asked, w.task.filesChanged, External).w, 1, MaxRevisions(r) + 2);
    CatchSound(env, r, base, looked, w.task.filesChanged, External);
    SoundTwice(r, base, w, looked, Catch(env, r, looked, w.task.filesChanged, External).w, 1, 0);
    MoreCalls(r, base, w, Catch(env, r, looked, w.task.filesChanged, External).w, 1, MaxRevisions(r) + 2);
    MoreCalls(r, base, w, looked, 1, MaxRevisions(r) + 2);
    if env.plan(w.tick).Planned? && env.inspect(asked.tick).Inspected? && r.approved {
      var planned, first := env.plan(w.tick).paths, env.inspect(asked.tick).paths;
      AttemptsSound(env, r, base, 0, planned, first, looked);
      SoundTwice(r, base, w, looked, RunAttempts(env, r, 0, planned, first, looked).w, 1, MaxRevisions(r) + 1);
    }
  }

  /** The state after a chain of runs on the same task. */
  function Runs(w: World, runs: seq<(Env, Request)>): World {
    if runs == [] then w
    else RunLoop(runs[|runs| - 1].0, runs[|runs| - 1].1, Runs(w, runs[..|runs| - 1])).w
  }

  /** Over any chain of runs whose candidates are never torn apart, every file that differs from the
      checkpointed state is recorded as changed. */
  lemma {:induction false} RunsTracked(w: World, base: Disk, runs: seq<(Env, Request)>)
    requires Tracked(w, base) && LatestReflects(w.task, base)
    ensures Tracked(Runs(w, runs), base) && LatestReflects(Runs(w, runs).task, base)
    ensures (forall p :: !WasAbandoned(Runs(w, runs).history, p)) ==>
              forall p :: !SameAt(Runs(w, runs).disk, base, p) ==> p in Runs(w, runs).task.filesChanged
  {
    hide RunLoop, WasAbandoned, SameAt, Calls;
    if runs != [] {
      var n := |runs| - 1;
      RunsTracked(w, base, runs[..n]);
      RunIsSound(runs[n].0, runs[n].1, base, Runs(w, runs[..n]));
    }
  }

  // ---------- what completion rests on ----------

  /** The run ended in the final phase, right after a full validation stage that ran some tools, all
      of which succeeded. */
  ghost predicate Earned(w: World) {
    && w.task.phase == Summarize && w.task.status == Completed
    && w.history != [] && AllSucceeded(Full, w.history[|w.history| - 1])
  }

  lemma FullPassEarned(env: Env, w: World)
    requires Validate(env, w, Full).Validated? && Validate(env, w, Full).verdict == Passed
    ensures Earned(Validate(env, w, Full).w)
  {
    hide RunChecks;
    StagePassesIff(env, w, Full);
    var entered := w.(task := EnterStage(w.task, Full).value, tick := w.tick + 1);
    RunChecksKeeps(env, entered, env.tools(w.tick).count, []);
  }

  lemma CheckEarned(env: Env, r: Request, attempt: nat, w: World)
    ensures Check(env, r, attempt, w).Finish? && Check(env, r, attempt, w).o.status == Done ==>
              Earned(Check(env, r, attempt, w).o.w)
  {
    hide Validate, Earned, Rollback, BeginRevision;
    var t := Validate(env, w, Targeted);
    if t.Validated? && t.verdict == Passed {
      var f := Validate(env, t.w, Full);
      if f.Validated? && f.verdict == Passed {
        FullPassEarned(env, t.w);
      }
    }
  }

  lemma AttemptEarned(env: Env, r: Request, attempt: nat, planned: seq<Path>, first: seq<Path>, w: World)
    ensures var a := OneAttempt(env, r, attempt, planned, first, w);
            a.Finish? && a.o.status == Done ==> Earned(a.o.w)
  {
    hide Check, Earned, ApplyPatches, Rollback;
    var looked := if attempt == 0 then w else Tick(w);
    var asked := Ask(looked, if attempt == 0 then PatchCall else ReviseCall);
    var inspected := if attempt == 0 then Inspected(first) else env.inspect(w.tick);
    if inspected.Inspected? && env.candidate(looked.tick).Candidate? {
      var a := ApplyPatches(env, r, inspected.paths + planned + r.scope, env.candidate(looked.tick).paths, asked, {});
      CheckEarned(env, r, attempt, a.w);
    }
  }

  lemma {:induction false} AttemptsEarned(env: Env, r: Request, attempt: nat, planned: seq<Path>, first: seq<Path>,
                                          w: World)
    requires attempt <= MaxRevisions(r) + 1
    ensures var o := RunAttempts(env, r, attempt, planned, first, w);
            o.status == Done ==> Earned(o.w)
    decreases MaxRevisions(r) + 1 - attempt
  {
    hide OneAttempt, Earned;
    if attempt <= MaxRevisions(r) {
      AttemptEarned(env, r, attempt, planned, first, w);
      var a := OneAttempt(env, r, attempt, planned, first, w);
      if a.Again? {
        AttemptsEarned(env, r, attempt + 1, planned, first, a.w);
      }
    }
  }

  /** A run is completed only by a full stage whose tools all succeeded; without approval it changes
      no file. */
  lemma CompletedIsEarned(env: Env, r: Request, w: World)
    ensures var o := RunLoop(env, r, w);
            && (o.status == Done ==> r.approved && Earned(o.w))
            && (!r.approved ==> o.w.disk == w.disk && o.w.task == w.task
                                && (o.status == JustPlanned || o.status == GaveUp))
  {
    hide RunAttempts, Earned;
    var asked := Ask(w, PlanCall);
    if env.plan(w.tick).Planned? && env.inspect(asked.tick).Inspected? {
      AttemptsEarned(env, r, 0, env.plan(w.tick).paths, env.inspect(asked.tick).paths, Tick(asked));
    }
  }

  // ---------- what a refused or failed candidate leaves ----------

  /** Every checkpointed path holds what the base held. */
  ghost predicate Restored(w: World, base: Disk) {
    w.task.checkpoints != [] ==>
      forall p :: p in PathsOf(w.task.checkpoints[|w.task.checkpoints| - 1]) ==> SameAt(w.disk, base, p)
  }

  ghost predicate Refused(s: LoopStatus) { s == PolicyBlocked || s == ValidationFailed }

  /** A refused run is restored, and so is one that ends without a patch unless it has changed nothing. */
  ghost predicate LeavesRestored(o: Outcome, base: Disk) {
    && (Refused(o.status) ==> Restored(o.w, base))
    && (o.status == NoChange ==> Restored(o.w, base) || o.w.task.filesChanged == {})
  }

  lemma RollbackRestores(env: Env, w: World, base: Disk)
    requires w.task.checkpoints != [] && LatestReflects(w.task, base)
    ensures Rollback(env, w).Went? ==> Restored(Rollback(env, w).w, base)
    ensures Rollback(env, w).w.task.checkpoints == w.task.checkpoints
  {
    hide Restore, PathsOf, SameAt, Reflects;
    var entries := w.task.checkpoints[|w.task.checkpoints| - 1];
    forall p | p in PathsOf(entries)
      ensures Restore(w.disk, entries).1 ==> SameAt(Restore(w.disk, entries).0, base, p)
    {
      RestoreAgrees(w.disk, entries, base, p);
    }
  }

  lemma CheckRestores(env: Env, r: Request, attempt: nat, w: World, base: Disk)
    requires LatestReflects(w.task, base)
    ensures var a := Check(env, r, attempt, w);
            a.Finish? ==> LeavesRestored(a.o, base)
  {
    hide Validate, Rollback, BeginRevision, LatestReflects, Restored;
    var t := Validate(env, w, Targeted);
    ValidateSound(env, r, base, w, Targeted);
    SameLatest(w.task, t.w.task, base);
    AfterRestores(env, r, attempt, t.w, base);
    if t.Validated? && t.verdict == Passed {
      var f := Validate(env, t.w, Full);
      ValidateSound(env, r, base, t.w, Full);
      SameLatest(t.w.task, f.w.task, base);
      AfterRestores(env, r, attempt, f.w, base);
    }
  }

  lemma SameLatest(t: Task, later: Task, base: Disk)
    requires t.checkpoints == later.checkpoints && LatestReflects(t, base)
    ensures LatestReflects(later, base)
  {
  }

  lemma AfterRestores(env: Env, r: Request, attempt: nat, w: World, base: Disk)
    requires LatestReflects(w.task, base)
    ensures var a := AfterValidation(env, r, attempt, w);
            a.Finish? ==> LeavesRestored(a.o, base)
  {
    hide Rollback, LatestReflects;
    if w.task.checkpoints != [] {
      RollbackRestores(env, w, base);
    }
  }

  lemma {:induction false} ApplyRestores(env: Env, r: Request, allowed: seq<Path>, paths: seq<Path>, w: World,
                                         changed: set<Path>, base: Disk)
    requires LatestReflects(w.task, base)
    ensures var a := ApplyPatches(env, r, allowed, paths, w, changed);
            && (a.Applied? && a.blocked ==> Restored(a.w, base))
            && (a.Applied? ==> a.w.task.checkpoints == w.task.checkpoints)
    decreases |paths|
  {
    hide LatestReflects, Restored, Rollback;
    if paths == [] && changed != {} {
      var recorded := RecordPatch(env, w, changed);
      SameLatest(w.task, recorded.w.task, base);
      if recorded.w.task.checkpoints != [] {
        RollbackRestores(env, recorded.w, base);
      } else {
        NothingToRestore(recorded.w, base);
      }
    } else if paths != [] && paths[0] in allowed && env.patch(w.tick).Written? {
      var sent := w.(tick := w.tick + 1, history := w.history + [PatchSent(paths[0], r.approved)]);
      var (disk, changes) := Write(w.disk, paths[0], env.patch(w.tick).content);
      ApplyRestores(env, r, allowed, paths[1..], sent.(disk := disk),
                    if changes then changed + {paths[0]} else changed, base);
    }
  }

  lemma NothingToRestore(w: World, base: Disk)
    requires w.task.checkpoints == []
    ensures Restored(w, base)
  {
  }

  lemma GiveUpRestores(env: Env, r: Request, w: World, base: Disk)
    requires LatestReflects(w.task, base)
    ensures LeavesRestored(GiveUp(env, r, w), base)
  {
    hide Rollback, LatestReflects;
    if w.task.checkpoints == [] {
      NothingToRestore(w, base);
    } else {
      RollbackRestores(env, w, base);
    }
  }

  lemma AttemptRestores(env: Env, r: Request, attempt: nat, planned: seq<Path>, first: seq<Path>, w: World, base: Disk)
    requires r.approved && LatestReflects(w.task, base)
    ensures var a := OneAttempt(env, r, attempt, planned, first, w);
            && (a.Finish? ==> LeavesRestored(a.o, base))
            && (a.Again? ==> LatestReflects(a.w.task, base))
  {
    hide Check, GiveUp, Catch, Restored, LatestReflects, ApplyPatches, Rollback;
    AttemptSound(env, r, base, attempt, planned, first, w);
    SameLatest(w.task, Left(OneAttempt(env, r, attempt, planned, first, w)).task, base);
    var looked := if attempt == 0 then w else Tick(w);
    var asked := Ask(looked, if attempt == 0 then PatchCall else ReviseCall);
    CatchKeepsFault(env, r, looked, w.task.filesChanged, External);
    CatchKeepsFault(env, r, asked, w.task.filesChanged, External);
    var inspected := if attempt == 0 then Inspected(first) else env.inspect(w.tick);
    if inspected.Inspected? && env.candidate(looked.tick).Candidate? {
      var allowed, paths := inspected.paths + planned + r.scope, env.candidate(looked.tick).paths;
      SameLatest(w.task, asked.task, base);
      GiveUpRestores(env, r, asked, base);
      ApplyRestores(env, r, allowed, paths, asked, {}, base);
      var a := ApplyPatches(env, r, allowed, paths, asked, {});
      CatchKeepsFault(env, r, a.w, w.task.filesChanged, if a.ApplyThrew? then a.fault else External);
      if a.Applied? {
        SameLatest(asked.task, a.w.task, base);
        CheckRestores(env, r, attempt, a.w, base);
      }
    }
  }

  lemma {:induction false} AttemptsRestore(env: Env, r: Request, attempt: nat, planned: seq<Path>, first: seq<Path>,
                                           w: World, base: Disk)
    requires attempt <= MaxRevisions(r) + 1 && r.approved && LatestReflects(w.task, base)
    ensures LeavesRestored(RunAttempts(env, r, attempt, planned, first, w), base)
    decreases MaxRevisions(r) + 1 - attempt
  {
    hide OneAttempt, Restored, LatestReflects;
    if attempt <= MaxRevisions(r) {
      AttemptRestores(env, r, attempt, planned, first, w, base);
      var a := OneAttempt(env, r, attempt, planned, first, w);
      if a.Again? {
        AttemptsRestore(env, r, attempt + 1, planned, first, a.w, base);
      }
    }
  }

  /** A run whose candidate the policy blocked, or whose revisions were used up, leaves every
      checkpointed file as it was when the checkpoint was taken; and so does one whose worker has no
      patch, unless nothing is recorded as changed. */
  lemma RefusalRestores(env: Env, r: Request, w: World, base: Disk)
    requires LatestReflects(w.task, base)
    ensures var o := RunLoop(env, r, w);
            && (o.status == PolicyBlocked || o.status == ValidationFailed ==> Restored(o.w, base))
            && (o.status == NoChange ==> Restored(o.w, base) || o.w.task.filesChanged == {})
  {
    hide RunAttempts, Restored, LatestReflects, Catch;
    var asked := Ask(w, PlanCall);
    CatchKeepsFault(env, r, asked, w.task.filesChanged, External);
    CatchKeepsFault(env, r, Tick(asked), w.task.filesChanged, External);
    SameLatest(w.task, Tick(asked).task, base);
    if env.plan(w.tick).Planned? && env.inspect(asked.tick).Inspected? && r.approved {
      AttemptsRestore(env, r, 0, env.plan(w.tick).paths, env.inspect(asked.tick).paths, Tick(asked), base);
    }
  }

  // ---------- exactly when a guard can be violated ----------

  /** Content that a file does not have already. */
  function Other(disk: Disk, path: Path): (content: Bytes)
    ensures Write(disk, path, content) == (disk[path := content], true)
  {
    if path in disk && disk[path] == [1] then [2] else [1]
  }

  /** An environment in which everything goes well and one file is changed. */
  function Willing(disk: Disk, path: Path): Env {
    Env(_ => Planned([path]), _ => Inspected([path]), _ => Candidate([path]), _ => Written(Other(disk, path)),
        _ => Pass, _ => Tools(1), _ => Result(Succeeded), _ => true, _ => true)
  }

  lemma WillingApplies(r: Request, allowed: seq<Path>, w: World, path: Path)
    requires path in allowed
    ensures var env := Willing(w.disk, path);
            var next := w.(disk := w.disk[path := Other(w.disk, path)], tick := w.tick + 1,
                           history := w.history + [PatchSent(path, r.approved)]);
            ApplyPatches(env, r, allowed, [path], w, {}) == RecordOrAbandon(env, next, {path})
  {
    hide RecordOrAbandon, Other;
    var env := Willing(w.disk, path);
    assert [path][1..] == [];
    assert {} + {path} == {path};
  }

  lemma WillingTrips(r: Request, allowed: seq<Path>, w: World, path: Path)
    requires path in allowed && !Ready(w.task)
    ensures var a := TryCandidate(Willing(w.disk, path), r, 0, allowed, [path], w);
            a.Finish? && a.o.fault == Some(Guard)
  {
    hide ApplyPatches, Rollback, Other;
    WillingApplies(r, allowed, w, path);
  }

  lemma UnreadyTrips(r: Request, w: World, path: Path)
    requires r.approved && !Ready(w.task)
    ensures RunLoop(Willing(w.disk, path), r, w).fault == Some(Guard)
  {
    hide TryCandidate, Other, Catch;
    var looked := Tick(Ask(w, PlanCall));
    WillingTrips(r, [path] + [path] + r.scope, Ask(looked, PatchCall), path);
  }

  /** The loop can violate a guard for some replies exactly when writing is approved and the task is
      not active in inspection, patching or revision. */
  lemma GuardFreeIff(r: Request, w: World)
    ensures (forall env :: RunLoop(env, r, w).fault != Some(Guard)) <==> Ready(w.task) || !r.approved
  {
    hide RunLoop;
    if Ready(w.task) {
      forall env ensures RunLoop(env, r, w).fault != Some(Guard) {
        ReadyTripsNoGuard(env, r, w);
      }
    } else if r.approved {
      UnreadyTrips(r, w, "a");
    } else {
      forall env ensures RunLoop(env, r, w).fault != Some(Guard) {
        UnapprovedNoGuard(env, r, w);
      }
    }
  }

  lemma UnapprovedNoGuard(env: Env, r: Request, w: World)
    requires !r.approved
    ensures RunLoop(env, r, w).fault != Some(Guard)
  {
    hide RunAttempts;
  }

  // ---------- a candidate torn between two patches ----------

  /** A run whose only candidate fails on its second patch leaves the first one's file changed,
      unrecorded and not rolled back. */
  lemma TornCandidateUntracked(r: Request, w: World, path: Path) returns (env: Env)
    requires r.approved && w.task.filesChanged == {}
    ensures var o := RunLoop(env, r, w);
            && o.status == GaveUp && o.fault == Some(External)
            && !SameAt(o.w.disk, w.disk, path)
            && path !in o.w.task.filesChanged && WasAbandoned(o.w.history, path)
  {
    var content := Other(w.disk, path);
    var fails := w.tick + 4;
    env := Env(_ => Planned([path]), _ => Inspected([path]), _ => Candidate([path, path]),
               tick => if tick == fails then PatchFails else Written(content),
               _ => Pass, _ => Tools(1), _ => Result(Succeeded), _ => true, _ => true);
    TornRun(env, r, w, path, content);
  }

  lemma TornRun(env: Env, r: Request, w: World, path: Path, content: Bytes)
    requires r.approved && w.task.filesChanged == {} && content == Other(w.disk, path)
    requires env.plan(w.tick) == Planned([path]) && env.inspect(w.tick + 1) == Inspected([path])
    requires env.candidate(w.tick + 2) == Candidate([path, path])
    requires env.patch(w.tick + 3) == Written(content) && env.patch(w.tick + 4) == PatchFails
    ensures var o := RunLoop(env, r, w);
            && o.status == GaveUp && o.fault == Some(External)
            && !SameAt(o.w.disk, w.disk, path)
            && path !in o.w.task.filesChanged && WasAbandoned(o.w.history, path)
  {
    hide Other;
    var asked := Ask(Tick(Ask(w, PlanCall)), PatchCall);
    var allowed := [path] + [path] + r.scope;
    TornApply(env, r, allowed, asked, path, content);
    var left := ApplyPatches(env, r, allowed, [path, path], asked, {}).w;
    assert left.history[|left.history| - 1] == Abandoned({path});
    assert RunLoop(env, r, w).w == left;
  }

  lemma TornApply(env: Env, r: Request, allowed: seq<Path>, w: World, path: Path, content: Bytes)
    requires path in allowed && content == Other(w.disk, path)
    requires env.patch(w.tick) == Written(content) && env.patch(w.tick + 1) == PatchFails
    ensures var a := ApplyPatches(env, r, allowed, [path, path], w, {});
            && a.ApplyThrew? && a.fault == External && a.w.task == w.task
            && a.w.disk == w.disk[path := content]
            && a.w.history ==
                 w.history + [PatchSent(path, r.approved)] + [PatchSent(path, r.approved)] + [Abandoned({path})]
            && !SameAt(a.w.disk, w.disk, path)
  {
    hide Other;
    assert [path, path][1..] == [path] && [path, path][0] == path;
    assert {} + {path} == {path};
    assert Write(w.disk, path, content) == (w.disk[path := content], true);
    var next := w.(disk := w.disk[path := content], tick := w.tick + 1,
                   history := w.history + [PatchSent(path, r.approved)]);
    assert ApplyPatches(env, r, allowed, [path, path], w, {}) == ApplyPatches(env, r, allowed, [path], next, {path});
  }

  // ---------- the phases of a run follow the graph ----------

  ghost predicate Legal(w: World) { LegalSteps(w.task) }

  lemma SamePath(w: World, after: World)
    requires Legal(w) && after.task.steps == w.task.steps && after.task.phase == w.task.phase
    ensures Legal(after)
  {
  }

  lemma MovedLegal(w: World, after: World, phase: Phase)
    requires Legal(w) && Transition(w.task, phase) == Some(after.task)
    ensures Legal(after)
  {
    TransitionLegal(w.task, phase);
  }

  lemma RollbackLegal(env: Env, w: World)
    requires Legal(w) && w.task.checkpoints != []
    ensures Legal(Rollback(env, w).w)
  {
    hide Restore, PathsOf, LegalSteps;
    SamePath(w, Rollback(env, w).w);
  }

  lemma CatchLegal(env: Env, r: Request, w: World, seen: set<Path>, fault: Fault)
    requires Legal(w)
    ensures Legal(Catch(env, r, w, seen, fault).w)
  {
    hide Rollback, Legal;
    if w.task.checkpoints != [] {
      RollbackLegal(env, w);
    }
  }

  lemma RecordLegal(env: Env, w: World, changed: set<Path>)
    requires Legal(w)
    ensures Legal(RecordOrAbandon(env, w, changed).w)
  {
    hide Rollback, LegalSteps, Leads;
    var recorded := RecordPatch(env, w, changed);
    if w.task.phase == Inspect && Transition(w.task, Patch).Some? {
      TransitionLegal(w.task, Patch);
      SamePath(w.(task := Transition(w.task, Patch).value), recorded.w);
    } else {
      SamePath(w, recorded.w);
    }
    SamePath(recorded.w, Abandon(recorded.w, changed));
    if recorded.w.task.checkpoints != [] {
      RollbackLegal(env, recorded.w);
    }
  }

  lemma {:induction false} ApplyLegal(env: Env, r: Request, allowed: seq<Path>, paths: seq<Path>, w: World,
                                      changed: set<Path>)
    requires Legal(w)
    ensures Legal(ApplyPatches(env, r, allowed, paths, w, changed).w)
    decreases |paths|
  {
    hide RecordOrAbandon, LegalSteps;
    if paths == [] {
      RecordLegal(env, w, changed);
    } else if paths[0] in allowed {
      var sent := w.(tick := w.tick + 1, history := w.history + [PatchSent(paths[0], r.approved)]);
      SamePath(w, Abandon(sent, changed));
      if env.patch(w.tick).Written? {
        var (disk, changes) := Write(w.disk, paths[0], env.patch(w.tick).content);
        SamePath(w, sent.(disk := disk));
        ApplyLegal(env, r, allowed, paths[1..], sent.(disk := disk), if changes then changed + {paths[0]} else changed);
      }
    } else {
      SamePath(w, Abandon(w, changed));
    }
  }

  lemma EnterLegal(t: Task, stage: Stage)
    requires LegalSteps(t)
    ensures EnterStage(t, stage).Some? ==> LegalSteps(EnterStage(t, stage).value)
  {
    hide LegalSteps, Transition;
    TransitionLegal(t, StagePhase(stage));
  }

  lemma ConcludeLegal(w: World, stage: Stage, results: seq<CheckStatus>)
    requires Legal(w)
    ensures Legal(Conclude(w, stage, results).w)
  {
    hide LegalSteps, Transition, AnyFailed;
    var after := w.(history := w.history + [Checked(stage, results)]);
    TransitionLegal(after.task, AnalyzeFailure);
    TransitionLegal(after.task, if stage == Targeted then FullValidation else Summarize);
  }

  lemma ValidateLegal(env: Env, w: World, stage: Stage)
    requires Legal(w)
    ensures Legal(Validate(env, w, stage).w)
  {
    hide LegalSteps, Transition, RunChecks, EnterStage, Conclude;
    EnterLegal(w.task, stage);
    if EnterStage(w.task, stage).Some? {
      var entered := w.(task := EnterStage(w.task, stage).value, tick := w.tick + 1);
      TransitionLegal(entered.task, AnalyzeFailure);
      if env.tools(w.tick).Tools? {
        var count := env.tools(w.tick).count;
        RunChecksKeeps(env, entered, count, []);
        ConcludeLegal(entered, stage, []);
        if RunChecks(env, entered, count, []).Checks? {
          ConcludeLegal(RunChecks(env, entered, count, []).w, stage, RunChecks(env, entered, count, []).results);
        }
      }
    }
  }

  lemma AfterLegal(env: Env, r: Request, attempt: nat, w: World)
    requires Legal(w)
    ensures Legal(Left(AfterValidation(env, r, attempt, w)))
  {
    hide Legal, Rollback, Catch, Transition;
    if w.task.checkpoints != [] {
      RollbackLegal(env, w);
      if Rollback(env, w).Threw? {
        CatchLegal(env, r, Rollback(env, w).w, w.task.filesChanged, Rollback(env, w).fault);
      }
    }
    var next := BeginRevision(w);
    if next.Went? {
      MovedLegal(w, next.w, Revise);
    } else {
      CatchLegal(env, r, next.w, w.task.filesChanged, next.fault);
    }
  }

  lemma CheckLegal(env: Env, r: Request, attempt: nat, w: World)
    requires Legal(w)
    ensures Legal(Left(Check(env, r, attempt, w)))
  {
    hide Legal, Validate, AfterValidation, Catch;
    var t := Validate(env, w, Targeted);
    ValidateLegal(env, w, Targeted);
    AfterLegal(env, r, attempt, t.w);
    if t.ValidationThrew? {
      CatchLegal(env, r, t.w, w.task.filesChanged, t.fault);
    } else if t.verdict == Passed {
      var f := Validate(env, t.w, Full);
      ValidateLegal(env, t.w, Full);
      AfterLegal(env, r, attempt, f.w);
      if f.ValidationThrew? {
        CatchLegal(env, r, f.w, t.w.task.filesChanged, f.fault);
      }
    }
  }

  lemma CandidateLegal(env: Env, r: Request, attempt: nat, allowed: seq<Path>, paths: seq<Path>, w: World)
    requires Legal(w)
    ensures Legal(Left(TryCandidate(env, r, attempt, allowed, paths, w)))
  {
    hide Legal, ApplyPatches, Check, Rollback, Catch;
    if paths == [] {
      if w.task.checkpoints != [] {
        RollbackLegal(env, w);
        if Rollback(env, w).Threw? {
          CatchLegal(env, r, Rollback(env, w).w, w.task.filesChanged, Rollback(env, w).fault);
        }
      }
    } else {
      var a := ApplyPatches(env, r, allowed, paths, w, {});
      ApplyLegal(env, r, allowed, paths, w, {});
      if a.ApplyThrew? {
        CatchLegal(env, r, a.w, w.task.filesChanged, a.fault);
      } else {
        CheckLegal(env, r, attempt, a.w);
      }
    }
  }

  lemma AttemptLegal(env: Env, r: Request, attempt: nat, planned: seq<Path>, first: seq<Path>, w: World)
    requires Legal(w)
    ensures Legal(Left(OneAttempt(env, r, attempt, planned, first, w)))
  {
    hide LegalSteps, TryCandidate, Catch;
    var looked := if attempt == 0 then w else Tick(w);
    var asked := Ask(looked, if attempt == 0 then PatchCall else ReviseCall);
    SamePath(w, looked);
    SamePath(w, asked);
    CatchLegal(env, r, looked, w.task.filesChanged, External);
    CatchLegal(env, r, asked, w.task.filesChanged, External);
    var inspected := if attempt == 0 then Inspected(first) else env.inspect(w.tick);
    if inspected.Inspected? && env.candidate(looked.tick).Candidate? {
      CandidateLegal(env, r, attempt, inspected.paths + planned + r.scope, env.candidate(looked.tick).paths, asked);
    }
  }

  lemma {:induction false} AttemptsLegal(env: Env, r: Request, attempt: nat, planned: seq<Path>, first: seq<Path>,
                                         w: World)
    requires attempt <= MaxRevisions(r) + 1 && Legal(w)
    ensures Legal(RunAttempts(env, r, attempt, planned, first, w).w)
    decreases MaxRevisions(r) + 1 - attempt
  {
    hide OneAttempt, Legal;
    if attempt <= MaxRevisions(r) {
      AttemptLegal(env, r, attempt, planned, first, w);
      var a := OneAttempt(env, r, attempt, planned, first, w);
      if a.Again? {
        AttemptsLegal(env, r, attempt + 1, planned, first, a.w);
      }
    }
  }

  /** For any replies, the steps a run records continue the task's path through the phase graph. */
  lemma RunFollowsGraph(env: Env, r: Request, w: World)
    requires Legal(w)
    ensures Legal(RunLoop(env, r, w).w)
  {
    hide RunAttempts, LegalSteps, Catch;
    var asked := Ask(w, PlanCall);
    var looked := Tick(asked);
    SamePath(w, asked);
    SamePath(w, looked);
    CatchLegal(env, r, asked, w.task.filesChanged, External);
    CatchLegal(env, r, looked, w.task.filesChanged, External);
    if env.plan(w.tick).Planned? && env.inspect(asked.tick).Inspected? && r.approved {
      AttemptsLegal(env, r, 0, env.plan(w.tick).paths, env.inspect(asked.tick).paths, looked);
    }
  }
}
