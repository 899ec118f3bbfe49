/**
 Exactly when a run of the autonomous coding loop leaves a file changed without recording it: by the
 replies to the patches of a candidate and by the state the candidate found.
 */
module AutonomousLoopRecords {
  import opened Wrappers
  import opened CodingTask
  import opened AutonomousLoop
  import opened AutonomousLoopSafety

  /** Every path that differs from the base is recorded as changed. */
  ghost predicate AllRecorded(w: World, base: Disk) {
    forall p :: !SameAt(w.disk, base, p) ==> p in w.task.filesChanged
  }

  // ---------- what the replies to the patches do ----------

  /** The files after the patches that went through, those these changed, the moment after the last
      question, and whether all of them went through. */
  datatype Sending = Sending(disk: Disk, changed: set<Path>, tick: nat, all: bool)

  function Sent(env: Env, allowed: seq<Path>, paths: seq<Path>, tick: nat, disk: Disk, changed: set<Path>): Sending
    decreases |paths|
  {
    if paths == [] then Sending(disk, changed, tick, true)
    else if paths[0] !in allowed then Sending(disk, changed, tick, false)
    else
      match env.patch(tick)
      case PatchFails => Sending(disk, changed, tick + 1, false)
      case Written(content) =>
        var (after, changes) := Write(disk, paths[0], content);
        Sent(env, allowed, paths[1..], tick + 1, after, if changes then changed + {paths[0]} else changed)
  }

  function SentFrom(env: Env, allowed: seq<Path>, paths: seq<Path>, w: World): Sending {
    Sent(env, allowed, paths, w.tick, w.disk, {})
  }

  lemma {:induction false} SentChangesOnly(env: Env, allowed: seq<Path>, paths: seq<Path>, tick: nat, disk: Disk,
                                           changed: set<Path>, p: Path)
    ensures var s := Sent(env, allowed, paths, tick, disk, changed);
            changed <= s.changed && (p !in s.changed ==> SameAt(s.disk, disk, p))
    decreases |paths|
  {
    if paths != [] && paths[0] in allowed && env.patch(tick).Written? {
      var content := env.patch(tick).content;
      var (after, changes) := Write(disk, paths[0], content);
      var more := if changes then changed + {paths[0]} else changed;
      SentChangesOnly(env, allowed, paths[1..], tick + 1, after, more, p);
      WriteChanges(disk, paths[0], content);
      SameAtTrans(Sent(env, allowed, paths[1..], tick + 1, after, more).disk, after, disk, p);
    }
  }

  /** Applying a candidate is sending its patches and then recording what they changed. */
  lemma {:induction false} ApplyIs(env: Env, r: Request, allowed: seq<Path>, paths: seq<Path>, w: World,
                                   changed: set<Path>)
    returns (after: World)
    ensures var s := Sent(env, allowed, paths, w.tick, w.disk, changed);
            && after.task == w.task && after.disk == s.disk && after.tick == s.tick
            && ApplyPatches(env, r, allowed, paths, w, changed) ==
                 (if !s.all then ApplyThrew(Abandon(after, s.changed), External)
                  else if s.changed == {} then Applied(after, false)
                  else RecordOrAbandon(env, after, s.changed))
    decreases |paths|
  {
    hide RecordOrAbandon, Abandon, Write;
    after := w;
    if paths != [] && paths[0] in allowed {
      var sent := w.(tick := w.tick + 1, history := w.history + [PatchSent(paths[0], r.approved)]);
      after := sent;
      if env.patch(w.tick).Written? {
        var (disk, changes) := Write(w.disk, paths[0], env.patch(w.tick).content);
        after := ApplyIs(env, r, allowed, paths[1..], sent.(disk := disk),
                         if changes then changed + {paths[0]} else changed);
      }
    }
  }

  // ---------- recording ----------

  lemma RecordPatchIs(env: Env, w: World, changed: set<Path>)
    ensures var a := RecordPatch(env, w, changed);
            && a.w.disk == w.disk && a.w.task.checkpoints == w.task.checkpoints
            && (a.Applied? <==> Recordable(w.task) && env.policy(w.tick) != PolicyFails)
            && a.w.task.filesChanged == (if a.Applied? then w.task.filesChanged + changed else w.task.filesChanged)
            && a.w.tick == (if Recordable(w.task) then w.tick + 1 else w.tick)
  {
  }

  lemma RollbackRecords(env: Env, w: World, base: Disk)
    requires w.task.checkpoints != [] && AllRecorded(w, base) && LatestReflects(w.task, base)
    ensures AllRecorded(Rollback(env, w).w, base)
    ensures Rollback(env, w).w.task.checkpoints == w.task.checkpoints
  {
    hide Restore, PathsOf, SameAt, Reflects;
    var entries := w.task.checkpoints[|w.task.checkpoints| - 1];
    var after := Rollback(env, w).w;
    forall p | !SameAt(after.disk, base, p) ensures p in after.task.filesChanged {
      RestoreAgrees(w.disk, entries, base, p);
      SameAtTrans(after.disk, w.disk, base, p);
    }
  }

  lemma CatchRecords(env: Env, r: Request, w: World, seen: set<Path>, fault: Fault, base: Disk)
    requires AllRecorded(w, base) && LatestReflects(w.task, base)
    ensures AllRecorded(Catch(env, r, w, seen, fault).w, base)
  {
    hide Rollback, AllRecorded, LatestReflects;
    if w.task.checkpoints != [] {
      RollbackRecords(env, w, base);
    }
  }

  // ---------- what is left when the changes are not recorded ----------

  /** Some patches went through and their changes are not recorded: the candidate was cut off, or
      the task or the policy did not let them be recorded. */
  predicate CutOff(env: Env, allowed: seq<Path>, paths: seq<Path>, w: World) {
    var s := SentFrom(env, allowed, paths, w);
    !s.all || (s.changed != {} && (!Recordable(w.task) || env.policy(s.tick) == PolicyFails))
  }

  /** The files after a candidate that was cut off, and after the error handler. */
  function LeftOnDisk(env: Env, r: Request, allowed: seq<Path>, paths: seq<Path>, w: World): Disk {
    var s := SentFrom(env, allowed, paths, w);
    var moment := if s.all && Recordable(w.task) then s.tick + 1 else s.tick;
    if r.approved && w.task.filesChanged != {} && w.task.checkpoints != [] && env.snapshot(moment)
    then Restore(s.disk, w.task.checkpoints[|w.task.checkpoints| - 1]).0
    else s.disk
  }

  /** A candidate leaves a file changed and unrecorded. */
  ghost predicate LeavesUnrecorded(env: Env, r: Request, base: Disk, allowed: seq<Path>, paths: seq<Path>, w: World) {
    && paths != [] && CutOff(env, allowed, paths, w)
    && exists p :: p !in w.task.filesChanged && !SameAt(LeftOnDisk(env, r, allowed, paths, w), base, p)
  }

  /** The state at the error, and what the handler makes of it. */
  lemma CaughtRecordsIff(env: Env, r: Request, w: World, at: World, fault: Fault, base: Disk)
    requires LatestReflects(w.task, base)
    requires at.task.filesChanged == w.task.filesChanged && at.task.checkpoints == w.task.checkpoints
    ensures var restores := r.approved && w.task.filesChanged != {} && w.task.checkpoints != [] && env.snapshot(at.tick);
            var left := if restores then Restore(at.disk, w.task.checkpoints[|w.task.checkpoints| - 1]).0 else at.disk;
            AllRecorded(Catch(env, r, at, w.task.filesChanged, fault).w, base) <==>
            forall p :: p !in w.task.filesChanged ==> SameAt(left, base, p)
  {
    hide Restore, PathsOf, SameAt, Reflects;
    var after := Catch(env, r, at, w.task.filesChanged, fault).w;
    if w.task.checkpoints != [] {
      var entries := w.task.checkpoints[|w.task.checkpoints| - 1];
      forall p ensures Restore(at.disk, entries).1 && p in PathsOf(entries) ==>
                         SameAt(Restore(at.disk, entries).0, base, p)
      {
        RestoreAgrees(at.disk, entries, base, p);
      }
    }
  }

  lemma CutOffThrows(env: Env, r: Request, allowed: seq<Path>, paths: seq<Path>, w: World)
    requires CutOff(env, allowed, paths, w)
    ensures var a := ApplyPatches(env, r, allowed, paths, w, {});
            var s := SentFrom(env, allowed, paths, w);
            && a.ApplyThrew? && a.w.disk == s.disk
            && a.w.task.filesChanged == w.task.filesChanged && a.w.task.checkpoints == w.task.checkpoints
            && a.w.tick == (if s.all && Recordable(w.task) then s.tick + 1 else s.tick)
  {
    hide ApplyPatches, RecordPatch, Rollback, Sent, Recordable;
    var after := ApplyIs(env, r, allowed, paths, w, {});
    RecordPatchIs(env, after, SentFrom(env, allowed, paths, w).changed);
  }

  lemma RecordedAfterApply(env: Env, r: Request, allowed: seq<Path>, paths: seq<Path>, w: World, base: Disk)
    requires !CutOff(env, allowed, paths, w) && AllRecorded(w, base) && LatestReflects(w.task, base)
    ensures var a := ApplyPatches(env, r, allowed, paths, w, {});
            && a.w.task.checkpoints == w.task.checkpoints && AllRecorded(a.w, base)
  {
    hide ApplyPatches, RecordPatch, Rollback, Sent, Recordable, SameAt, LatestReflects;
    var s := SentFrom(env, allowed, paths, w);
    var after := ApplyIs(env, r, allowed, paths, w, {});
    forall p | !SameAt(s.disk, base, p) ensures p in w.task.filesChanged + s.changed {
      SentChangesOnly(env, allowed, paths, w.tick, w.disk, {}, p);
      SameAtTrans(s.disk, w.disk, base, p);
    }
    if s.changed != {} {
      RecordPatchIs(env, after, s.changed);
      var recorded := RecordPatch(env, after, s.changed).w;
      SameLatest(w.task, recorded.task, base);
      assert AllRecorded(recorded, base);
      if recorded.task.checkpoints != [] {
        RollbackRecords(env, recorded, base);
      }
    }
  }

  // ---------- attempts and runs ----------

  lemma AfterRecords(env: Env, r: Request, attempt: nat, w: World, base: Disk)
    requires AllRecorded(w, base) && LatestReflects(w.task, base)
    ensures AllRecorded(Left(AfterValidation(env, r, attempt, w)), base)
  {
    hide Rollback, Catch, LatestReflects, SameAt;
    if w.task.checkpoints != [] {
      RollbackRecords(env, w, base);
      var back := Rollback(env, w);
      SameLatest(w.task, back.w.task, base);
      if back.Threw? {
        CatchRecords(env, r, back.w, w.task.filesChanged, back.fault, base);
      }
    }
    var next := BeginRevision(w);
    SameLatest(w.task, next.w.task, base);
    if next.Threw? {
      CatchRecords(env, r, next.w, w.task.filesChanged, next.fault, base);
    }
  }

  lemma ValidateRecords(env: Env, w: World, stage: Stage, base: Disk)
    requires AllRecorded(w, base) && LatestReflects(w.task, base)
    ensures AllRecorded(Validate(env, w, stage).w, base) && LatestReflects(Validate(env, w, stage).w.task, base)
  {
    hide Validate, LatestReflects, SameAt;
    ValidateSound(env, Request(true, None, []), base, w, stage);
    SameLatest(w.task, Validate(env, w, stage).w.task, base);
  }

  lemma CheckRecords(env: Env, r: Request, attempt: nat, w: World, base: Disk)
    requires AllRecorded(w, base) && LatestReflects(w.task, base)
    ensures AllRecorded(Left(Check(env, r, attempt, w)), base)
  {
    hide Validate, AfterValidation, Catch, AllRecorded, LatestReflects;
    ValidateRecords(env, w, Targeted, base);
    var t := Validate(env, w, Targeted);
    AfterRecords(env, r, attempt, t.w, base);
    if t.ValidationThrew? {
      CatchRecords(env, r, t.w, w.task.filesChanged, t.fault, base);
    } else if t.verdict == Passed {
      ValidateRecords(env, t.w, Full, base);
      var f := Validate(env, t.w, Full);
      AfterRecords(env, r, attempt, f.w, base);
      if f.ValidationThrew? {
        CatchRecords(env, r, f.w, t.w.task.filesChanged, f.fault, base);
      }
    }
  }

  lemma GiveUpRecords(env: Env, r: Request, w: World, base: Disk)
    requires AllRecorded(w, base) && LatestReflects(w.task, base)
    ensures AllRecorded(GiveUp(env, r, w).w, base)
  {
    hide Rollback, Catch, AllRecorded, LatestReflects;
    if w.task.checkpoints != [] {
      RollbackRecords(env, w, base);
      var back := Rollback(env, w);
      SameLatest(w.task, back.w.task, base);
      if back.Threw? {
        CatchRecords(env, r, back.w, w.task.filesChanged, back.fault, base);
      }
    }
  }

  /** From a state in which every difference is recorded, a candidate ends in one exactly unless its
      replies cut it off or keep it from being recorded, and a path then differs from the
      checkpointed state that was not recorded before. */
  lemma CandidateRecordsIff(env: Env, r: Request, base: Disk, attempt: nat, allowed: seq<Path>, paths: seq<Path>,
                            w: World)
    requires AllRecorded(w, base) && LatestReflects(w.task, base)
    ensures AllRecorded(Left(TryCandidate(env, r, attempt, allowed, paths, w)), base) <==>
            !LeavesUnrecorded(env, r, base, allowed, paths, w)
  {
    hide AllRecorded, LatestReflects, ApplyPatches, Check, GiveUp, Catch, CutOff, SentFrom, SameAt, Restore, Recordable;
    if paths == [] {
      GiveUpRecords(env, r, w, base);
    } else {
      var a := ApplyPatches(env, r, allowed, paths, w, {});
      if CutOff(env, allowed, paths, w) {
        CutOffThrows(env, r, allowed, paths, w);
        CaughtRecordsIff(env, r, w, a.w, a.fault, base);
      } else {
        RecordedAfterApply(env, r, allowed, paths, w, base);
        SameLatest(w.task, a.w.task, base);
        CheckRecords(env, r, attempt, a.w, base);
        if a.ApplyThrew? {
          CatchRecords(env, r, a.w, w.task.filesChanged, a.fault, base);
        }
      }
    }
  }

  /** The attempt gets a candidate that leaves a file unrecorded. */
  ghost predicate Torn(env: Env, r: Request, base: Disk, attempt: nat, planned: seq<Path>, first: seq<Path>, w: World) {
    var inspected := if attempt == 0 then Inspected(first) else env.inspect(w.tick);
    var looked := if attempt == 0 then w else Tick(w);
    && inspected.Inspected? && env.candidate(looked.tick).Candidate?
    && LeavesUnrecorded(env, r, base, inspected.paths + planned + r.scope, env.candidate(looked.tick).paths,
                        Ask(looked, if attempt == 0 then PatchCall else ReviseCall))
  }

  lemma SameRecords(w: World, after: World, base: Disk)
    requires AllRecorded(w, base) && LatestReflects(w.task, base) && after.disk == w.disk && after.task == w.task
    ensures AllRecorded(after, base) && LatestReflects(after.task, base)
  {
  }

  lemma AttemptRecordsIff(env: Env, r: Request, base: Disk, attempt: nat, planned: seq<Path>, first: seq<Path>, w: World)
    requires AllRecorded(w, base) && LatestReflects(w.task, base)
    ensures AllRecorded(Left(OneAttempt(env, r, attempt, planned, first, w)), base) <==>
            !Torn(env, r, base, attempt, planned, first, w)
  {
    hide AllRecorded, LatestReflects, TryCandidate, Catch, LeavesUnrecorded;
    var looked := if attempt == 0 then w else Tick(w);
    var asked := Ask(looked, if attempt == 0 then PatchCall else ReviseCall);
    SameRecords(w, looked, base);
    SameRecords(w, asked, base);
    CatchRecords(env, r, looked, w.task.filesChanged, External, base);
    CatchRecords(env, r, asked, w.task.filesChanged, External, base);
    var inspected := if attempt == 0 then Inspected(first) else env.inspect(w.tick);
    if inspected.Inspected? && env.candidate(looked.tick).Candidate? {
      CandidateRecordsIff(env, r, base, attempt, inspected.paths + planned + r.scope, env.candidate(looked.tick).paths,
                          asked);
    }
  }

  lemma AgainNotTorn(env: Env, r: Request, base: Disk, attempt: nat, planned: seq<Path>, first: seq<Path>, w: World)
    requires OneAttempt(env, r, attempt, planned, first, w).Again?
    ensures !Torn(env, r, base, attempt, planned, first, w)
    ensures r.approved ==> OneAttempt(env, r, attempt, planned, first, w).w.task.checkpoints == w.task.checkpoints
  {
    hide ApplyPatches, Check, CutOff, LeftOnDisk, SameAt;
    var looked := if attempt == 0 then w else Tick(w);
    var asked := Ask(looked, if attempt == 0 then PatchCall else ReviseCall);
    var inspected := if attempt == 0 then Inspected(first) else env.inspect(w.tick);
    var allowed, paths := inspected.paths + planned + r.scope, env.candidate(looked.tick).paths;
    if CutOff(env, allowed, paths, asked) {
      CutOffThrows(env, r, allowed, paths, asked);
    }
    if r.approved {
      AttemptSound(env, r, map[], attempt, planned, first, w);
    }
  }

  /** Some attempt of the run, reached with everything recorded, leaves a file unrecorded. */
  ghost predicate RunTorn(env: Env, r: Request, base: Disk, attempt: nat, planned: seq<Path>, first: seq<Path>, w: World)
    requires attempt <= MaxRevisions(r) + 1
    decreases MaxRevisions(r) + 1 - attempt
  {
    attempt <= MaxRevisions(r) &&
    match OneAttempt(env, r, attempt, planned, first, w)
    case Finish(_) => Torn(env, r, base, attempt, planned, first, w)
    case Again(next) => RunTorn(env, r, base, attempt + 1, planned, first, next)
  }

  lemma {:induction false} AttemptsRecordIff(env: Env, r: Request, base: Disk, attempt: nat, planned: seq<Path>,
                                             first: seq<Path>, w: World)
    requires attempt <= MaxRevisions(r) + 1 && r.approved && AllRecorded(w, base) && LatestReflects(w.task, base)
    ensures AllRecorded(RunAttempts(env, r, attempt, planned, first, w).w, base) <==>
            !RunTorn(env, r, base, attempt, planned, first, w)
    decreases MaxRevisions(r) + 1 - attempt
  {
    hide OneAttempt, Torn, AllRecorded, LatestReflects;
    if attempt <= MaxRevisions(r) {
      AttemptRecordsIff(env, r, base, attempt, planned, first, w);
      var a := OneAttempt(env, r, attempt, planned, first, w);
      if a.Again? {
        AgainNotTorn(env, r, base, attempt, planned, first, w);
        SameLatest(w.task, a.w.task, base);
        AttemptsRecordIff(env, r, base, attempt + 1, planned, first, a.w);
      }
    }
  }

  /** From a state in which every difference from the checkpoint is recorded, a run ends in one exactly
      if the last candidate it tried does not leave a file unrecorded. */
  lemma RunRecordsIff(env: Env, r: Request, base: Disk, w: World)
    requires AllRecorded(w, base) && LatestReflects(w.task, base)
    ensures var asked := Ask(w, PlanCall);
            AllRecorded(RunLoop(env, r, w).w, base) <==>
            !(r.approved && env.plan(w.tick).Planned? && env.inspect(asked.tick).Inspected?
              && env.inspect(asked.tick).paths != []
              && RunTorn(env, r, base, 0, env.plan(w.tick).paths, env.inspect(asked.tick).paths, Tick(asked)))
  {
    hide AllRecorded, LatestReflects, RunAttempts, RunTorn, Catch;
    var asked := Ask(w, PlanCall);
    var looked := Tick(asked);
    SameRecords(w, asked, base);
    SameRecords(w, looked, base);
    CatchRecords(env, r, asked, w.task.filesChanged, External, base);
    CatchRecords(env, r, looked, w.task.filesChanged, External, base);
    if r.approved && env.plan(w.tick).Planned? && env.inspect(asked.tick).Inspected? {
      AttemptsRecordIff(env, r, base, 0, env.plan(w.tick).paths, env.inspect(asked.tick).paths, looked);
    }
  }
}
