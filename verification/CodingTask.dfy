/**
 The coding task: its phase graph, checkpoints and rollback over the workspace's files, the
 recording of patches and the validation stages. Replies of tools, models and the patch policy
 are those of an environment, indexed by the moment at which they are asked for.
 */
module CodingTask {
  import opened Numbers
  import opened Wrappers

  type Path = string

  type Bytes = seq<bv8>

  type Disk = map<Path, Bytes>

  datatype Phase =
    | Understand | Plan | Inspect | Patch | TargetedValidation | AnalyzeFailure | Revise | FullValidation | Summarize

  datatype Status = Active | Blocked | Failed | Completed | Cancelled

  predicate Leads(from: Phase, to: Phase) {
    match from
    case Understand => to == Plan
    case Plan => to == Inspect
    case Inspect => to == Patch || to == TargetedValidation || to == Summarize
    case Patch => to == TargetedValidation
    case TargetedValidation => to == AnalyzeFailure || to == FullValidation || to == Summarize
    case AnalyzeFailure => to == Revise
    case Revise => to == TargetedValidation
    case FullValidation => to == AnalyzeFailure || to == Summarize
    case Summarize => false
  }

  /** A checkpointed path: not there, or there with this content. */
  datatype Entry = Absent(path: Path) | Existed(path: Path, content: Bytes)

  datatype Task = Task(
    status: Status, phase: Phase, steps: seq<Phase>, filesChanged: set<Path>, checkpoints: seq<seq<Entry>>)

  datatype Stage = Targeted | Full

  datatype CheckStatus = Succeeded | CheckFailed | CheckBlocked | NeedsRemote

  datatype Call = PlanCall | PatchCall | ReviseCall

  /** What has happened so far, for the reader: models asked, patches sent, patched files that
      were never recorded, and the results of validation stages. */
  datatype Event =
    | Asked(call: Call)
    | PatchSent(path: Path, approved: bool)
    | Abandoned(files: set<Path>)
    | Checked(stage: Stage, results: seq<CheckStatus>)

  datatype World = World(task: Task, disk: Disk, tick: nat, history: seq<Event>)

  /** A violated guard of the task itself, a checkpoint entry without content, or anything from outside. */
  datatype Fault = Guard | ContentMissing | External

  datatype PlanReply = PlanFails | Planned(paths: seq<Path>)

  datatype InspectReply = InspectFails | Inspected(paths: seq<Path>)

  datatype CandidateReply = CandidateFails | Candidate(paths: seq<Path>)

  datatype PatchReply = PatchFails | Written(content: Bytes)

  datatype PolicyReply = PolicyFails | Pass | Review | Block

  datatype ToolsReply = IndexFails | Tools(count: nat)

  datatype CheckReply = CheckThrows | Result(status: CheckStatus)

  datatype Env = Env(
    plan: nat -> PlanReply,
    inspect: nat -> InspectReply,
    candidate: nat -> CandidateReply,
    patch: nat -> PatchReply,
    policy: nat -> PolicyReply,
    tools: nat -> ToolsReply,
    check: nat -> CheckReply,
    write: nat -> bool,
    snapshot: nat -> bool)

  // ---------- the phase graph ----------

  /** The task in the new phase, or nothing when a guard is violated. */
  function Transition(t: Task, phase: Phase): Option<Task> {
    if t.status != Active || (phase != t.phase && !Leads(t.phase, phase)) then None
    else Some(t.(phase := phase,
                 status := if phase == Summarize then Completed else t.status,
                 steps := if phase == t.phase then t.steps else t.steps + [phase]))
  }

  function NewTask(): Task { Task(Active, Understand, [Understand], {}, []) }

  /** The steps are a path through the phase graph from its start to the current phase. */
  ghost predicate LegalSteps(t: Task) {
    && t.steps != [] && t.steps[0] == Understand && t.steps[|t.steps| - 1] == t.phase
    && forall i :: 0 < i < |t.steps| ==> Leads(t.steps[i - 1], t.steps[i])
  }

  lemma TransitionLegal(t: Task, phase: Phase)
    requires LegalSteps(t)
    ensures Transition(t, phase).Some? ==> LegalSteps(Transition(t, phase).value)
    ensures LegalSteps(NewTask())
  {
  }

  /** What the recorded steps say of the work: a patch comes right after inspection, a revision right after
      an analysed failure, and both are followed by targeted validation alone; full validation comes only
      from there; nothing follows the summary, which is reached from inspection or a validation. */
  lemma StepsAreDisciplined(t: Task, i: nat)
    requires LegalSteps(t) && i + 1 < |t.steps|
    ensures var from, to := t.steps[i], t.steps[i + 1];
            && (from == Patch || from == Revise ==> to == TargetedValidation)
            && (from == AnalyzeFailure <==> to == Revise)
            && (to == Patch ==> from == Inspect)
            && (to == FullValidation ==> from == TargetedValidation)
            && (to == AnalyzeFailure ==> from == TargetedValidation || from == FullValidation)
            && (to == Summarize ==> from == Inspect || from == TargetedValidation || from == FullValidation)
            && (to == TargetedValidation ==> from == Inspect || from == Patch || from == Revise)
            && from != Summarize && to != Understand && (from == Understand <==> to == Plan) && (from == Plan <==> to == Inspect)
  {
    assert Leads(t.steps[i + 1 - 1], t.steps[i + 1]);
  }

  // ---------- checkpoints ----------

  function SizeAt(disk: Disk, path: Path): nat { if path in disk then |disk[path]| else 0 }

  function SizeOf(disk: Disk, files: seq<Path>): nat {
    if files == [] then 0 else SizeAt(disk, files[0]) + SizeOf(disk, files[1..])
  }

  function EntryAt(disk: Disk, path: Path): Entry {
    if path in disk then Existed(path, disk[path]) else Absent(path)
  }

  /** The entries of the files, or nothing when their sizes add up to more than the limit. */
  function SnapshotFrom(disk: Disk, files: seq<Path>, total: nat, limit: nat): Option<seq<Entry>> {
    if files == [] then Some([])
    else
      var size := total + SizeAt(disk, files[0]);
      if size > limit && files[0] in disk then None
      else
        match SnapshotFrom(disk, files[1..], size, limit)
        case Some(rest) => Some([EntryAt(disk, files[0])] + rest)
        case None => None
  }

  function SnapshotLimit(requested: nat): nat {
    Max(1000000, Min(if requested == 0 then 12000000 else requested, 50000000))
  }

  /** The files are the sorted list without repeats; the first hundred are checkpointed. */
  function Bounded(files: seq<Path>): seq<Path> { files[..Min(|files|, 100)] }

  function Snapshot(disk: Disk, files: seq<Path>, requested: nat): Option<seq<Entry>> {
    SnapshotFrom(disk, Bounded(files), 0, SnapshotLimit(requested))
  }

  function PathsOf(entries: seq<Entry>): set<Path> {
    if entries == [] then {} else {entries[0].path} + PathsOf(entries[1..])
  }

  ghost predicate SameAt(a: Disk, b: Disk, path: Path) {
    (path in a <==> path in b) && (path in a ==> a[path] == b[path])
  }

  ghost predicate EntryReflects(e: Entry, base: Disk) {
    match e
    case Absent(path) => path !in base
    case Existed(path, content) => path in base && base[path] == content
  }

  /** The entries hold what the disk held. */
  ghost predicate Reflects(entries: seq<Entry>, base: Disk) {
    forall i :: 0 <= i < |entries| ==> EntryReflects(entries[i], base)
  }

  lemma {:induction false} SnapshotReflects(disk: Disk, files: seq<Path>, total: nat, limit: nat)
    ensures SnapshotFrom(disk, files, total, limit).Some? ==>
              && Reflects(SnapshotFrom(disk, files, total, limit).value, disk)
              && PathsOf(SnapshotFrom(disk, files, total, limit).value) == (set p | p in files)
  {
    if files != [] {
      SnapshotReflects(disk, files[1..], total + SizeAt(disk, files[0]), limit);
      if SnapshotFrom(disk, files, total, limit).Some? {
        var entries := SnapshotFrom(disk, files, total, limit).value;
        assert entries[1..] == SnapshotFrom(disk, files[1..], total + SizeAt(disk, files[0]), limit).value;
        assert files == [files[0]] + files[1..];
        forall i | 0 <= i < |entries| ensures EntryReflects(entries[i], disk) {
          assert i > 0 ==> entries[i] == entries[1..][i - 1];
        }
      }
    }
  }

  lemma {:induction false} SnapshotFitsIff(disk: Disk, files: seq<Path>, total: nat, limit: nat)
    requires total <= limit
    ensures SnapshotFrom(disk, files, total, limit).Some? <==> total + SizeOf(disk, files) <= limit
  {
    if files != [] && total + SizeAt(disk, files[0]) <= limit {
      SnapshotFitsIff(disk, files[1..], total + SizeAt(disk, files[0]), limit);
    }
  }

  // ---------- rollback ----------

  /** The disk after putting the entries back in order, and whether all of them were. */
  function Restore(disk: Disk, entries: seq<Entry>): (Disk, bool)
    decreases |entries|
  {
    if entries == [] then (disk, true)
    else
      match entries[0]
      case Absent(path) => Restore(disk - {path}, entries[1..])
      case Existed(path, content) =>
        if content == [] then (disk, false) else Restore(disk[path := content], entries[1..])
  }

  predicate NoEmptyFile(entries: seq<Entry>) {
    forall i :: 0 <= i < |entries| ==> !(entries[i].Existed? && entries[i].content == [])
  }

  lemma {:induction false} RestoreCompleteIff(disk: Disk, entries: seq<Entry>)
    ensures Restore(disk, entries).1 <==> NoEmptyFile(entries)
    decreases |entries|
  {
    if entries != [] {
      var e := entries[0];
      assert entries == [e] + entries[1..];
      if e.Absent? {
        RestoreCompleteIff(disk - {e.path}, entries[1..]);
      } else if e.content != [] {
        RestoreCompleteIff(disk[e.path := e.content], entries[1..]);
      }
    }
  }

  /** Restoring gives every path the checkpointed content or leaves it alone; all checkpointed
      paths get theirs when it completes, and no other path is ever touched. */
  lemma {:induction false} RestoreAgrees(disk: Disk, entries: seq<Entry>, base: Disk, path: Path)
    requires Reflects(entries, base)
    ensures SameAt(Restore(disk, entries).0, base, path) || SameAt(Restore(disk, entries).0, disk, path)
    ensures path !in PathsOf(entries) ==> SameAt(Restore(disk, entries).0, disk, path)
    ensures Restore(disk, entries).1 && path in PathsOf(entries) ==> SameAt(Restore(disk, entries).0, base, path)
    decreases |entries|
  {
    if entries != [] {
      var e := entries[0];
      assert EntryReflects(e, base);
      assert Reflects(entries[1..], base) by {
        assert forall i :: 0 <= i < |entries| - 1 ==> entries[1..][i] == entries[i + 1];
      }
      if e.Absent? {
        RestoreAgrees(disk - {e.path}, entries[1..], base, path);
      } else if e.content != [] {
        RestoreAgrees(disk[e.path := e.content], entries[1..], base, path);
      }
    }
  }

  /** A checkpoint takes the first hundred files, unless they add up to more bytes than asked for, twelve
      million unless told otherwise and always between one and fifty. Followed by any edits and a
      rollback, it succeeds exactly when no checkpointed file was empty, and then every checkpointed path
      is as it was and no other path changes. */
  lemma CheckpointRoundTrip(before: Disk, files: seq<Path>, requested: nat, edited: Disk)
    ensures Snapshot(before, files, requested).Some? <==>
            SizeOf(before, files[..Min(|files|, 100)])
              <= Max(1_000_000, Min(if requested == 0 then 12_000_000 else requested, 50_000_000))
    ensures Snapshot(before, files, requested).Some? ==>
              var entries, chosen := Snapshot(before, files, requested).value, files[..Min(|files|, 100)];
              && (Restore(edited, entries).1 <==> forall p :: p in chosen && p in before ==> before[p] != [])
              && (Restore(edited, entries).1 ==>
                    forall p :: SameAt(Restore(edited, entries).0, if p in chosen then before else edited, p))
  {
    var limit, chosen := SnapshotLimit(requested), Bounded(files);
    SnapshotFitsIff(before, chosen, 0, limit);
    SnapshotReflects(before, chosen, 0, limit);
    if SnapshotFrom(before, chosen, 0, limit).Some? {
      var entries := SnapshotFrom(before, chosen, 0, limit).value;
      RestoreCompleteIff(edited, entries);
      NoEmptyFileIff(entries, before);
      forall p ensures SameAt(Restore(edited, entries).0, if p in chosen then before else edited, p)
                       || !Restore(edited, entries).1
      {
        RestoreAgrees(edited, entries, before, p);
      }
    }
  }

  lemma {:induction false} NoEmptyFileIff(entries: seq<Entry>, base: Disk)
    requires Reflects(entries, base)
    ensures NoEmptyFile(entries) <==> forall p :: p in PathsOf(entries) && p in base ==> base[p] != []
  {
    if entries != [] {
      var e := entries[0];
      assert EntryReflects(e, base);
      assert Reflects(entries[1..], base) by {
        assert forall i :: 0 <= i < |entries| - 1 ==> entries[1..][i] == entries[i + 1];
      }
      NoEmptyFileIff(entries[1..], base);
      assert entries == [e] + entries[1..];
    }
  }

  datatype Step = Went(w: World) | Threw(w: World, fault: Fault)

  /** Rolls back to the latest checkpoint. */
  function Rollback(env: Env, w: World): Step
    requires w.task.checkpoints != []
  {
    var entries := w.task.checkpoints[|w.task.checkpoints| - 1];
    var later := w.(tick := w.tick + 1);
    if !env.snapshot(w.tick) then Threw(later, External)
    else
      var (disk, complete) := Restore(w.disk, entries);
      if complete
      then Went(later.(disk := disk, task := w.task.(filesChanged := w.task.filesChanged - PathsOf(entries))))
      else Threw(later.(disk := disk), ContentMissing)
  }

  /** A rollback puts the latest checkpoint back on disk as far as it gets; the restored paths leave the
      list of changed files only when it runs through, and nothing else of the task changes. It fails
      without touching a file when the snapshot cannot be read. */
  lemma RollbackExact(env: Env, w: World)
    requires w.task.checkpoints != []
    ensures var step, entries := Rollback(env, w), w.task.checkpoints[|w.task.checkpoints| - 1];
            && step.w.tick == w.tick + 1 && step.w.history == w.history
            && (step.Went? <==> env.snapshot(w.tick) && NoEmptyFile(entries))
            && step.w.disk == (if env.snapshot(w.tick) then Restore(w.disk, entries).0 else w.disk)
            && step.w.task == w.task.(filesChanged := if step.Went? then w.task.filesChanged - PathsOf(entries)
                                                      else w.task.filesChanged)
            && (step.Threw? ==> step.fault == if env.snapshot(w.tick) then ContentMissing else External)
  {
    hide Restore, PathsOf, NoEmptyFile;
    RestoreCompleteIff(w.disk, w.task.checkpoints[|w.task.checkpoints| - 1]);
  }

  // ---------- patches and validation ----------

  /** Changes can be recorded in this state of the task. */
  predicate Recordable(t: Task) { (t.phase == Inspect && t.status == Active) || t.phase == Patch || t.phase == Revise }

  datatype Recorded = Recorded(task: Task, blocked: bool) | Refused(task: Task, fault: Fault)

  /** Records the changed files and the policy's verdict on them; the policy is not asked when a
      guard is violated. */
  function RecordVerdict(t: Task, changed: set<Path>, verdict: PolicyReply): Recorded {
    var moved := if t.phase == Inspect then Transition(t, Patch) else Some(t);
    if moved.None? then Refused(t, Guard)
    else if moved.value.phase != Patch && moved.value.phase != Revise then Refused(t, Guard)
    else if verdict == PolicyFails then Refused(moved.value, External)
    else
      Recorded(moved.value.(filesChanged := moved.value.filesChanged + changed,
                            status := if verdict == Block then Blocked else moved.value.status),
               verdict == Block)
  }

  /** Changes are recorded exactly when the phase allows it and the policy answers. */
  lemma RecordedIff(t: Task, changed: set<Path>, verdict: PolicyReply)
    ensures var r := RecordVerdict(t, changed, verdict);
            && (r.Recorded? <==> Recordable(t) && verdict != PolicyFails)
            && (r.Refused? ==> r.task.filesChanged == t.filesChanged && r.task.status == t.status
                               && (r.fault == Guard <==> !Recordable(t)))
            && (r.Recorded? ==> (r.blocked <==> verdict == Block))
            && (r.Recorded? ==> r.task.filesChanged == t.filesChanged + changed
                                && r.task.status == (if verdict == Block then Blocked else t.status))
            && r.task.phase == (if Recordable(t) && t.phase == Inspect then Patch else t.phase)
            && r.task.checkpoints == t.checkpoints
    ensures LegalSteps(t) ==> LegalSteps(RecordVerdict(t, changed, verdict).task)
  {
  }

  datatype Applied = Applied(w: World, blocked: bool) | ApplyThrew(w: World, fault: Fault)

  function RecordPatch(env: Env, w: World, changed: set<Path>): Applied {
    match RecordVerdict(w.task, changed, env.policy(w.tick))
    case Recorded(task, blocked) => Applied(w.(task := task, tick := w.tick + 1), blocked)
    case Refused(task, fault) => ApplyThrew(if fault == Guard then w else w.(task := task, tick := w.tick + 1), fault)
  }

  datatype Checks = Checks(w: World, results: seq<CheckStatus>) | ChecksThrew(w: World)

  /** Runs up to a number of checks, ending after one that failed or was blocked. */
  function RunChecks(env: Env, w: World, count: nat, results: seq<CheckStatus>): Checks
    decreases count
  {
    if count == 0 then Checks(w, results)
    else
      var later := w.(tick := w.tick + 1);
      match env.check(w.tick)
      case CheckThrows => ChecksThrew(later)
      case Result(status) =>
        if status == CheckFailed || status == CheckBlocked then Checks(later, results + [status])
        else RunChecks(env, later, count - 1, results + [status])
  }

  datatype Verdict = Passed | Failing | RemoteRequired

  datatype Validated = Validated(w: World, verdict: Verdict) | ValidationThrew(w: World, fault: Fault)

  function Moved(w: World, phase: Phase, verdict: Verdict): Validated {
    match Transition(w.task, phase)
    case Some(t) => Validated(w.(task := t), verdict)
    case None => ValidationThrew(w, Guard)
  }

  function StagePhase(stage: Stage): Phase { if stage == Targeted then TargetedValidation else FullValidation }

  /** The task in the phase of the stage, or nothing when a guard is violated. */
  function EnterStage(t: Task, stage: Stage): Option<Task> {
    if t.status != Active then None
    else if t.phase == StagePhase(stage) then Some(t)
    else if stage == Targeted && t.phase != Inspect && t.phase != Patch && t.phase != Revise then None
    else if stage == Full && t.phase != TargetedValidation then None
    else Transition(t, StagePhase(stage))
  }

  predicate AnyFailed(results: seq<CheckStatus>) { CheckFailed in results || CheckBlocked in results }

  /** A stage without results, or with a failed one, sends the task to be analysed. */
  function Conclude(w: World, stage: Stage, results: seq<CheckStatus>): Validated {
    var after := w.(history := w.history + [Checked(stage, results)]);
    if results == [] || AnyFailed(results) then Moved(after, AnalyzeFailure, Failing)
    else if NeedsRemote in results then Validated(after, RemoteRequired)
    else Moved(after, if stage == Targeted then FullValidation else Summarize, Passed)
  }

  /** Runs a validation stage with the tools the environment names. */
  function Validate(env: Env, w: World, stage: Stage): Validated {
    match EnterStage(w.task, stage)
    case None => ValidationThrew(w, Guard)
    case Some(t) =>
      var entered := w.(task := t, tick := w.tick + 1);
      match env.tools(w.tick)
      case IndexFails => ValidationThrew(entered, External)
      case Tools(count) =>
        if count == 0 then Conclude(entered, stage, [])
        else
          match RunChecks(env, entered, count, [])
          case ChecksThrew(later) => ValidationThrew(later, External)
          case Checks(later, results) => Conclude(later, stage, results)
  }

  function BeginRevision(w: World): Step {
    if w.task.phase != AnalyzeFailure then Threw(w, Guard)
    else
      match Transition(w.task, Revise)
      case Some(t) => Went(w.(task := t))
      case None => Threw(w, Guard)
  }

  function RecordRemoteResult(w: World, passed: bool): Step {
    if w.task.phase != FullValidation then Threw(w, Guard)
    else
      match Transition(w.task, if passed then Summarize else AnalyzeFailure)
      case Some(t) => Went(w.(task := t))
      case None => Threw(w, Guard)
  }

  /** One more checkpoint of the task, unless the files are too large or it cannot be written. */
  function Checkpoint(env: Env, w: World, files: seq<Path>, requested: nat): Step {
    match Snapshot(w.disk, files, requested)
    case None => Threw(w, External)
    case Some(entries) =>
      var later := w.(tick := w.tick + 1);
      if env.write(w.tick)
      then Went(later.(task := w.task.(checkpoints := w.task.checkpoints + [entries])))
      else Threw(later, External)
  }

  /** Brings a task to inspection, with a checkpoint of the files to inspect unless it has one. */
  function Prepare(env: Env, w: World, files: seq<Path>): Step {
    var planned := if w.task.phase == Understand then Transition(w.task, Plan) else Some(w.task);
    if planned.None? then Threw(w, Guard)
    else
      var ready := if planned.value.phase == Plan then Transition(planned.value, Inspect) else planned;
      if ready.None? then Threw(w.(task := planned.value), Guard)
      else if ready.value.checkpoints != [] then Went(w.(task := ready.value))
      else Checkpoint(env, w.(task := ready.value), files, 0)
  }

  /** A revision begins exactly on an active task whose failure was analysed, and a remote result is taken
      exactly on an active task in full validation, which a passed one completes and a failed one sends to
      be analysed; otherwise nothing changes. */
  lemma RevisionAndRemoteExact(w: World, passed: bool)
    ensures var b := BeginRevision(w);
            if w.task.phase == AnalyzeFailure && w.task.status == Active
            then b == Went(w.(task := w.task.(phase := Revise, steps := w.task.steps + [Revise])))
            else b == Threw(w, Guard)
    ensures var o := RecordRemoteResult(w, passed);
            if w.task.phase != FullValidation || w.task.status != Active then o == Threw(w, Guard)
            else if passed
            then o == Went(w.(task := w.task.(phase := Summarize, status := Completed, steps := w.task.steps + [Summarize])))
            else o == Went(w.(task := w.task.(phase := AnalyzeFailure, steps := w.task.steps + [AnalyzeFailure])))
  {
  }

  /** Preparing brings a task that is still to be understood or planned to inspection, which only an active
      one allows, and leaves any other phase; a task without a checkpoint gets one, if its files are not
      too large and it can be written, and a task with one keeps those it has. */
  lemma PrepareExact(env: Env, w: World, files: seq<Path>)
    ensures var step := Prepare(env, w, files);
            var early := w.task.phase == Understand || w.task.phase == Plan;
            var fits := SizeOf(w.disk, files[..Min(|files|, 100)]) <= 12_000_000;
            && (step.Went? <==>
                  (early ==> w.task.status == Active) && (w.task.checkpoints == [] ==> fits && env.write(w.tick)))
            && (step.Threw? ==> (step.fault == Guard <==> early && w.task.status != Active))
            && step.w.disk == w.disk && step.w.task.status == w.task.status
            && step.w.task.filesChanged == w.task.filesChanged
            && (early && w.task.status == Active ==> step.w.task.phase == Inspect)
            && (!early || w.task.status != Active ==> step.w.task.phase == w.task.phase)
            && (step.Went? && w.task.checkpoints != [] ==> step.w.task.checkpoints == w.task.checkpoints)
            && (step.Went? && w.task.checkpoints == [] ==>
                  |step.w.task.checkpoints| == 1 && Reflects(step.w.task.checkpoints[0], w.disk)
                  && PathsOf(step.w.task.checkpoints[0]) == set p | p in files[..Min(|files|, 100)])
  {
    assert SnapshotLimit(0) == 12_000_000;
    hide SnapshotFrom, SizeOf, SnapshotLimit, PathsOf, Reflects;
    SnapshotFitsIff(w.disk, Bounded(files), 0, 12_000_000);
    SnapshotReflects(w.disk, Bounded(files), 0, 12_000_000);
  }

  /** What the autonomous loop needs of a task to run without violating a guard. */
  predicate Ready(t: Task) {
    t.status == Active && (t.phase == Inspect || t.phase == Patch || t.phase == Revise)
  }

  lemma PreparedReady(env: Env, w: World, files: seq<Path>)
    requires w.task == NewTask()
    ensures Prepare(env, w, files).Went? <==> SizeOf(w.disk, Bounded(files)) <= 12000000 && env.write(w.tick)
    ensures Prepare(env, w, files).Went? ==>
              && Ready(Prepare(env, w, files).w.task)
              && Prepare(env, w, files).w.disk == w.disk
              && |Prepare(env, w, files).w.task.checkpoints| == 1
              && Reflects(Prepare(env, w, files).w.task.checkpoints[0], w.disk)
  {
    assert SnapshotLimit(0) == 12000000;
    hide SnapshotFrom, SizeOf, Bounded, SnapshotLimit;
    SnapshotFitsIff(w.disk, Bounded(files), 0, 12000000);
    SnapshotReflects(w.disk, Bounded(files), 0, 12000000);
  }

  /** A stage's checks: at least one, none failing before the last, at most as many as the tools. */
  lemma {:induction false} RunChecksExact(env: Env, w: World, count: nat, results: seq<CheckStatus>)
    requires !AnyFailed(results)
    ensures RunChecks(env, w, count, results).w.task == w.task
    ensures RunChecks(env, w, count, results).w.disk == w.disk
    ensures RunChecks(env, w, count, results).w.history == w.history
    ensures RunChecks(env, w, count, results).Checks? ==>
              var all := RunChecks(env, w, count, results).results;
              && |results| <= |all| <= |results| + count && (count > 0 ==> |all| > |results|)
              && (all != [] ==> !AnyFailed(all[..|all| - 1]) || all == results)
              && (!AnyFailed(all) ==> |all| == |results| + count)
    decreases count
  {
    if count > 0 && env.check(w.tick).Result? {
      var status := env.check(w.tick).status;
      var longer := results + [status];
      assert longer[..|longer| - 1] == results;
      if status != CheckFailed && status != CheckBlocked {
        RunChecksExact(env, w.(tick := w.tick + 1), count - 1, longer);
      }
    }
  }

  /** A stage passes exactly when all its tools ran and succeeded, fails exactly when it had none or one
      of them failed or was blocked, and waits otherwise; the task's phase follows. */
  lemma StagePassesIff(env: Env, w: World, stage: Stage)
    requires Validate(env, w, stage).Validated?
    ensures var v := Validate(env, w, stage);
            && v.w.disk == w.disk && v.w.task.filesChanged == w.task.filesChanged
            && v.w.task.checkpoints == w.task.checkpoints
            && |v.w.history| == |w.history| + 1 && w.history <= v.w.history
            && v.w.history[|w.history|].Checked? && v.w.history[|w.history|].stage == stage
            && (v.verdict == Passed <==> AllSucceeded(stage, v.w.history[|w.history|]))
            && (v.verdict == Failing <==> StageFailed(v.w.history[|w.history|]))
            && (v.verdict == RemoteRequired <==> Deferred(v.w.history[|w.history|]))
            && (v.verdict == Passed ==>
                  v.w.task.phase == (if stage == Targeted then FullValidation else Summarize)
                  && v.w.task.status == (if stage == Targeted then Active else Completed))
            && (v.verdict == Failing ==> v.w.task.phase == AnalyzeFailure && v.w.task.status == Active)
            && (v.verdict == RemoteRequired ==>
                  v.w.task.phase == (if stage == Targeted then TargetedValidation else FullValidation)
                  && v.w.task.status == Active)
  {
    hide RunChecks;
    var entered := w.(task := EnterStage(w.task, stage).value, tick := w.tick + 1);
    RunChecksExact(env, entered, env.tools(w.tick).count, []);
  }

  predicate AllSucceeded(stage: Stage, e: Event) {
    e.Checked? && e.stage == stage && e.results != [] && forall i :: 0 <= i < |e.results| ==> e.results[i] == Succeeded
  }

  /** The stage had no tools, or one of them failed or was blocked. */
  predicate StageFailed(e: Event) {
    e.Checked? && (e.results == [] || CheckFailed in e.results || CheckBlocked in e.results)
  }

  /** No tool failed, but some must run elsewhere. */
  predicate Deferred(e: Event) {
    e.Checked? && NeedsRemote in e.results && CheckFailed !in e.results && CheckBlocked !in e.results
  }

  // ---------- a stage by the replies of its tools ----------

  /** The replies of tools from one moment up to another are results, none a failure or a block. */
  predicate GoesThrough(env: Env, from: nat, to: nat) {
    forall t :: from <= t < to ==> env.check(t) == Result(Succeeded) || env.check(t) == Result(NeedsRemote)
  }

  predicate FailsAt(env: Env, t: nat) {
    env.check(t) == Result(CheckFailed) || env.check(t) == Result(CheckBlocked)
  }

  /** The results are the replies in their order, up to the first failure; the stage throws only at a
      reply that does. */
  lemma {:induction false} RunChecksByReplies(env: Env, w: World, count: nat, results: seq<CheckStatus>)
    ensures var c := RunChecks(env, w, count, results);
            && (c.Checks? ==>
                  && |results| <= |c.results|
                  && c.w.tick == w.tick + |c.results| - |results|
                  && forall t :: w.tick <= t < c.w.tick ==> env.check(t) == Result(c.results[|results| + t - w.tick]))
            && (c.ChecksThrew? ==>
                  exists t: nat :: w.tick <= t < w.tick + count && env.check(t) == CheckThrows && GoesThrough(env, w.tick, t))
    decreases count
  {
    if count > 0 && env.check(w.tick).Result? {
      var status := env.check(w.tick).status;
      var later := w.(tick := w.tick + 1);
      if status == Succeeded || status == NeedsRemote {
        RunChecksByReplies(env, later, count - 1, results + [status]);
        var c := RunChecks(env, w, count, results);
        if c.Checks? {
          RunChecksExtends(env, later, count - 1, results + [status]);
        } else {
          var t: nat :| later.tick <= t < later.tick + count - 1 && env.check(t) == CheckThrows
                        && GoesThrough(env, later.tick, t);
          assert GoesThrough(env, w.tick, t);
        }
      }
    } else if count > 0 {
      assert GoesThrough(env, w.tick, w.tick);
    }
  }

  lemma {:induction false} RunChecksExtends(env: Env, w: World, count: nat, results: seq<CheckStatus>)
    ensures RunChecks(env, w, count, results).Checks? ==> results <= RunChecks(env, w, count, results).results
    decreases count
  {
    if count > 0 && env.check(w.tick).Result? {
      RunChecksExtends(env, w.(tick := w.tick + 1), count - 1, results + [env.check(w.tick).status]);
    }
  }

  /** The stage may be entered from this state of the task. */
  predicate MayEnter(t: Task, stage: Stage) {
    && t.status == Active
    && (if stage == Targeted
        then t.phase == TargetedValidation || t.phase == Inspect || t.phase == Patch || t.phase == Revise
        else t.phase == FullValidation || t.phase == TargetedValidation)
  }

  /** How a stage ends, by the replies alone: it throws when it may not be entered, when the tools cannot
      be named, or at a tool that throws before any fails; it fails without tools, or at a tool that
      fails; it passes when all succeed. */
  lemma StageByReplies(env: Env, w: World, stage: Stage)
    ensures var v := Validate(env, w, stage);
            var n, from := if env.tools(w.tick).Tools? then env.tools(w.tick).count else 0, w.tick + 1;
            var runs := MayEnter(w.task, stage) && env.tools(w.tick).Tools?;
            && (v.Validated? && v.verdict == Passed <==>
                  runs && n > 0 && forall t :: from <= t < from + n ==> env.check(t) == Result(Succeeded))
            && (v.Validated? && v.verdict == Failing <==>
                  runs && (n == 0 || exists t: nat :: from <= t < from + n && FailsAt(env, t) && GoesThrough(env, from, t)))
            && (v.Validated? && v.verdict == RemoteRequired <==>
                  runs && GoesThrough(env, from, from + n)
                  && exists t :: from <= t < from + n && env.check(t) == Result(NeedsRemote))
            && (v.ValidationThrew? ==> (v.fault == Guard <==> !MayEnter(w.task, stage)))
  {
    hide RunChecks, MayEnter, GoesThrough, FailsAt;
    StageCases(env, w, stage);
    if MayEnter(w.task, stage) && env.tools(w.tick).Tools? {
      RepliesDecide(env, w.(task := EnterStage(w.task, stage).value, tick := w.tick + 1), env.tools(w.tick).count);
    }
  }

  /** How a stage ends, by the results of its tools. */
  lemma StageCases(env: Env, w: World, stage: Stage)
    ensures MayEnter(w.task, stage) <==> EnterStage(w.task, stage).Some?
    ensures var v := Validate(env, w, stage);
            if !MayEnter(w.task, stage) then v.ValidationThrew? && v.fault == Guard
            else if env.tools(w.tick).IndexFails? then v.ValidationThrew? && v.fault == External
            else
              var n := env.tools(w.tick).count;
              var c := RunChecks(env, w.(task := EnterStage(w.task, stage).value, tick := w.tick + 1), n, []);
              && (v.ValidationThrew? ==> v.fault == External)
              && (n == 0 ==> c.Checks? && c.results == [])
              && (v.Validated? <==> c.Checks?)
              && (v.Validated? ==>
                    && (v.verdict == Passed <==> n > 0 && !AnyFailed(c.results) && NeedsRemote !in c.results)
                    && (v.verdict == Failing <==> n == 0 || AnyFailed(c.results))
                    && (v.verdict == RemoteRequired <==> n > 0 && !AnyFailed(c.results) && NeedsRemote in c.results))
  {
    hide AnyFailed;
    if MayEnter(w.task, stage) && env.tools(w.tick).Tools? {
      var entered := w.(task := EnterStage(w.task, stage).value, tick := w.tick + 1);
      SomeResults(env, entered, env.tools(w.tick).count);
    }
  }

  lemma SomeResults(env: Env, w: World, n: nat)
    ensures var c := RunChecks(env, w, n, []);
            && c.w.task == w.task
            && (n == 0 ==> c == Checks(w, []))
            && (c.Checks? && n > 0 ==> c.results != [])
  {
    hide AnyFailed;
    NoneFailed();
    RunChecksExact(env, w, n, []);
  }

  lemma NoneFailed()
    ensures !AnyFailed([])
  {
  }

  /** The results are the replies: all of them, or up to and with the first that fails. */
  lemma ResultsAreReplies(env: Env, w: World, n: nat)
    requires RunChecks(env, w, n, []).Checks?
    ensures var all := RunChecks(env, w, n, []).results;
            && |all| <= n
            && AreReplies(env, w.tick, all)
            && (!AnyFailed(all) ==> |all| == n && GoesThrough(env, w.tick, w.tick + n))
            && (AnyFailed(all) ==> |all| > 0 && FailsAt(env, w.tick + |all| - 1)
                                   && GoesThrough(env, w.tick, w.tick + |all| - 1))
  {
    hide RunChecks, GoesThrough, AnyFailed, FailsAt;
    var all := RunChecks(env, w, n, []).results;
    NoneFailed();
    RunChecksExact(env, w, n, []);
    RepliesInOrder(env, w, n);
    if AnyFailed(all) {
      FailedLast(env, w.tick, all);
    } else {
      RepliesGoThrough(env, w.tick, all);
    }
  }

  /** These are the replies from one moment on. */
  predicate AreReplies(env: Env, from: nat, all: seq<CheckStatus>) {
    forall t :: from <= t < from + |all| ==> env.check(t) == Result(all[t - from])
  }

  lemma RepliesInOrder(env: Env, w: World, n: nat)
    requires RunChecks(env, w, n, []).Checks?
    ensures AreReplies(env, w.tick, RunChecks(env, w, n, []).results)
  {
    hide RunChecks;
    RunChecksByReplies(env, w, n, []);
  }

  lemma FailedLast(env: Env, from: nat, all: seq<CheckStatus>)
    requires AreReplies(env, from, all) && AnyFailed(all) && (all != [] ==> !AnyFailed(all[..|all| - 1]))
    ensures |all| > 0 && FailsAt(env, from + |all| - 1) && GoesThrough(env, from, from + |all| - 1)
  {
    hide GoesThrough;
    var n := |all| - 1;
    assert all == all[..n] + [all[n]];
    assert env.check(from + n) == Result(all[n]);
    assert AreReplies(env, from, all[..n]);
    RepliesGoThrough(env, from, all[..n]);
  }

  lemma NotFailed(all: seq<CheckStatus>, i: nat)
    requires i < |all| && !AnyFailed(all)
    ensures all[i] == Succeeded || all[i] == NeedsRemote
  {
    assert all[i] in all;
  }

  lemma RepliesGoThrough(env: Env, from: nat, all: seq<CheckStatus>)
    requires !AnyFailed(all) && AreReplies(env, from, all)
    ensures GoesThrough(env, from, from + |all|)
  {
    forall t | from <= t < from + |all|
      ensures env.check(t) == Result(Succeeded) || env.check(t) == Result(NeedsRemote)
    {
      NotFailed(all, t - from);
    }
  }

  /** The results of a stage that does not throw, against the replies. */
  lemma RepliesDecide(env: Env, w: World, n: nat)
    ensures var c := RunChecks(env, w, n, []);
            var to := w.tick + n;
            && (c.Checks? && !AnyFailed(c.results) && NeedsRemote !in c.results <==>
                  forall t :: w.tick <= t < to ==> env.check(t) == Result(Succeeded))
            && (c.Checks? && AnyFailed(c.results) <==>
                  exists t: nat :: w.tick <= t < to && FailsAt(env, t) && GoesThrough(env, w.tick, t))
            && (c.Checks? && !AnyFailed(c.results) && NeedsRemote in c.results <==>
                  GoesThrough(env, w.tick, to) && exists t :: w.tick <= t < to && env.check(t) == Result(NeedsRemote))
  {
    hide RunChecks, AnyFailed;
    var c, from, to := RunChecks(env, w, n, []), w.tick, w.tick + n;
    if c.Checks? {
      ResultsAreReplies(env, w, n);
      if AnyFailed(c.results) {
        FailureShown(env, from, to, from + |c.results| - 1);
      } else {
        RemoteShown(env, from, c.results);
      }
    } else {
      RunChecksByReplies(env, w, n, []);
    }
  }

  lemma FailureShown(env: Env, from: nat, to: nat, last: nat)
    requires from <= last < to && FailsAt(env, last) && GoesThrough(env, from, last)
    ensures !GoesThrough(env, from, to)
    ensures exists t: nat :: from <= t < to && FailsAt(env, t) && GoesThrough(env, from, t)
    ensures !forall t :: from <= t < to ==> env.check(t) == Result(Succeeded)
  {
  }

  lemma RemoteShown(env: Env, from: nat, all: seq<CheckStatus>)
    requires GoesThrough(env, from, from + |all|)
    requires AreReplies(env, from, all)
    ensures NeedsRemote in all <==> exists t :: from <= t < from + |all| && env.check(t) == Result(NeedsRemote)
    ensures NeedsRemote !in all <==> forall t :: from <= t < from + |all| ==> env.check(t) == Result(Succeeded)
  {
    if NeedsRemote in all {
      var i :| 0 <= i < |all| && all[i] == NeedsRemote;
      assert env.check(from + i) == Result(NeedsRemote);
    }
  }

  // ---------- the stored task, step by step ----------

  function Prefixed(entries: seq<Entry>, rest: Option<seq<Entry>>): Option<seq<Entry>> {
    if rest.Some? then Some(entries + rest.value) else None
  }

  lemma PrefixedStep(entries: seq<Entry>, rest: Option<seq<Entry>>)
    ensures Prefixed([], rest) == rest
    ensures forall e :: Prefixed(entries + [e], rest) == Prefixed(entries, Prefixed([e], rest))
  {
    if rest.Some? {
      assert [] + rest.value == rest.value;
      forall e ensures entries + [e] + rest.value == entries + ([e] + rest.value) {
      }
    }
  }

  /** The stored task and the workspace; exceptions are returned. */
  class CodingRuntime {
    const env: Env
    var task: Task
    var disk: Disk
    var tick: nat
    ghost var history: seq<Event>

    ghost function Now(): World
      reads this
    {
      World(task, disk, tick, history)
    }

    constructor (env: Env, task: Task, disk: Disk)
      ensures this.env == env && Now() == World(task, disk, 0, [])
    {
      this.env, this.task, this.disk := env, task, disk;
      tick, history := 0, [];
    }

    method TransitionCodingTask(phase: Phase) returns (fault: Option<Fault>)
      modifies this`task
      ensures Transition(old(task), phase) == if fault.None? then Some(task) else None
      ensures fault.Some? ==> task == old(task) && fault == Some(Guard)
    {
      if task.status != Active || (phase != task.phase && !Leads(task.phase, phase)) {
        return Some(Guard);
      }
      if phase != task.phase {
        task := task.(steps := task.steps + [phase]);
      }
      task := task.(phase := phase, status := if phase == Summarize then Completed else task.status);
      fault := None;
    }

    method CreateCodingCheckpoint(files: seq<Path>, requested: nat) returns (fault: Option<Fault>)
      modifies this`task, this`tick
      ensures Checkpoint(env, old(Now()), files, requested) ==
              if fault.None? then Went(Now()) else Threw(Now(), fault.value)
    {
      var limit, chosen := SnapshotLimit(requested), Bounded(files);
      var total: nat, i := 0, 0;
      var entries: seq<Entry> := [];
      assert chosen[i..] == chosen;
      PrefixedStep([], SnapshotFrom(disk, chosen, 0, limit));
      while i < |chosen|
        invariant i <= |chosen|
        invariant Now() == old(Now())
        invariant SnapshotFrom(disk, chosen, 0, limit) ==
                  Prefixed(entries, SnapshotFrom(disk, chosen[i..], total, limit))
      {
        assert chosen[i..][1..] == chosen[i + 1..];
        ghost var size := total + SizeAt(disk, chosen[i]);
        PrefixedStep(entries, SnapshotFrom(disk, chosen[i + 1..], size, limit));
        if chosen[i] !in disk {
          entries := entries + [Absent(chosen[i])];
        } else {
          total := total + |disk[chosen[i]]|;
          if total > limit {
            return Some(External);
          }
          entries := entries + [Existed(chosen[i], disk[chosen[i]])];
        }
        i := i + 1;
      }
      assert chosen[i..] == [] && entries + [] == entries;
      tick := tick + 1;
      if !env.write(tick - 1) {
        return Some(External);
      }
      task := task.(checkpoints := task.checkpoints + [entries]);
      fault := None;
    }

    method RollbackCodingCheckpoint() returns (fault: Option<Fault>)
      requires task.checkpoints != []
      modifies this`task, this`disk, this`tick
      ensures Rollback(env, old(Now())) == if fault.None? then Went(Now()) else Threw(Now(), fault.value)
    {
      var entries := task.checkpoints[|task.checkpoints| - 1];
      tick := tick + 1;
      if !env.snapshot(tick - 1) {
        return Some(External);
      }
      var i := 0;
      while i < |entries|
        invariant i <= |entries|
        invariant Restore(disk, entries[i..]) == Restore(old(disk), entries)
        invariant task == old(task) && tick == old(tick) + 1
      {
        assert entries[i..][1..] == entries[i + 1..];
        if entries[i].Absent? {
          disk := disk - {entries[i].path};
        } else {
          if entries[i].content == [] {
            return Some(ContentMissing);
          }
          disk := disk[entries[i].path := entries[i].content];
        }
        i := i + 1;
      }
      assert entries[i..] == [];
      task := task.(filesChanged := task.filesChanged - PathsOf(entries));
      fault := None;
    }

    method RecordCodexPatch(changed: set<Path>) returns (blocked: bool, fault: Option<Fault>)
      modifies this`task, this`tick
      ensures RecordPatch(env, old(Now()), changed) ==
              if fault.None? then Applied(Now(), blocked) else ApplyThrew(Now(), fault.value)
    {
      blocked := false;
      if task.phase == Inspect {
        fault := TransitionCodingTask(Patch);
        if fault.Some? {
          return;
        }
      }
      if task.phase != Patch && task.phase != Revise {
        fault := Some(Guard);
        return;
      }
      var verdict := env.policy(tick);
      tick := tick + 1;
      if verdict == PolicyFails {
        fault := Some(External);
        return;
      }
      blocked := verdict == Block;
      task := task.(filesChanged := task.filesChanged + changed, status := if blocked then Blocked else task.status);
      fault := None;
    }

    method EnterValidation(stage: Stage) returns (fault: Option<Fault>)
      modifies this`task
      ensures EnterStage(old(task), stage) == if fault.None? then Some(task) else None
      ensures fault.Some? ==> task == old(task) && fault == Some(Guard)
    {
      fault := None;
      if task.status != Active {
        return Some(Guard);
      }
      if task.phase != StagePhase(stage) {
        if stage == Targeted && task.phase != Inspect && task.phase != Patch && task.phase != Revise {
          return Some(Guard);
        }
        if stage == Full && task.phase != TargetedValidation {
          return Some(Guard);
        }
        fault := TransitionCodingTask(StagePhase(stage));
      }
    }

    method RunTools(count: nat) returns (results: seq<CheckStatus>, fault: Option<Fault>)
      modifies this`tick
      ensures RunChecks(env, old(Now()), count, []) ==
              if fault.None? then Checks(Now(), results) else ChecksThrew(Now())
      ensures fault.Some? ==> fault == Some(External)
    {
      results, fault := [], None;
      var i := 0;
      while i < count
        invariant i <= count
        invariant RunChecks(env, Now(), count - i, results) == RunChecks(env, old(Now()), count, [])
      {
        var answer := env.check(tick);
        tick := tick + 1;
        if answer.CheckThrows? {
          return [], Some(External);
        }
        results := results + [answer.status];
        i := i + 1;
        if answer.status == CheckFailed || answer.status == CheckBlocked {
          return;
        }
      }
    }

    method ConcludeValidation(stage: Stage, results: seq<CheckStatus>) returns (verdict: Verdict, fault: Option<Fault>)
      modifies this`task, this`history
      ensures Conclude(old(Now()), stage, results) ==
              if fault.None? then Validated(Now(), verdict) else ValidationThrew(Now(), fault.value)
    {
      verdict, fault := Failing, None;
      history := history + [Checked(stage, results)];
      if results == [] || AnyFailed(results) {
        fault := TransitionCodingTask(AnalyzeFailure);
      } else if NeedsRemote in results {
        verdict := RemoteRequired;
      } else {
        verdict := Passed;
        fault := TransitionCodingTask(if stage == Targeted then FullValidation else Summarize);
      }
    }

    method RunCodexValidationStage(stage: Stage) returns (verdict: Verdict, fault: Option<Fault>)
      modifies this`task, this`tick, this`history
      ensures Validate(env, old(Now()), stage) ==
              if fault.None? then Validated(Now(), verdict) else ValidationThrew(Now(), fault.value)
    {
      hide EnterStage, RunChecks, Conclude, Transition;
      verdict := Failing;
      fault := EnterValidation(stage);
      if fault.Some? {
        return;
      }
      var reply := env.tools(tick);
      tick := tick + 1;
      if reply.IndexFails? {
        return Failing, Some(External);
      }
      if reply.count == 0 {
        verdict, fault := ConcludeValidation(stage, []);
        return;
      }
      var results;
      results, fault := RunTools(reply.count);
      if fault.Some? {
        return;
      }
      verdict, fault := ConcludeValidation(stage, results);
    }

    method BeginCodingRevision() returns (fault: Option<Fault>)
      modifies this`task
      ensures BeginRevision(old(Now())) == if fault.None? then Went(Now()) else Threw(Now(), fault.value)
    {
      if task.phase != AnalyzeFailure {
        return Some(Guard);
      }
      fault := TransitionCodingTask(Revise);
    }

    method RecordRemoteValidationResult(passed: bool) returns (fault: Option<Fault>)
      modifies this`task
      ensures RecordRemoteResult(old(Now()), passed) == if fault.None? then Went(Now()) else Threw(Now(), fault.value)
    {
      if task.phase != FullValidation {
        return Some(Guard);
      }
      fault := TransitionCodingTask(if passed then Summarize else AnalyzeFailure);
    }

    method PrepareCodexExecution(files: seq<Path>) returns (fault: Option<Fault>)
      modifies this`task, this`tick
      ensures Prepare(env, old(Now()), files) == if fault.None? then Went(Now()) else Threw(Now(), fault.value)
    {
      fault := None;
      if task.phase == Understand {
        fault := TransitionCodingTask(Plan);
        if fault.Some? {
          return;
        }
      }
      if task.phase == Plan {
        fault := TransitionCodingTask(Inspect);
        if fault.Some? {
          return;
        }
      }
      if task.checkpoints == [] {
        fault := CreateCodingCheckpoint(files, 0);
      }
    }
  }
}
