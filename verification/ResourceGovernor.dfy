/**
 The command semaphore as its atomic steps: asking for a slot, giving one back, and the
 later resumption of a waiter that was woken. Any interleaving of the steps is a run.
 */
module ResourceGovernor {

  type Task = nat

  /** waiters have no slot; woken have been resolved but their continuation has not run yet. */
  datatype State = State(active: nat, waiters: seq<Task>, woken: seq<Task>, holders: multiset<Task>)

  const IDLE := State(0, [], [], multiset{})

  datatype Step = Acquire(task: Task) | Release(task: Task) | Resume(index: nat)

  predicate Enabled(s: State, e: Step) {
    match e
    case Acquire(_) => true
    case Release(task) => task in s.holders
    case Resume(i) => i < |s.woken|
  }

  /** A step that is not enabled leaves the state alone. */
  function Next(s: State, max: nat, e: Step): State {
    if !Enabled(s, e) then s else
    match e
    case Acquire(task) =>
      if s.active < max then s.(active := s.active + 1, holders := s.holders + multiset{task})
      else s.(waiters := s.waiters + [task])
    case Release(task) =>
      var released := s.(active := if s.active < 1 then 0 else s.active - 1, holders := s.holders - multiset{task});
      if s.waiters == [] then released
      else released.(waiters := s.waiters[1..], woken := s.woken + [s.waiters[0]])
    case Resume(i) =>
      s.(active := s.active + 1, woken := s.woken[..i] + s.woken[i + 1..], holders := s.holders + multiset{s.woken[i]})
  }

  /** The module-level counter and queue; woken continuations wait in the event loop. */
  class Governor {
    const max: nat
    var activeCommands: nat
    var waiters: seq<Task>
    var woken: seq<Task>
    ghost var holders: multiset<Task>

    ghost function Abs(): State
      reads this
    {
      State(activeCommands, waiters, woken, holders)
    }

    constructor (configured: int)
      ensures 1 <= max <= 4 && (1 <= configured <= 4 ==> max == configured) && Abs() == IDLE
    {
      max := if configured < 1 then 1 else if configured > 4 then 4 else configured;
      activeCommands, waiters, woken, holders := 0, [], [], multiset{};
    }

    method AcquireSlot(task: Task) returns (waits: bool)
      modifies this
      ensures Abs() == Next(old(Abs()), max, Acquire(task))
      ensures waits <==> old(activeCommands) >= max
    {
      if activeCommands < max {
        activeCommands := activeCommands + 1;
        holders := holders + multiset{task};
        return false;
      }
      waiters := waiters + [task];
      waits := true;
    }

    method ReleaseSlot(ghost task: Task)
      requires task in holders
      modifies this
      ensures Abs() == Next(old(Abs()), max, Release(task))
    {
      activeCommands := if activeCommands < 1 then 0 else activeCommands - 1;
      holders := holders - multiset{task};
      if waiters != [] {
        woken := woken + [waiters[0]];
        waiters := waiters[1..];
      }
    }

    /** The rest of acquireSlot, after its wait. */
    method ResumeWaiter(index: nat)
      requires index < |woken|
      modifies this
      ensures Abs() == Next(old(Abs()), max, Resume(index))
    {
      holders := holders + multiset{woken[index]};
      woken := woken[..index] + woken[index + 1..];
      activeCommands := activeCommands + 1;
    }
  }

  // ---------- runs ----------

  /** The slots in use and those promised to woken waiters. */
  function Committed(s: State): nat { s.active + |s.woken| }

  /** A fresh request is admitted directly although woken waiters have yet to take every slot left. */
  predicate Barges(s: State, max: nat, e: Step) {
    e.Acquire? && s.active < max <= Committed(s)
  }

  /** A state with what led to it: how often a request barged, who queued and who was woken, in order. */
  datatype Trace = Trace(s: State, barges: nat, queued: seq<Task>, wokenLog: seq<Task>)

  function Extend(t: Trace, max: nat, e: Step): Trace {
    Trace(Next(t.s, max, e),
          t.barges + (if Barges(t.s, max, e) then 1 else 0),
          t.queued + (if e.Acquire? && t.s.active >= max then [e.task] else []),
          t.wokenLog + (if e.Release? && Enabled(t.s, e) && t.s.waiters != [] then [t.s.waiters[0]] else []))
  }

  function Run(max: nat, es: seq<Step>): Trace {
    if es == [] then Trace(IDLE, 0, [], []) else Extend(Run(max, es[..|es| - 1]), max, es[|es| - 1])
  }

  /** The counter is the number of holders, no wake-up is lost, and the limit is passed only by barging. */
  predicate Sound(t: Trace, max: nat) {
    && t.s.active == |t.s.holders|
    && (t.s.waiters != [] ==> t.s.active + |t.s.woken| >= max)
    && t.s.active + |t.s.woken| <= max + t.barges
  }

  lemma ExtendSound(t: Trace, max: nat, e: Step)
    requires Sound(t, max)
    ensures Sound(Extend(t, max, e), max)
  {
    if e.Release? && e.task in t.s.holders {
      assert |t.s.holders - multiset{e.task}| == |t.s.holders| - 1;
    }
  }

  /**
   In every interleaving: the counter is the number of holders; nobody waits while a slot is
   free or on its way (no lost wake-up); and the slots in use or promised exceed the maximum
   by at most the number of requests that barged in front of a woken waiter.
   */
  lemma {:induction false} EveryInterleaving(max: nat, es: seq<Step>)
    ensures Sound(Run(max, es), max)
  {
    hide Extend;
    if es != [] {
      EveryInterleaving(max, es[..|es| - 1]);
      ExtendSound(Run(max, es[..|es| - 1]), max, es[|es| - 1]);
    }
  }

  lemma ExtendFifo(t: Trace, max: nat, e: Step)
    requires t.queued == t.wokenLog + t.s.waiters
    ensures var t' := Extend(t, max, e); t'.queued == t'.wokenLog + t'.s.waiters
  {
    if e.Release? && Enabled(t.s, e) && t.s.waiters != [] {
      assert t.wokenLog + t.s.waiters == t.wokenLog + [t.s.waiters[0]] + t.s.waiters[1..];
    }
  }

  /** Waiters are woken in the order they queued: those woken so far, then those still waiting, are all that queued. */
  lemma {:induction false} WokenFirstInFirstOut(max: nat, es: seq<Step>)
    ensures var t := Run(max, es); t.queued == t.wokenLog + t.s.waiters
  {
    hide Extend;
    if es != [] {
      WokenFirstInFirstOut(max, es[..|es| - 1]);
      ExtendFifo(Run(max, es[..|es| - 1]), max, es[|es| - 1]);
    }
  }

  /** Whoever waits is never stuck: some holder can release, or some woken waiter can resume. */
  lemma WaitersCanProgress(max: nat, es: seq<Step>)
    requires max >= 1 && Run(max, es).s.waiters != []
    ensures var s := Run(max, es).s;
      Enabled(s, Resume(0)) || exists task :: Enabled(s, Release(task))
  {
    EveryInterleaving(max, es);
    var s := Run(max, es).s;
    if s.woken == [] {
      assert |s.holders| >= 1;
      var task :| task in s.holders;
      assert Enabled(s, Release(task));
    }
  }

  // ---------- exactly when the limit can be passed ----------

  /** From within the limit, a step commits more than the maximum exactly when it barges. */
  lemma StepPassesIff(s: State, max: nat, e: Step)
    requires s.active == |s.holders| && Committed(s) <= max
    ensures Committed(Next(s, max, e)) > max <==> Barges(s, max, e)
  {
    if e.Release? && e.task in s.holders {
      assert |s.holders - multiset{e.task}| == |s.holders| - 1;
    }
  }

  function Resumes(n: nat): seq<Step> { seq(n, _ => Resume(0)) }

  /** The state once every woken waiter has resumed. */
  function Settled(max: nat, es: seq<Step>): State {
    Run(max, es + Resumes(|Run(max, es).s.woken|)).s
  }

  lemma {:induction false} ResumesCount(max: nat, es: seq<Step>, n: nat)
    requires n <= |Run(max, es).s.woken|
    ensures var s := Run(max, es + Resumes(n)).s;
      s.active == Run(max, es).s.active + n && |s.woken| == |Run(max, es).s.woken| - n
  {
    hide Run, Next;
    if n == 0 {
      assert es + Resumes(0) == es;
    } else {
      var longer := es + Resumes(n);
      ResumesCount(max, es, n - 1);
      assert longer[..|longer| - 1] == es + Resumes(n - 1) && longer[..|longer|] == longer;
      RunNext(max, longer, |longer| - 1);
      ResumeOne(Run(max, es + Resumes(n - 1)).s, max);
    }
  }

  lemma ResumeOne(s: State, max: nat)
    requires s.woken != []
    ensures var s' := Next(s, max, Resume(0)); s'.active == s.active + 1 && |s'.woken| == |s.woken| - 1
  {
  }

  /** Waiting for the woken makes the counter reach all that is committed. */
  lemma SettledReaches(max: nat, es: seq<Step>)
    ensures Settled(max, es).active == Committed(Run(max, es).s) && Settled(max, es).woken == []
  {
    ResumesCount(max, es, |Run(max, es).s.woken|);
  }

  /** At no point of the run would the counter pass the maximum once the woken have resumed. */
  predicate WithinLimit(max: nat, es: seq<Step>) {
    forall n :: 0 <= n <= |es| ==> Settled(max, es[..n]).active <= max
  }

  predicate NeverBarges(max: nat, es: seq<Step>) {
    forall i :: 0 <= i < |es| ==> !Barges(Run(max, es[..i]).s, max, es[i])
  }

  lemma RunNext(max: nat, es: seq<Step>, i: nat)
    requires i < |es|
    ensures Run(max, es[..i + 1]).s == Next(Run(max, es[..i]).s, max, es[i])
  {
    assert es[..i + 1][..i] == es[..i];
  }

  lemma {:induction false} CommittedWithin(max: nat, es: seq<Step>, n: nat)
    requires n <= |es| && NeverBarges(max, es)
    ensures Committed(Run(max, es[..n]).s) <= max
  {
    hide Next, Run, Barges;
    if n == 0 {
      NothingRun(max, es);
    } else {
      CommittedWithin(max, es, n - 1);
      EveryInterleaving(max, es[..n - 1]);
      RunNext(max, es, n - 1);
      StepPassesIff(Run(max, es[..n - 1]).s, max, es[n - 1]);
    }
  }

  lemma NothingRun(max: nat, es: seq<Step>)
    ensures es[..0] == [] && Run(max, es[..0]).s == IDLE
  {
  }

  /** The limit holds throughout a run, woken waiters included, exactly when no request barges. */
  lemma WithinLimitIff(max: nat, es: seq<Step>)
    ensures WithinLimit(max, es) <==> NeverBarges(max, es)
  {
    hide Next, Run, Settled, Barges, Committed;
    if NeverBarges(max, es) {
      forall n | 0 <= n <= |es| ensures Settled(max, es[..n]).active <= max {
        CommittedWithin(max, es, n);
        SettledReaches(max, es[..n]);
      }
    }
    if WithinLimit(max, es) {
      forall i | 0 <= i < |es| ensures !Barges(Run(max, es[..i]).s, max, es[i]) {
        SettledReaches(max, es[..i]);
        SettledReaches(max, es[..i + 1]);
        EveryInterleaving(max, es[..i]);
        RunNext(max, es, i);
        StepPassesIff(Run(max, es[..i]).s, max, es[i]);
        assert Settled(max, es[..i]).active <= max && Settled(max, es[..i + 1]).active <= max;
      }
    }
  }

  /** So the counter stays within the maximum in every run without barging. */
  lemma NoBargingKeepsLimit(max: nat, es: seq<Step>)
    requires Run(max, es).barges == 0
    ensures Run(max, es).s.active <= max
  {
    EveryInterleaving(max, es);
  }

  /** From any full state with someone waiting, one barging request makes the counter pass the maximum. */
  lemma OneBargeBreaksLimit(s: State, max: nat, leaving: Task, barging: Task)
    requires s.active == max >= 1 && s.waiters != [] && s.woken == [] && leaving in s.holders
    ensures var s1 := Next(s, max, Release(leaving));
      && Barges(s1, max, Acquire(barging))
      && var s2 := Next(s1, max, Acquire(barging));
         Enabled(s2, Resume(0)) && Next(s2, max, Resume(0)).active == max + 1
  {
  }

  /** As many requests as there are slots, from different callers. */
  function Fill(n: nat): seq<Step> { seq(n, i requires 0 <= i < n => Acquire(i)) }

  lemma {:induction false} FillRun(max: nat, n: nat)
    requires n <= max
    ensures var s := Run(max, Fill(n)).s;
      s.active == n && s.waiters == [] && s.woken == [] && (n > 0 ==> 0 in s.holders)
  {
    if n > 0 {
      FillRun(max, n - 1);
      assert Fill(n)[..n - 1] == Fill(n - 1);
    }
  }

  /** A run that passes the maximum, for every maximum: with all slots taken and one caller waiting,
      a slot is given back, a fresh request takes it, and then the woken caller resumes. */
  lemma BargingRunPassesLimit(max: nat)
    requires max >= 1
    ensures Run(max, Fill(max) + [Acquire(max), Release(0), Acquire(max + 1), Resume(0)]).s.active == max + 1
  {
    hide Fill, Run;
    FillRun(max, max);
    var es := Fill(max) + [Acquire(max), Release(0), Acquire(max + 1), Resume(0)];
    var n := |Fill(max)|;
    assert es[..n] == Fill(max) && es[..n + 4] == es;
    RunNext(max, es, n);
    RunNext(max, es, n + 1);
    RunNext(max, es, n + 2);
    RunNext(max, es, n + 3);
    OneBargeBreaksLimit(Run(max, es[..n + 1]).s, max, 0, max + 1);
  }
}
