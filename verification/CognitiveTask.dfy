/**
 The cognitive task: its acceptance checks, its status and its budget of continuation cycles.
 Texts are normalised and compared by functions of the environment.
 */
module CognitiveTask {
  import opened Numbers
  import opened Wrappers

  /** How blanks are squeezed and letters lowered. */
  datatype Texts = Texts(squeeze: string -> string, lower: string -> string)
  {
    function Norm(s: string): string { Cut(squeeze(s), 8000) }

    function Key(s: string): string { Cut(lower(s), 500) }

    function CriterionKey(s: string): string { squeeze(lower(s)) }
  }

  function Cut(s: string, n: nat): string { s[..Min(|s|, n)] }

  /** Squeezing twice is squeezing once and adds nothing, and lowering letters adds no blanks. */
  ghost predicate Regular(t: Texts) {
    && (forall s :: t.squeeze(t.squeeze(s)) == t.squeeze(s) && |t.squeeze(s)| <= |s|)
    && (forall s :: t.squeeze(s) == s ==> t.squeeze(t.lower(s)) == t.lower(s))
  }

  /** The schema bounds the texts of a task. */
  predicate Short(values: seq<string>) { forall i :: 0 <= i < |values| ==> |values[i]| <= 8000 }

  // ---------- unique, bounded lists ----------

  predicate Seen(t: Texts, kept: seq<string>, key: string) {
    exists i :: 0 <= i < |kept| && t.Key(kept[i]) == key
  }

  /** The kept texts followed by the first occurrences among the values that are new to them. */
  function FirstOccurrences(t: Texts, kept: seq<string>, values: seq<string>): seq<string>
    decreases |values|
  {
    if values == [] then kept
    else
      var value := t.Norm(values[0]);
      FirstOccurrences(t, if value == "" || Seen(t, kept, t.Key(value)) then kept else kept + [value], values[1..])
  }

  function Take(values: seq<string>, n: nat): seq<string> { values[..Min(|values|, n)] }

  /** The first occurrences of the texts, at most as many as the limit but at least one. */
  function Unique(t: Texts, values: seq<string>, limit: nat): seq<string> {
    Take(FirstOccurrences(t, [], values), Max(1, limit))
  }

  lemma {:induction false} FirstOccurrencesExtend(t: Texts, kept: seq<string>, values: seq<string>)
    ensures kept <= FirstOccurrences(t, kept, values)
    decreases |values|
  {
    if values != [] {
      var value := t.Norm(values[0]);
      FirstOccurrencesExtend(t, if value == "" || Seen(t, kept, t.Key(value)) then kept else kept + [value], values[1..]);
    }
  }

  method UniqueBounded(t: Texts, values: seq<string>, limit: nat) returns (result: seq<string>)
    ensures result == Unique(t, values, limit)
  {
    hide FirstOccurrences;
    result := [];
    var seen: set<string> := {};
    var i := 0;
    assert values[0..] == values;
    while i < |values|
      invariant i <= |values| && |result| < Max(1, limit)
      invariant forall k :: k in seen <==> Seen(t, result, k)
      invariant FirstOccurrences(t, result, values[i..]) == FirstOccurrences(t, [], values)
    {
      var value := t.Norm(values[i]);
      FirstOccurrencesNext(t, result, values, i);
      if value != "" && t.Key(value) !in seen {
        seen := seen + {t.Key(value)};
        SeenNext(t, result, value);
        result := result + [value];
        if |result| >= limit {
          FirstOccurrencesExtend(t, result, values[i + 1..]);
          return;
        }
      }
      i := i + 1;
    }
    assert values[i..] == [];
    FirstOccurrencesNone(t, result);
  }

  lemma FirstOccurrencesNext(t: Texts, kept: seq<string>, values: seq<string>, i: nat)
    requires i < |values|
    ensures var value := t.Norm(values[i]);
            FirstOccurrences(t, kept, values[i..]) ==
            FirstOccurrences(t, if value == "" || Seen(t, kept, t.Key(value)) then kept else kept + [value],
                             values[i + 1..])
  {
    assert values[i..][0] == values[i] && values[i..][1..] == values[i + 1..];
  }

  lemma FirstOccurrencesNone(t: Texts, kept: seq<string>)
    ensures FirstOccurrences(t, kept, []) == kept
  {
  }

  lemma SeenNext(t: Texts, kept: seq<string>, value: string)
    ensures forall k :: Seen(t, kept + [value], k) <==> Seen(t, kept, k) || k == t.Key(value)
  {
    forall k ensures Seen(t, kept + [value], k) <==> Seen(t, kept, k) || k == t.Key(value) {
      assert (kept + [value])[|kept|] == value;
      if Seen(t, kept, k) {
        var i :| 0 <= i < |kept| && t.Key(kept[i]) == k;
        assert (kept + [value])[i] == kept[i];
      }
    }
  }

  ghost predicate DistinctKeys(t: Texts, kept: seq<string>) {
    forall i, j :: 0 <= i < j < |kept| ==> t.Key(kept[i]) != t.Key(kept[j])
  }

  ghost predicate IsNormal(t: Texts, s: string) {
    s != "" && |s| <= 8000 && t.squeeze(s) == s && t.Norm(s) == s
  }

  lemma NormIsNormal(t: Texts, s: string)
    requires Regular(t) && |s| <= 8000
    ensures t.Norm(s) != "" ==> IsNormal(t, t.Norm(s))
  {
    var v := t.squeeze(s);
    assert t.squeeze(v) == v && |v| <= |s|;
    assert Cut(v, 8000) == v;
  }

  ghost predicate Normal(t: Texts, kept: seq<string>) {
    forall i :: 0 <= i < |kept| ==> IsNormal(t, kept[i])
  }

  /** The kept texts are normal and their keys distinct, and every text that is not blank has its
      key among theirs. */
  lemma {:induction false} FirstOccurrencesExact(t: Texts, kept: seq<string>, values: seq<string>)
    requires Regular(t) && Short(values) && DistinctKeys(t, kept) && Normal(t, kept)
    ensures var all := FirstOccurrences(t, kept, values);
            && DistinctKeys(t, all) && Normal(t, all)
            && (forall k :: Seen(t, kept, k) ==> Seen(t, all, k))
            && (forall i :: 0 <= i < |values| && t.Norm(values[i]) != "" ==> Seen(t, all, t.Key(t.Norm(values[i]))))
    decreases |values|
  {
    if values != [] {
      hide Regular, IsNormal;
      var value := t.Norm(values[0]);
      NormIsNormal(t, values[0]);
      SeenNext(t, kept, value);
      var next := if value == "" || Seen(t, kept, t.Key(value)) then kept else kept + [value];
      FirstOccurrencesExact(t, next, values[1..]);
      assert forall i :: 0 < i < |values| ==> values[i] == values[1..][i - 1];
    }
  }

  /** Values whose keys are new and distinct are all kept as they are. */
  lemma {:induction false} FirstOccurrencesOfDistinct(t: Texts, kept: seq<string>, values: seq<string>)
    requires DistinctKeys(t, kept + values) && Normal(t, values)
    ensures FirstOccurrences(t, kept, values) == kept + values
    decreases |values|
  {
    if values == [] {
      assert kept + [] == kept;
    } else {
      var value := values[0];
      forall i | 0 <= i < |kept| ensures t.Key(kept[i]) != t.Key(value) {
        assert (kept + values)[i] == kept[i] && (kept + values)[|kept|] == value;
      }
      assert !Seen(t, kept, t.Key(value));
      assert kept + [value] + values[1..] == kept + values;
      FirstOccurrencesOfDistinct(t, kept + [value], values[1..]);
    }
  }

  lemma {:induction false} FirstOccurrencesConcat(t: Texts, kept: seq<string>, a: seq<string>, b: seq<string>)
    ensures FirstOccurrences(t, kept, a + b) == FirstOccurrences(t, FirstOccurrences(t, kept, a), b)
    decreases |a|
  {
    if a == [] {
      assert a + b == b;
    } else {
      var value := t.Norm(a[0]);
      assert (a + b)[0] == a[0] && (a + b)[1..] == a[1..] + b;
      FirstOccurrencesConcat(t, if value == "" || Seen(t, kept, t.Key(value)) then kept else kept + [value], a[1..], b);
    }
  }

  /** The list is bounded, its texts are normal with distinct keys, a list that did not reach its
      limit misses no text, and taking the list again changes nothing. */
  lemma UniqueExact(t: Texts, values: seq<string>, limit: nat)
    requires Regular(t) && Short(values)
    ensures var r := Unique(t, values, limit);
            && |r| <= Max(1, limit) && DistinctKeys(t, r) && Normal(t, r)
            && (|r| < Max(1, limit) ==>
                  forall i :: 0 <= i < |values| && t.Norm(values[i]) != "" ==> Seen(t, r, t.Key(t.Norm(values[i]))))
            && Unique(t, r, limit) == r
  {
    hide FirstOccurrences, Regular, IsNormal, Seen;
    var all := FirstOccurrences(t, [], values);
    var r := Unique(t, values, limit);
    NoKeys(t);
    FirstOccurrencesExact(t, [], values);
    TakeKeeps(t, all, Max(1, limit));
    assert [] + r == r;
    FirstOccurrencesOfDistinct(t, [], r);
    assert |r| < Max(1, limit) ==> r == all;
  }

  lemma NoKeys(t: Texts)
    ensures DistinctKeys(t, []) && Normal(t, [])
  {
  }

  lemma TakeKeeps(t: Texts, all: seq<string>, n: nat)
    requires DistinctKeys(t, all) && Normal(t, all)
    ensures DistinctKeys(t, Take(all, n)) && Normal(t, Take(all, n))
  {
    hide IsNormal;
  }

  /** The unique list of some texts stays in front when more texts follow them. */
  lemma UniqueKeepsPrefix(t: Texts, values: seq<string>, more: seq<string>, limit: nat)
    ensures Unique(t, values, limit) <= Unique(t, values + more, limit)
  {
    hide FirstOccurrences;
    FirstOccurrencesConcat(t, [], values, more);
    FirstOccurrencesExtend(t, FirstOccurrences(t, [], values), more);
  }

  // ---------- acceptance checks ----------

  datatype Kind = Implementation | ValidationCheck | Artifact | Response | General

  datatype CheckStatus = Pending | Passed | CheckFailed | CheckBlocked

  datatype Check = Check(criterion: string, kind: Kind, status: CheckStatus, required: bool)

  type Classifier = string -> Kind

  /** The last of the checks with this criterion. */
  function FindCheck(t: Texts, checks: seq<Check>, criterion: string): Option<Check> {
    if checks == [] then None
    else if t.CriterionKey(checks[|checks| - 1].criterion) == t.CriterionKey(criterion) then Some(checks[|checks| - 1])
    else FindCheck(t, checks[..|checks| - 1], criterion)
  }

  function CheckFor(t: Texts, kind: Classifier, existing: seq<Check>, criterion: string): Check {
    FindCheck(t, existing, criterion).GetOr(Check(criterion, kind(criterion), Pending, true))
  }

  /** A check for every criterion: the existing one, or a new one that is pending. */
  function MergeChecks(t: Texts, kind: Classifier, criteria: seq<string>, existing: seq<Check>): seq<Check> {
    var unique := Unique(t, criteria, 20);
    seq(|unique|, i requires 0 <= i < |unique| => CheckFor(t, kind, existing, unique[i]))
  }

  function Criteria(checks: seq<Check>): seq<string> {
    seq(|checks|, i requires 0 <= i < |checks| => checks[i].criterion)
  }

  /** The checks are those of the criteria, one each, in order. */
  ghost predicate Aligned(t: Texts, criteria: seq<string>, checks: seq<Check>) {
    Criteria(checks) == Unique(t, criteria, 20)
  }

  lemma {:induction false} FindCheckExact(t: Texts, checks: seq<Check>, i: nat)
    requires i < |checks|
    requires forall j :: i < j < |checks| ==> t.CriterionKey(checks[j].criterion) != t.CriterionKey(checks[i].criterion)
    ensures FindCheck(t, checks, checks[i].criterion) == Some(checks[i])
    decreases |checks|
  {
    if i < |checks| - 1 {
      FindCheckExact(t, checks[..|checks| - 1], i);
    }
  }

  lemma {:induction false} FindCheckCriterion(t: Texts, checks: seq<Check>, criterion: string)
    ensures FindCheck(t, checks, criterion).Some? ==>
              exists i :: 0 <= i < |checks| && FindCheck(t, checks, criterion) == Some(checks[i])
                          && t.CriterionKey(checks[i].criterion) == t.CriterionKey(criterion)
    decreases |checks|
  {
    if checks != [] {
      FindCheckCriterion(t, checks[..|checks| - 1], criterion);
    }
  }

  lemma DistinctCriterionKeys(t: Texts, kept: seq<string>, i: nat, j: nat)
    requires Regular(t) && DistinctKeys(t, kept) && Normal(t, kept) && i < |kept| && j < |kept| && i != j
    ensures t.CriterionKey(kept[i]) != t.CriterionKey(kept[j])
  {
    assert IsNormal(t, kept[i]) && IsNormal(t, kept[j]);
    if i < j {
      assert t.Key(kept[i]) != t.Key(kept[j]);
    } else {
      assert t.Key(kept[j]) != t.Key(kept[i]);
    }
  }

  lemma CheckForCriterion(t: Texts, kind: Classifier, existing: seq<Check>, criterion: string)
    ensures FindCheck(t, existing, criterion).None? ==>
              CheckFor(t, kind, existing, criterion) == Check(criterion, kind(criterion), Pending, true)
  {
  }

  /** Adding criteria loses no check: all existing ones come first, as they were, and those for new
      criteria are required and pending. */
  lemma MergeKeepsChecks(t: Texts, kind: Classifier, criteria: seq<string>, more: seq<string>, checks: seq<Check>)
    requires Regular(t) && Short(criteria) && Short(more) && Aligned(t, criteria, checks)
    ensures var all := Unique(t, criteria + more, 20);
            var merged := MergeChecks(t, kind, all, checks);
            && Aligned(t, all, merged)
            && checks <= merged
            && forall i :: |checks| <= i < |merged| ==> merged[i].status == Pending && merged[i].required
  {
    hide FirstOccurrences, Regular, Unique, IsNormal, FindCheck, CheckFor;
    UniqueExact(t, criteria, 20);
    UniqueExact(t, criteria + more, 20);
    UniqueKeepsPrefix(t, criteria, more, 20);
    var kept, all := Unique(t, criteria, 20), Unique(t, criteria + more, 20);
    var merged := MergeChecks(t, kind, all, checks);
    forall i | 0 <= i < |checks| ensures merged[i] == checks[i] {
      assert Criteria(checks)[i] == kept[i] == all[i];
      KeptCheckFound(t, kind, kept, checks, i);
    }
    forall i | |checks| <= i < |merged| ensures merged[i] == Check(all[i], kind(all[i]), Pending, true) {
      NewCheckMissing(t, kept, all, checks, i);
      CheckForCriterion(t, kind, checks, all[i]);
    }
    assert Criteria(merged) == all;
  }

  lemma KeptCheckFound(t: Texts, kind: Classifier, kept: seq<string>, checks: seq<Check>, i: nat)
    requires Regular(t) && DistinctKeys(t, kept) && Normal(t, kept) && Criteria(checks) == kept && i < |checks|
    ensures CheckFor(t, kind, checks, kept[i]) == checks[i]
  {
    hide Regular, IsNormal, FindCheck, DistinctKeys, Normal;
    assert Criteria(checks)[i] == kept[i];
    forall j | i < j < |checks| ensures t.CriterionKey(checks[j].criterion) != t.CriterionKey(checks[i].criterion) {
      assert Criteria(checks)[j] == kept[j];
      DistinctCriterionKeys(t, kept, i, j);
    }
    FindCheckExact(t, checks, i);
  }

  lemma NewCheckMissing(t: Texts, kept: seq<string>, all: seq<string>, checks: seq<Check>, i: nat)
    requires Regular(t) && DistinctKeys(t, all) && Normal(t, all) && kept <= all
    requires Criteria(checks) == kept && |kept| <= i < |all|
    ensures FindCheck(t, checks, all[i]) == None
  {
    hide Regular, IsNormal, FindCheck, DistinctKeys, Normal;
    FindCheckCriterion(t, checks, all[i]);
    if FindCheck(t, checks, all[i]).Some? {
      var j :| 0 <= j < |checks| && t.CriterionKey(checks[j].criterion) == t.CriterionKey(all[i]);
      assert Criteria(checks)[j] == kept[j] == all[j];
      DistinctCriterionKeys(t, all, j, i);
    }
  }

  // ---------- the task ----------

  datatype Status = Active | WaitingForUser | Completed | Failed | Cancelled

  datatype Capsule = Capsule(status: Status, criteria: seq<string>, checks: seq<Check>, cycle: nat, maxCycles: nat)

  /** What a new turn brings: its criteria, its cycle budget, and whether it waits for the user. */
  datatype Packet = Packet(criteria: seq<string>, maxCycles: nat, blocking: bool, waiting: bool)

  /** The schema of packets bounds the budget. */
  predicate ValidPacket(p: Packet) { 1 <= p.maxCycles <= 12 }

  datatype Prepared = Prepared(capsule: Capsule, displaced: Option<Capsule>)

  function NewCapsule(t: Texts, kind: Classifier, p: Packet): Capsule {
    Capsule(if p.waiting then WaitingForUser else Active, p.criteria, MergeChecks(t, kind, p.criteria, []), 0, p.maxCycles)
  }

  predicate Reuses(existing: Option<Capsule>, reuseActive: bool) {
    existing.Some? && (reuseActive || existing.value.status == WaitingForUser)
  }

  /** The session's open task goes on, or is cancelled for a new one. */
  function Prepare(t: Texts, kind: Classifier, existing: Option<Capsule>, p: Packet, reuseActive: bool): Prepared {
    if Reuses(existing, reuseActive) then
      var c := existing.value;
      var criteria := Unique(t, c.criteria + p.criteria, 20);
      Prepared(c.(status := if c.status == WaitingForUser && !p.blocking then Active else c.status,
                  criteria := criteria,
                  checks := MergeChecks(t, kind, criteria, c.checks),
                  maxCycles := Max(c.maxCycles, p.maxCycles)),
               None)
    else
      Prepared(NewCapsule(t, kind, p),
               if existing.Some? then Some(existing.value.(status := Cancelled)) else None)
  }

  function Update(c: Capsule, status: Option<Status>, checks: Option<seq<Check>>, incrementCycle: bool): Capsule {
    c.(status := status.GetOr(c.status), checks := checks.GetOr(c.checks),
       cycle := c.cycle + if incrementCycle then 1 else 0)
  }

  /** The attempt a continuation is queued as, or nothing when the budget is exhausted. */
  function ScheduledAttempt(c: Capsule): Option<nat> {
    if c.cycle + 1 > c.maxCycles then None else Some(c.cycle + 1)
  }

  /** The attempt a restarted process queues for an interrupted task. */
  function RecoveryAttempt(c: Capsule): nat { Min(Max(1, c.maxCycles), c.cycle + 1) }

  /** Which task a turn works on, and as what. The session's task goes on when the turn asks for that or
      the task waits for the user, and is active again unless the turn blocks; otherwise it is cancelled,
      if there is one, for a new task at cycle zero, which waits when the turn does. */
  lemma PrepareExact(t: Texts, kind: Classifier, existing: Option<Capsule>, p: Packet, reuseActive: bool)
    ensures var next := Prepare(t, kind, existing, p, reuseActive);
            if existing.Some? && (reuseActive || existing.value.status == WaitingForUser) then
              var c := existing.value;
              && next.displaced.None?
              && next.capsule.status == (if c.status == WaitingForUser && !p.blocking then Active else c.status)
              && next.capsule.criteria == Unique(t, c.criteria + p.criteria, 20)
              && next.capsule.cycle == c.cycle && next.capsule.maxCycles == Max(c.maxCycles, p.maxCycles)
            else
              && next.displaced == (if existing.Some? then Some(existing.value.(status := Cancelled)) else None)
              && next.capsule.status == (if p.waiting then WaitingForUser else Active)
              && next.capsule.criteria == p.criteria && next.capsule.cycle == 0 && next.capsule.maxCycles == p.maxCycles
  {
    hide Unique, MergeChecks;
  }

  /** A restart counts one more cycle, up to the budget and at least one; a continuation is queued as the
      next cycle exactly while the budget lasts. */
  lemma AttemptsExact(c: Capsule)
    ensures c.cycle < c.maxCycles ==> RecoveryAttempt(c) == c.cycle + 1 && ScheduledAttempt(c) == Some(c.cycle + 1)
    ensures c.cycle >= c.maxCycles ==>
              RecoveryAttempt(c) == (if c.maxCycles == 0 then 1 else c.maxCycles) && ScheduledAttempt(c) == None
  {
  }

  /** A new task has one pending check for each of its criteria. */
  lemma NewCapsuleAligned(t: Texts, kind: Classifier, p: Packet)
    ensures var c := NewCapsule(t, kind, p);
            && Aligned(t, c.criteria, c.checks)
            && forall i :: 0 <= i < |c.checks| ==> c.checks[i].status == Pending && c.checks[i].required
  {
    hide Unique;
    assert FindCheck(t, [], "") == None;
    var checks := NewCapsule(t, kind, p).checks;
    assert Criteria(checks) == Unique(t, p.criteria, 20);
  }

  /** Going on with a task loses none of its checks and none of its progress, only adds pending
      checks, leaves the cycle alone and never lowers the budget. */
  lemma PrepareKeepsProgress(t: Texts, kind: Classifier, c: Capsule, p: Packet, reuseActive: bool)
    requires Regular(t) && Short(c.criteria) && Short(p.criteria)
    requires Aligned(t, c.criteria, c.checks) && Reuses(Some(c), reuseActive)
    ensures var next := Prepare(t, kind, Some(c), p, reuseActive).capsule;
            && Aligned(t, next.criteria, next.checks) && Short(next.criteria)
            && c.checks <= next.checks
            && (forall i :: |c.checks| <= i < |next.checks| ==> next.checks[i].status == Pending && next.checks[i].required)
            && next.cycle == c.cycle && next.maxCycles >= c.maxCycles
            && (next.status == c.status || (c.status == WaitingForUser && next.status == Active))
  {
    hide Unique, MergeChecks, Aligned, Regular;
    MergeKeepsChecks(t, kind, c.criteria, p.criteria, c.checks);
    assert Short(c.criteria + p.criteria);
    UniqueShort(t, c.criteria + p.criteria);
  }

  lemma UniqueShort(t: Texts, values: seq<string>)
    requires Regular(t) && Short(values)
    ensures Short(Unique(t, values, 20))
  {
    hide Unique, Regular, DistinctKeys, Seen;
    UniqueExact(t, values, 20);
  }

  /** The stored task of a session and the attempts queued for it. */
  class CognitiveStore {
    var capsule: Option<Capsule>
    var attempts: seq<nat>

    constructor ()
      ensures capsule == None && attempts == []
    {
      capsule, attempts := None, [];
    }

    method PrepareCognitiveTask(t: Texts, kind: Classifier, p: Packet, reuseActive: bool)
      returns (prepared: Capsule, displaced: Option<Capsule>)
      modifies this
      ensures Prepared(prepared, displaced) == Prepare(t, kind, old(OpenTask()), p, reuseActive)
      ensures capsule == Some(prepared)
      ensures attempts == if Reuses(old(OpenTask()), reuseActive) then old(attempts) else []
    {
      hide Unique, MergeChecks;
      var existing := OpenTask();
      displaced := None;
      if Reuses(existing, reuseActive) {
        var c := existing.value;
        var criteria := UniqueBounded(t, c.criteria + p.criteria, 20);
        if c.status == WaitingForUser && !p.blocking {
          c := c.(status := Active);
        }
        prepared := c.(criteria := criteria, checks := MergeChecks(t, kind, criteria, c.checks),
                       maxCycles := Max(c.maxCycles, p.maxCycles));
        capsule := Some(prepared);
        return;
      }
      if existing.Some? {
        displaced := Some(existing.value.(status := Cancelled));
      }
      prepared := NewCapsule(t, kind, p);
      capsule, attempts := Some(prepared), [];
    }

    /** The task found for a session is one that is active or waiting. */
    function OpenTask(): Option<Capsule>
      reads this
    {
      if capsule.Some? && (capsule.value.status == Active || capsule.value.status == WaitingForUser)
      then capsule else None
    }

    method UpdateCognitiveTask(status: Option<Status>, checks: Option<seq<Check>>, incrementCycle: bool)
      returns (updated: Capsule)
      requires capsule.Some?
      modifies this`capsule
      ensures updated == Update(old(capsule).value, status, checks, incrementCycle) && capsule == Some(updated)
    {
      var c := capsule.value;
      if status.Some? {
        c := c.(status := status.value);
      }
      if checks.Some? {
        c := c.(checks := checks.value);
      }
      if incrementCycle {
        c := c.(cycle := c.cycle + 1);
      }
      capsule := Some(c);
      updated := c;
    }

    /** Queues a continuation for the given state of the task; false when its budget is exhausted. */
    method ScheduleCognitiveContinuation(c: Capsule) returns (scheduled: bool)
      requires capsule.Some?
      modifies this
      ensures scheduled <==> ScheduledAttempt(c).Some?
      ensures scheduled ==> attempts == old(attempts) + [ScheduledAttempt(c).value]
                            && capsule == Some(Update(old(capsule).value, None, None, true))
      ensures !scheduled ==> attempts == old(attempts) && capsule == old(capsule)
    {
      var nextAttempt := c.cycle + 1;
      if nextAttempt > c.maxCycles {
        return false;
      }
      attempts := attempts + [nextAttempt];
      var ignored := UpdateCognitiveTask(None, None, true);
      scheduled := true;
    }

    /** A restarted process queues a recovery cycle for the task. */
    method RecoverAfterRestart()
      requires capsule.Some?
      modifies this`capsule
      ensures capsule == Some(old(capsule).value.(cycle := RecoveryAttempt(old(capsule).value)))
    {
      var c := capsule.value;
      capsule := Some(c.(cycle := Min(Max(1, c.maxCycles), c.cycle + 1)));
    }
  }
}
