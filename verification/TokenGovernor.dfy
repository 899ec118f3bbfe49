/**
 The token governor around the ledger: an in-process map of budgets, a persisted row per
 budget, an hour's time to live for both, and a process that may lose the map at any time.
 Times are milliseconds and are arguments; one call reads the clock once.
 */
module TokenGovernor {
  import opened Numbers
  import opened TokenLedger
  import opened Wrappers

  const STATE_TTL_MS := 60 * 60 * 1000
  const COMPLETED_RETENTION_MS := 30 * 24 * 60 * 60 * 1000

  datatype Cached = Cached(ledger: Ledger, updatedAt: int)

  datatype Row = Row(ledger: Ledger, active: bool, expiresAt: int)

  datatype State = State(memory: map<string, Cached>, rows: map<string, Row>)

  function Cleanup(s: State, now: int): State {
    State(map id | id in s.memory && now - s.memory[id].updatedAt <= STATE_TTL_MS :: s.memory[id],
          map id | id in s.rows && s.rows[id].expiresAt > now :: s.rows[id])
  }

  function Persisted(s: State, id: string, l: Ledger, now: int): State {
    State(s.memory[id := Cached(l, now)], s.rows[id := Row(l, true, now + STATE_TTL_MS)])
  }

  /** The state after looking a budget up, and the ledger the lookup found, restored or created. */
  function StateFor(s0: State, plan: Plan, now: int): (State, Ledger)
  {
    var s, id := Cleanup(s0, now), plan.budgetId;
    if id in s.memory then
      var l := Raise(s.memory[id].ledger, plan);
      (s.(memory := s.memory[id := Cached(l, now)]), l)
    else if id in s.rows && s.rows[id].active then
      var l := Raise(s.rows[id].ledger, plan);
      (Persisted(s, id, l, now), l)
    else
      (Persisted(s, id, Fresh(plan), now), Fresh(plan))
  }

  ghost function Call(s0: State, plan: Plan, op: Op, now: int): (State, Answer)
  {
    var (s, l) := StateFor(s0, plan, now);
    var (l', answer) := Step(l, plan, op);
    if op.SnapshotOp? || (op.AuthorizeOp? && answer.a.Denied?) then (s, answer)
    else (Persisted(s, plan.budgetId, l', now), answer)
  }

  function Complete(s: State, id: string, now: int): State {
    State(s.memory - {id},
          if id !in s.rows then s.rows
          else s.rows[id := Row(s.rows[id].ledger.(reservations := map[]), false, now + COMPLETED_RETENTION_MS)])
  }

  /** The arithmetic of a settlement, in the order the fields change. */
  method SettleInPlace(found: Ledger, req: RequestId, actualTokens: real, attempted: bool, usageRejected: bool)
    returns (state: Ledger)
    ensures state == Settle(found, req, actualTokens, attempted, usageRejected)
  {
    var reserved := if req in found.reservations then found.reservations[req] else 0;
    state := found.(reservations := found.reservations - {req});
    if attempted {
      var reported := Max(0, Round(actualTokens));
      var plausibleCap := Max(Max(reserved + 2048, reserved * 2), 2500);
      var invalid := usageRejected || reported > plausibleCap;
      var actual := if invalid
                    then Min(Max(1, reserved), Max(0, state.limit - state.spent))
                    else Min(reported, plausibleCap);
      if invalid {
        state := state.(anomalies := state.anomalies + 1);
        if usageRejected {
          state := state.(invalidSamples := state.invalidSamples + 1);
        }
      }
      state := state.(spent := Min(state.limit, state.spent + actual), calls := state.calls + 1);
    }
  }

  /** The module-level maps of the process and the store, with the calls that change them. */
  class Governor {
    var governors: map<string, Cached>
    var rows: map<string, Row>

    function Abs(): State
      reads this
    {
      State(governors, rows)
    }

    constructor ()
      ensures Abs() == State(map[], map[])
    {
      governors, rows := map[], map[];
    }

    method CleanupStale(now: int)
      modifies this
      ensures Abs() == Cleanup(old(Abs()), now)
    {
      ghost var before := governors;
      var todo := governors.Keys;
      while todo != {}
        invariant todo <= before.Keys && rows == old(rows)
        invariant governors == map id | id in before && (id in todo || now - before[id].updatedAt <= STATE_TTL_MS) :: before[id]
        decreases |todo|
      {
        var id :| id in todo;
        if now - governors[id].updatedAt > STATE_TTL_MS {
          governors := governors - {id};
        }
        todo := todo - {id};
      }
      rows := map id | id in rows && rows[id].expiresAt > now :: rows[id];
    }

    method PersistState(id: string, state: Cached)
      modifies this`rows
      ensures rows == old(rows)[id := Row(state.ledger, true, state.updatedAt + STATE_TTL_MS)]
    {
      rows := rows[id := Row(state.ledger, true, state.updatedAt + STATE_TTL_MS)];
    }

    method LookUp(plan: Plan, now: int) returns (l: Ledger)
      modifies this
      ensures (Abs(), l) == StateFor(old(Abs()), plan, now)
      ensures plan.budgetId in governors && governors[plan.budgetId] == Cached(l, now)
    {
      CleanupStale(now);
      var id := plan.budgetId;
      if id in governors {
        l := Raise(governors[id].ledger, plan);
        governors := governors[id := Cached(l, now)];
        return;
      }
      if id in rows && rows[id].active {
        l := Raise(rows[id].ledger, plan);
      } else {
        l := Fresh(plan);
      }
      governors := governors[id := Cached(l, now)];
      PersistState(id, governors[id]);
    }

    method AuthorizeTokenSpend(plan: Plan, req: RequestId, estimatedTokens: real, mandatory: bool, now: int)
      returns (answer: Authorization)
      modifies this
      ensures (Abs(), Authorized(answer)) == Call(old(Abs()), plan, AuthorizeOp(req, estimatedTokens, mandatory), now)
    {
      hide StateFor, Raise, Cleanup;
      var state := LookUp(plan, now);
      LookUpIsRaised(old(Abs()), plan, now);
      var estimate := Max(1, Round(estimatedTokens));
      var reserved := ReservedTotal(state.reservations);
      var ceiling := if mandatory then state.limit else Max(0, state.limit - state.reserve);
      var remaining := Max(0, ceiling - state.spent - reserved);
      if estimate > remaining {
        return Denied(estimate, remaining);
      }
      state := state.(reservations := state.reservations[req := estimate]);
      governors := governors[plan.budgetId := Cached(state, now)];
      PersistState(plan.budgetId, governors[plan.budgetId]);
      answer := Granted(remaining - estimate);
    }

    method SettleTokenSpend(plan: Plan, req: RequestId, actualTokens: real, attempted: bool, usageRejected: bool, now: int)
      returns (snapshot: Snapshot)
      modifies this
      ensures (Abs(), Reports(snapshot)) == Call(old(Abs()), plan, SettleOp(req, actualTokens, attempted, usageRejected), now)
    {
      hide StateFor, Raise, Cleanup, Settle, SnapshotOf;
      var state := LookUp(plan, now);
      LookUpIsRaised(old(Abs()), plan, now);
      ghost var mid := Abs();
      SettleKeepsRaised(state, plan, req, actualTokens, attempted, usageRejected);
      state := SettleInPlace(state, req, actualTokens, attempted, usageRejected);
      governors := governors[plan.budgetId := Cached(state, now)];
      PersistState(plan.budgetId, governors[plan.budgetId]);
      assert Abs() == Persisted(mid, plan.budgetId, state, now);
      SnapshotAfterWrite(old(Abs()), plan, state, now);
      snapshot := TokenGovernorSnapshot(plan, now);
    }

    method TokenGovernorSnapshot(plan: Plan, now: int) returns (snapshot: Snapshot)
      modifies this
      ensures (Abs(), Reports(snapshot)) == Call(old(Abs()), plan, SnapshotOp, now)
    {
      var state := LookUp(plan, now);
      LookUpIsRaised(old(Abs()), plan, now);
      var reserved := ReservedTotal(state.reservations);
      snapshot := Snapshot(state.limit, state.reserve, state.spent, reserved,
                           Max(0, state.limit - state.spent - reserved),
                           state.calls, state.anomalies, state.invalidSamples);
    }

    method CompleteTokenBudget(budgetId: string, now: int)
      modifies this
      ensures Abs() == Complete(old(Abs()), budgetId, now)
    {
      if budgetId in rows {
        var row := rows[budgetId];
        rows := rows[budgetId := Row(row.ledger.(reservations := map[]), false, now + COMPLETED_RETENTION_MS)];
      }
      governors := governors - {budgetId};
    }
  }

  lemma SettleKeepsRaised(l: Ledger, plan: Plan, req: RequestId, actual: real, attempted: bool, usageRejected: bool)
    requires Raise(l, plan) == l
    ensures var l' := Settle(l, req, actual, attempted, usageRejected); Raise(l', plan) == l'
  {
  }

  lemma LookUpIsRaised(s: State, plan: Plan, now: int)
    ensures var l := StateFor(s, plan, now).1; Raise(l, plan) == l
  {
  }

  /** Reading a budget that was written in this same call, at the same instant, changes nothing. */
  lemma SnapshotAfterWrite(s0: State, plan: Plan, l: Ledger, now: int)
    requires Raise(l, plan) == l
    ensures var s := Persisted(StateFor(s0, plan, now).0, plan.budgetId, l, now);
      Call(s, plan, SnapshotOp, now) == (s, Reports(SnapshotOf(l)))
  {
    hide Cleanup, SnapshotOf;
    var s := Persisted(StateFor(s0, plan, now).0, plan.budgetId, l, now);
    NothingStale(s0, plan, l, now);
    assert s.memory[plan.budgetId := Cached(l, now)] == s.memory;
  }

  lemma NothingStale(s0: State, plan: Plan, l: Ledger, now: int)
    ensures var s := Persisted(StateFor(s0, plan, now).0, plan.budgetId, l, now); Cleanup(s, now) == s
  {
    hide Raise, Fresh;
    var s := Persisted(StateFor(s0, plan, now).0, plan.budgetId, l, now);
    assert Cleanup(s, now).memory == s.memory;
    assert Cleanup(s, now).rows == s.rows;
  }

  // ---------- runs with restarts ----------

  /** A call, a finished budget, or the loss of the in-process map. */
  datatype Event = Use(plan: Plan, op: Op, now: int) | Finish(budgetId: string, now: int) | Restart

  ghost function Apply(s: State, e: Event): State {
    match e
    case Use(plan, op, now) => Call(s, plan, op, now).0
    case Finish(id, now) => Complete(s, id, now)
    case Restart => s.(memory := map[])
  }

  ghost predicate Concerns(plan: Plan, e: Event) {
    e.Use? && e.plan.budgetId == plan.budgetId
  }

  /** The budget is used under one plan only and is not finished during the run. */
  ghost predicate OnePlan(plan: Plan, es: seq<Event>) {
    forall e :: e in es ==> (Concerns(plan, e) ==> e.plan == plan) && (e.Finish? ==> e.budgetId != plan.budgetId)
  }

  /** What the calls on one budget answer, with everything else interleaved. */
  ghost function Answers(s: State, plan: Plan, es: seq<Event>): seq<Answer>
    decreases |es|
  {
    if es == [] then [] else
      (if Concerns(plan, es[0]) then [Call(s, plan, es[0].op, es[0].now).1] else []) +
      Answers(Apply(s, es[0]), plan, es[1..])
  }

  /** The calls of a run on one budget, without times, restarts or other budgets. */
  ghost function Ops(plan: Plan, es: seq<Event>): seq<Op>
    decreases |es|
  {
    if es == [] then [] else (if Concerns(plan, es[0]) then [es[0].op] else []) + Ops(plan, es[1..])
  }

  ghost function LedgerAnswers(l: Ledger, plan: Plan, ops: seq<Op>): seq<Answer>
    decreases |ops|
  {
    if ops == [] then [] else
      [Step(l, plan, ops[0]).1] + LedgerAnswers(Step(l, plan, ops[0]).0, plan, ops[1..])
  }

  /** The map entry or the active persisted row is still within its time to live. */
  predicate Live(s: State, id: string, now: int) {
    || (id in s.memory && now - s.memory[id].updatedAt <= STATE_TTL_MS)
    || (id in s.rows && s.rows[id].active && s.rows[id].expiresAt > now)
  }

  /** Wherever the budget is recorded, ledger l is recorded. */
  ghost predicate Records(s: State, plan: Plan, l: Ledger) {
    && Raise(l, plan) == l
    && (plan.budgetId in s.memory ==> s.memory[plan.budgetId].ledger == l)
    && (plan.budgetId in s.rows && s.rows[plan.budgetId].active ==> s.rows[plan.budgetId].ledger == l)
  }

  /** At each use the budget is live, or nothing was ever booked on it. */
  ghost predicate NeverExpires(s: State, plan: Plan, l: Ledger, es: seq<Event>)
    decreases |es|
  {
    es != [] ==>
      if Concerns(plan, es[0])
      then (Live(s, plan.budgetId, es[0].now) || l == Fresh(plan))
           && NeverExpires(Apply(s, es[0]), plan, Step(l, plan, es[0].op).0, es[1..])
      else NeverExpires(Apply(s, es[0]), plan, l, es[1..])
  }

  /** One call on a live budget answers as the ledger does and records the ledger's next state. */
  lemma CallRefinesLedger(s: State, plan: Plan, l: Ledger, op: Op, now: int)
    requires Records(s, plan, l)
    requires Live(s, plan.budgetId, now) || l == Fresh(plan)
    ensures Call(s, plan, op, now).1 == Step(l, plan, op).1
    ensures Records(Call(s, plan, op, now).0, plan, Step(l, plan, op).0)
  {
    assert StateFor(s, plan, now).1 == l;
  }

  lemma OtherEventsKeepRecords(s: State, plan: Plan, l: Ledger, e: Event)
    requires Records(s, plan, l) && !Concerns(plan, e) && (e.Finish? ==> e.budgetId != plan.budgetId)
    ensures Records(Apply(s, e), plan, l)
  {
  }

  /**
   Restarts, other budgets and the passing of time are invisible: as long as no use finds
   the budget expired, its calls answer exactly as the bare ledger does.
   */
  lemma {:induction false} RestartsAreInvisible(s: State, plan: Plan, l: Ledger, es: seq<Event>)
    requires Records(s, plan, l) && OnePlan(plan, es) && NeverExpires(s, plan, l, es)
    ensures Answers(s, plan, es) == LedgerAnswers(l, plan, Ops(plan, es))
    decreases |es|
  {
    if es != [] {
      var e := es[0];
      assert e in es && forall x :: x in es[1..] ==> x in es;
      if Concerns(plan, e) {
        CallRefinesLedger(s, plan, l, e.op, e.now);
        RestartsAreInvisible(Apply(s, e), plan, Step(l, plan, e.op).0, es[1..]);
        assert ([e.op] + Ops(plan, es[1..]))[1..] == Ops(plan, es[1..]);
      } else {
        assert Ops(plan, es) == Ops(plan, es[1..]);
        OtherEventsKeepRecords(s, plan, l, e);
        RestartsAreInvisible(Apply(s, e), plan, l, es[1..]);
      }
    }
  }

  /** Two schedules that make the same calls on a budget get the same answers, wherever the restarts fall. */
  lemma SameCallsSameAnswers(s: State, plan: Plan, l: Ledger, es: seq<Event>, fs: seq<Event>)
    requires Records(s, plan, l) && OnePlan(plan, es) && OnePlan(plan, fs)
    requires NeverExpires(s, plan, l, es) && NeverExpires(s, plan, l, fs)
    requires Ops(plan, es) == Ops(plan, fs)
    ensures Answers(s, plan, es) == Answers(s, plan, fs)
  {
    RestartsAreInvisible(s, plan, l, es);
    RestartsAreInvisible(s, plan, l, fs);
  }

  // ---------- a condition on times alone ----------

  /** The clock never goes back from one use to the next. */
  predicate InOrder(clock: int, es: seq<Event>)
    decreases |es|
  {
    es != [] ==> if es[0].Use? then clock <= es[0].now && InOrder(es[0].now, es[1..]) else InOrder(clock, es[1..])
  }

  /** The uses that write a row whatever they find: settlements and granted authorizations. */
  ghost predicate Books(l: Ledger, plan: Plan, op: Op) {
    op.SettleOp? || (op.AuthorizeOp? && Step(l, plan, op).1.a.Granted?)
  }

  /** Each use of the budget comes within the hour of the last one that booked something, or of the
      very first use. */
  ghost predicate Punctual(plan: Plan, l: Ledger, last: Option<int>, es: seq<Event>)
    decreases |es|
  {
    es != [] ==>
      if !Concerns(plan, es[0]) then Punctual(plan, l, last, es[1..])
      else
        var op, now := es[0].op, es[0].now;
        && (last.Some? ==> now - last.value < STATE_TTL_MS)
        && Punctual(plan, Step(l, plan, op).0, if last.None? || Books(l, plan, op) then Some(now) else last, es[1..])
  }

  /** What the store holds of a budget last booked at a time; it may be gone once the hour is over. */
  predicate HeldSince(s: State, plan: Plan, last: Option<int>, clock: int) {
    if last.None? then plan.budgetId !in s.memory && !(plan.budgetId in s.rows && s.rows[plan.budgetId].active)
    else
      && last.value <= clock
      && (|| clock - last.value >= STATE_TTL_MS
          || (plan.budgetId in s.rows && s.rows[plan.budgetId].active
              && s.rows[plan.budgetId].expiresAt >= last.value + STATE_TTL_MS))
  }

  lemma UseHolds(s: State, plan: Plan, l: Ledger, last: Option<int>, op: Op, clock: int, now: int)
    requires Records(s, plan, l) && HeldSince(s, plan, last, clock) && clock <= now
    requires (last.None? ==> l == Fresh(plan)) && (last.Some? ==> now - last.value < STATE_TTL_MS)
    ensures Live(s, plan.budgetId, now) || l == Fresh(plan)
    ensures HeldSince(Call(s, plan, op, now).0, plan, if last.None? || Books(l, plan, op) then Some(now) else last, now)
  {
    hide Step;
    CallRefinesLedger(s, plan, l, op, now);
    assert StateFor(s, plan, now).1 == l;
  }

  lemma OthersHold(s: State, plan: Plan, last: Option<int>, e: Event, clock: int)
    requires HeldSince(s, plan, last, clock) && !Concerns(plan, e)
    requires (e.Finish? ==> e.budgetId != plan.budgetId) && (e.Use? ==> clock <= e.now)
    ensures HeldSince(Apply(s, e), plan, last, if e.Use? then e.now else clock)
  {
    hide Step, Raise;
  }

  /** Punctual uses never find the budget expired, whatever else happens between them. */
  lemma {:induction false} PunctualNeverExpires(s: State, plan: Plan, l: Ledger, last: Option<int>, clock: int,
                                                es: seq<Event>)
    requires Records(s, plan, l) && HeldSince(s, plan, last, clock) && (last.None? ==> l == Fresh(plan))
    requires OnePlan(plan, es) && InOrder(clock, es) && Punctual(plan, l, last, es)
    ensures NeverExpires(s, plan, l, es)
    decreases |es|
  {
    hide Records, HeldSince, Step, Books, Live, Call;
    if es != [] {
      var e := es[0];
      assert e in es && forall x :: x in es[1..] ==> x in es;
      if Concerns(plan, e) {
        UseHolds(s, plan, l, last, e.op, clock, e.now);
        CallRefinesLedger(s, plan, l, e.op, e.now);
        PunctualNeverExpires(Apply(s, e), plan, Step(l, plan, e.op).0,
                             if last.None? || Books(l, plan, e.op) then Some(e.now) else last, e.now, es[1..]);
      } else {
        OtherEventsKeepRecords(s, plan, l, e);
        OthersHold(s, plan, last, e, clock);
        PunctualNeverExpires(Apply(s, e), plan, l, last, if e.Use? then e.now else clock, es[1..]);
      }
    }
  }

  /** From an empty governor, punctual calls answer as the bare ledger does, wherever restarts fall. */
  lemma PunctualRunsAreLedgers(plan: Plan, clock: int, es: seq<Event>)
    requires OnePlan(plan, es) && InOrder(clock, es) && Punctual(plan, Fresh(plan), None, es)
    ensures Answers(State(map[], map[]), plan, es) == LedgerAnswers(Fresh(plan), plan, Ops(plan, es))
  {
    hide Step, Call, Answers, LedgerAnswers, Ops, NeverExpires, Punctual, InOrder;
    PunctualNeverExpires(State(map[], map[]), plan, Fresh(plan), None, clock, es);
    RestartsAreInvisible(State(map[], map[]), plan, Fresh(plan), es);
  }

  /** The condition is exact: a use that finds the budget expired sees an unspent one instead. */
  lemma ForgottenIffExpired(s: State, plan: Plan, l: Ledger, now: int)
    requires Records(s, plan, l)
    ensures Call(s, plan, SnapshotOp, now).1 == Reports(SnapshotOf(l))
            <==> Live(s, plan.budgetId, now) || SnapshotOf(l) == SnapshotOf(Fresh(plan))
  {
    if Live(s, plan.budgetId, now) {
      CallRefinesLedger(s, plan, l, SnapshotOp, now);
    } else {
      assert StateFor(s, plan, now).1 == Fresh(plan) && Raise(Fresh(plan), plan) == Fresh(plan);
    }
  }

  /** How long a booking is kept: a look at the budget shows it for an hour, to the last millisecond in the
      process that made it and up to the last one in another process; after that the budget is unspent. */
  lemma BookedForAnHour(s0: State, plan: Plan, op: Op, booked: int, now: int, restarted: bool)
    requires op.SettleOp?
    ensures var (s, answer) := Call(s0, plan, op, booked);
      var seen := Call(if restarted then Apply(s, Restart) else s, plan, SnapshotOp, now).1;
      seen == if now - booked < 3_600_000 || (now - booked == 3_600_000 && !restarted) then answer
              else Reports(SnapshotOf(Fresh(plan)))
  {
    hide Step, Raise, SnapshotOf;
    BookingRecorded(s0, plan, op, booked);
    var s := Call(s0, plan, op, booked).0;
    var later := if restarted then Apply(s, Restart) else s;
    var l := Step(StateFor(s0, plan, booked).1, plan, op).0;
    assert StateFor(later, plan, now).1 ==
      if now - booked < 3_600_000 || (now - booked == 3_600_000 && !restarted) then l else Fresh(plan) by
    {
      RaisedStays(l, plan);
    }
    LookReports(later, plan, now);
    SettleReports(s0, plan, op, booked);
  }

  lemma BookingRecorded(s0: State, plan: Plan, op: Op, booked: int)
    requires op.SettleOp?
    ensures var s, l := Call(s0, plan, op, booked).0, Step(StateFor(s0, plan, booked).1, plan, op).0;
      && plan.budgetId in s.memory && s.memory[plan.budgetId] == Cached(l, booked)
      && plan.budgetId in s.rows && s.rows[plan.budgetId] == Row(l, true, booked + 3_600_000)
      && Raise(l, plan) == l
  {
  }

  lemma RaisedStays(l: Ledger, plan: Plan)
    ensures Raise(Raise(l, plan), plan) == Raise(l, plan) && Raise(Fresh(plan), plan) == Fresh(plan)
  {
  }

  lemma LookReports(s: State, plan: Plan, now: int)
    ensures Call(s, plan, SnapshotOp, now).1 == Reports(SnapshotOf(StateFor(s, plan, now).1))
  {
    LookUpIsRaised(s, plan, now);
  }

  lemma SettleReports(s: State, plan: Plan, op: Op, now: int)
    requires op.SettleOp?
    ensures Call(s, plan, op, now).1 == Reports(SnapshotOf(Step(StateFor(s, plan, now).1, plan, op).0))
  {
  }

  /** A finished budget is unspent at the next look, and its row stays, marked finished and without
      reservations, for thirty days. */
  lemma FinishedIsForgotten(s: State, plan: Plan, finished: int, now: int)
    ensures Call(Complete(s, plan.budgetId, finished), plan, SnapshotOp, now).1 == Reports(SnapshotOf(Fresh(plan)))
    ensures plan.budgetId in s.rows ==>
              var rows := Complete(s, plan.budgetId, finished).rows;
              && rows[plan.budgetId] == Row(s.rows[plan.budgetId].ledger.(reservations := map[]), false, finished + 2_592_000_000)
              && (plan.budgetId in Cleanup(Complete(s, plan.budgetId, finished), now).rows <==>
                    now - finished < 2_592_000_000)
    ensures forall id :: id != plan.budgetId ==>
              && (id in Complete(s, plan.budgetId, finished).rows <==> id in s.rows)
              && (id in s.rows ==> Complete(s, plan.budgetId, finished).rows[id] == s.rows[id])
              && (id in Complete(s, plan.budgetId, finished).memory <==> id in s.memory)
              && (id in s.memory ==> Complete(s, plan.budgetId, finished).memory[id] == s.memory[id])
  {
    hide SnapshotOf;
    LookReports(Complete(s, plan.budgetId, finished), plan, now);
  }

  ghost predicate WithinLimits(s: State) {
    && (forall id :: id in s.memory ==> s.memory[id].ledger.spent <= s.memory[id].ledger.limit)
    && (forall id :: id in s.rows ==> s.rows[id].ledger.spent <= s.rows[id].ledger.limit)
  }

  lemma LookUpWithinLimits(s: State, plan: Plan, now: int)
    requires WithinLimits(s)
    ensures var (s', l) := StateFor(s, plan, now); WithinLimits(s') && l.spent <= l.limit
  {
  }

  /** No event, expiry and restarts included, ever leaves a budget spent past its limit. */
  lemma ApplyWithinLimits(s: State, e: Event)
    requires WithinLimits(s)
    ensures WithinLimits(Apply(s, e))
  {
    match e {
      case Use(plan, op, now) =>
        LookUpWithinLimits(s, plan, now);
        var (s1, l) := StateFor(s, plan, now);
        StepCommitted(l, plan, op);
        var l' := Step(l, plan, op).0;
        assert Call(s, plan, op, now).0 in {s1, Persisted(s1, plan.budgetId, l', now)};
      case Finish(_, _) =>
      case Restart =>
    }
  }
}
