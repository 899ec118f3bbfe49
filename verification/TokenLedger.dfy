/**
 The arithmetic of the token governor: one budget's reservations and charges,
 without the process cache, the persisted row or the clock (module TokenGovernor
 adds those and proves that they are invisible).
 */
module TokenLedger {
  import opened Numbers

  type RequestId = string

  datatype Plan = Plan(budgetId: string, totalTokens: nat, reserveTokens: nat)

  datatype Ledger = Ledger(
    limit: nat, reserve: nat, spent: nat, calls: nat, anomalies: nat, invalidSamples: nat,
    reservations: map<RequestId, nat>)

  datatype Authorization = Granted(remaining: nat) | Denied(need: nat, remaining: nat)

  datatype Snapshot = Snapshot(
    limit: nat, reserve: nat, spent: nat, reserved: nat, remaining: nat,
    calls: nat, anomalies: nat, invalidSamples: nat)

  /** JavaScript's Math.round: ties go up. */
  function Round(x: real): int { (x + 0.5).Floor }

  lemma RoundIsNearest(x: real)
    ensures Round(x) as real - 0.5 <= x < Round(x) as real + 0.5
  {
  }

  // ---------- sums of reservations ----------

  ghost function Total(m: map<RequestId, nat>): nat
  {
    if m == map[] then 0 else
      var k :| k in m;
      m[k] + Total(m - {k})
  }

  lemma {:induction false} TotalRemove(m: map<RequestId, nat>, k: RequestId)
    requires k in m
    ensures Total(m) == m[k] + Total(m - {k})
    decreases |m|
  {
    var j :| j in m && Total(m) == m[j] + Total(m - {j});
    if j != k {
      TotalRemove(m - {j}, k);
      TotalRemove(m - {k}, j);
      assert m - {j} - {k} == m - {k} - {j};
    }
  }

  /** Releasing a request takes exactly its own reservation off the total, and booking one puts it on. */
  lemma TotalUpdate(m: map<RequestId, nat>, k: RequestId, v: nat)
    ensures Total(m - {k}) == Total(m) - (if k in m then m[k] else 0)
    ensures Total(m[k := v]) == Total(m - {k}) + v
  {
    if k in m {
      TotalRemove(m, k);
    } else {
      assert m - {k} == m;
    }
    TotalRemove(m[k := v], k);
    assert m[k := v] - {k} == m - {k};
  }

  method ReservedTotal(m: map<RequestId, nat>) returns (sum: nat)
    ensures sum == Total(m)
  {
    sum := 0;
    var rest := m;
    while rest != map[]
      invariant sum + Total(rest) == Total(m)
      decreases |rest|
    {
      var k :| k in rest;
      TotalRemove(rest, k);
      sum := sum + rest[k];
      rest := rest - {k};
    }
  }

  // ---------- the operations ----------

  function Fresh(plan: Plan): Ledger {
    Ledger(plan.totalTokens, plan.reserveTokens, 0, 0, 0, 0, map[])
  }

  /** A later plan under the same budget may only raise the two ceilings. */
  function Raise(l: Ledger, plan: Plan): Ledger {
    l.(limit := Max(l.limit, plan.totalTokens), reserve := Max(l.reserve, plan.reserveTokens))
  }

  function Ceiling(l: Ledger, mandatory: bool): nat {
    if mandatory then l.limit else Max(0, l.limit - l.reserve)
  }

  function Estimate(estimated: real): nat { Max(1, Round(estimated)) }

  ghost function Remaining(l: Ledger, mandatory: bool): nat {
    Max(0, Ceiling(l, mandatory) - l.spent - Total(l.reservations))
  }

  ghost function Authorize(l: Ledger, req: RequestId, estimated: real, mandatory: bool): (Ledger, Authorization)
  {
    var need, left := Estimate(estimated), Remaining(l, mandatory);
    if need > left then (l, Denied(need, left))
    else (l.(reservations := l.reservations[req := need]), Granted(left - need))
  }

  function Reserved(l: Ledger, req: RequestId): nat {
    if req in l.reservations then l.reservations[req] else 0
  }

  function Reported(actual: real): nat { Max(0, Round(actual)) }

  function PlausibleCap(reserved: nat): nat { Max(Max(reserved + 2048, reserved * 2), 2500) }

  predicate Implausible(reserved: nat, actual: real, usageRejected: bool) {
    usageRejected || Reported(actual) > PlausibleCap(reserved)
  }

  /** The number of tokens an attempted call is charged. */
  function Charge(l: Ledger, req: RequestId, actual: real, usageRejected: bool): nat {
    var r := Reserved(l, req);
    if Implausible(r, actual, usageRejected)
    then Min(Max(1, r), Max(0, l.limit - l.spent))
    else Min(Reported(actual), PlausibleCap(r))
  }

  function Settle(l: Ledger, req: RequestId, actual: real, attempted: bool, usageRejected: bool): Ledger
  {
    var released := l.(reservations := l.reservations - {req});
    if !attempted then released else
      var bad := Implausible(Reserved(l, req), actual, usageRejected);
      released.(
        spent := Min(l.limit, l.spent + Charge(l, req, actual, usageRejected)),
        calls := l.calls + 1,
        anomalies := l.anomalies + (if bad then 1 else 0),
        invalidSamples := l.invalidSamples + (if bad && usageRejected then 1 else 0))
  }

  ghost function SnapshotOf(l: Ledger): Snapshot {
    var reserved := Total(l.reservations);
    Snapshot(l.limit, l.reserve, l.spent, reserved, Max(0, l.limit - l.spent - reserved),
             l.calls, l.anomalies, l.invalidSamples)
  }

  // ---------- runs ----------

  datatype Op =
    | AuthorizeOp(req: RequestId, estimated: real, mandatory: bool)
    | SettleOp(req: RequestId, actual: real, attempted: bool, usageRejected: bool)
    | SnapshotOp

  datatype Answer = Authorized(a: Authorization) | Reports(s: Snapshot)

  /** One call under a plan, after the plan has raised the ceilings. */
  ghost function Step(l0: Ledger, plan: Plan, op: Op): (Ledger, Answer)
  {
    var l := Raise(l0, plan);
    match op
    case AuthorizeOp(req, est, mandatory) =>
      var (l', a) := Authorize(l, req, est, mandatory);
      (l', Authorized(a))
    case SettleOp(req, actual, attempted, rejected) =>
      var l' := Settle(l, req, actual, attempted, rejected);
      (l', Reports(SnapshotOf(l')))
    case SnapshotOp => (l, Reports(SnapshotOf(l)))
  }

  ghost function Run(l: Ledger, ops: seq<(Plan, Op)>): Ledger
    decreases |ops|
  {
    if ops == [] then l else Step(Run(l, ops[..|ops| - 1]), ops[|ops| - 1].0, ops[|ops| - 1].1).0
  }

  /** By how much the charge of one call exceeds what that call had reserved. */
  function Overshoot(l: Ledger, op: Op): nat {
    if op.SettleOp? && op.attempted
    then Max(0, Charge(l, op.req, op.actual, op.usageRejected) - Reserved(l, op.req))
    else 0
  }

  ghost function TotalOvershoot(l: Ledger, ops: seq<(Plan, Op)>): nat
    decreases |ops|
  {
    if ops == [] then 0 else
      var front, (plan, op) := ops[..|ops| - 1], ops[|ops| - 1];
      TotalOvershoot(l, front) + Overshoot(Raise(Run(l, front), plan), op)
  }

  ghost function TotalCharged(l: Ledger, ops: seq<(Plan, Op)>): nat
    decreases |ops|
  {
    if ops == [] then 0 else
      var front, (plan, op) := ops[..|ops| - 1], ops[|ops| - 1];
      TotalCharged(l, front) +
      if op.SettleOp? && op.attempted
      then Charge(Raise(Run(l, front), plan), op.req, op.actual, op.usageRejected) else 0
  }

  /** A charge can pass its reservation r by at most max(2048, r, 2500 - r). */
  lemma OvershootBound(l: Ledger, op: Op)
    ensures op.SettleOp? ==>
      var r := Reserved(l, op.req);
      Overshoot(l, op) <= Max(2048, Max(r, 2500 - r))
    ensures op.SettleOp? && op.usageRejected ==> Overshoot(l, op) <= 1
  {
  }

  /** What one call does to the committed amount, spent plus reserved. */
  lemma StepCommitted(l0: Ledger, plan: Plan, op: Op)
    requires l0.spent <= l0.limit
    ensures var (l', answer) := Step(l0, plan, op);
      var l := Raise(l0, plan);
      && l'.spent <= l'.limit && l'.limit == l.limit && l'.reserve == l.reserve
      && (if op.AuthorizeOp? && answer.a.Granted?
          then l'.spent + Total(l'.reservations) <= Ceiling(l, op.mandatory)
          else l'.spent + Total(l'.reservations) <= l.spent + Total(l.reservations) + Overshoot(l, op))
  {
    var l := Raise(l0, plan);
    match op {
      case AuthorizeOp(req, est, _) => TotalUpdate(l.reservations, req, Estimate(est));
      case SettleOp(req, _, _, _) => TotalUpdate(l.reservations, req, 0);
      case SnapshotOp =>
    }
  }

  /**
   A call is granted exactly when its rounded estimate, of at least one token, fits under the
   limit next to everything spent and reserved, or under the limit less the reserve if it is
   optional; the answer then names what is left, and only the reservation is booked. A denied
   call changes nothing.
   */
  lemma GrantIffFits(l: Ledger, req: RequestId, estimated: real, mandatory: bool)
    ensures var (l', a) := Authorize(l, req, estimated, mandatory);
      var need, committed := Max(1, Round(estimated)), l.spent + Total(l.reservations);
      var ceiling := if mandatory then l.limit else Max(0, l.limit - l.reserve);
      && (a.Granted? <==> committed + need <= ceiling)
      && (a.Granted? ==>
            && l' == l.(reservations := l.reservations[req := need])
            && l'.spent + Total(l'.reservations) + a.remaining
               + (if req in l.reservations then l.reservations[req] else 0) == ceiling)
      && (a.Denied? ==> l' == l && a == Denied(need, Max(0, ceiling - committed)))
  {
    TotalUpdate(l.reservations, req, Estimate(estimated));
  }

  /**
   What a settlement charges. Usage that is believed is charged as reported: it is, unless it was
   rejected or is more than 2048 tokens above the reservation, more than twice it, and more than
   2500. Usage that is not believed costs the reservation, or one token if there is none, and counts
   as an anomaly. A call that was not attempted costs nothing. In every case exactly the request's
   own reservation is gone, and the spend stops at the limit.
   */
  lemma SettleExact(l: Ledger, req: RequestId, actual: real, attempted: bool, usageRejected: bool)
    requires l.spent <= l.limit
    ensures var r := if req in l.reservations then l.reservations[req] else 0;
      var reported := Max(0, Round(actual));
      var believed := !usageRejected && (reported <= r + 2048 || reported <= 2 * r || reported <= 2500);
      Settle(l, req, actual, attempted, usageRejected) ==
      Ledger(l.limit, l.reserve,
             if !attempted then l.spent
             else Min(l.limit, l.spent + if believed then reported else Max(1, r)),
             l.calls + (if attempted then 1 else 0),
             l.anomalies + (if attempted && !believed then 1 else 0),
             l.invalidSamples + (if attempted && usageRejected then 1 else 0),
             map k | k in l.reservations && k != req :: l.reservations[k])
  {
    assert l.reservations - {req} == map k | k in l.reservations && k != req :: l.reservations[k];
  }

  /**
   One call under a plan: the plan raises the two ceilings, never lowers them, and then the call
   itself is done; what is reported is the ledger as the call leaves it.
   */
  lemma StepExact(l: Ledger, plan: Plan, op: Op)
    ensures var (l', answer) := Step(l, plan, op);
      var raised := l.(limit := Max(l.limit, plan.totalTokens), reserve := Max(l.reserve, plan.reserveTokens));
      && (op.AuthorizeOp? ==>
            answer.Authorized? && (l', answer.a) == Authorize(raised, op.req, op.estimated, op.mandatory))
      && (op.SettleOp? ==> l' == Settle(raised, op.req, op.actual, op.attempted, op.usageRejected))
      && (op.SnapshotOp? ==> l' == raised)
      && (!op.AuthorizeOp? ==>
            answer == Reports(Snapshot(l'.limit, l'.reserve, l'.spent, Total(l'.reservations),
                                       Max(0, l'.limit - l'.spent - Total(l'.reservations)),
                                       l'.calls, l'.anomalies, l'.invalidSamples)))
  {
  }

  /**
   Over any run, under any plans: the spend never passes the limit, and spent plus
   reserved passes it by no more than the charges passed their reservations.
   */
  lemma {:induction false} RunWithinLimit(plan: Plan, ops: seq<(Plan, Op)>)
    ensures var l := Run(Fresh(plan), ops);
      && l.spent <= l.limit
      && l.spent + Total(l.reservations) <= l.limit + TotalOvershoot(Fresh(plan), ops)
    decreases |ops|
  {
    if ops != [] {
      var front, last := ops[..|ops| - 1], ops[|ops| - 1];
      RunWithinLimit(plan, front);
      StepCommitted(Run(Fresh(plan), front), last.0, last.1);
    }
  }

  /** How many settlements of attempted calls a run has. */
  function Attempted(ops: seq<(Plan, Op)>): nat {
    if ops == [] then 0
    else
      var op := ops[|ops| - 1].1;
      Attempted(ops[..|ops| - 1]) + if op.SettleOp? && op.attempted then 1 else 0
  }

  /** Every attempted call is counted once, every anomaly is one of them, and every rejected report is an
      anomaly. */
  lemma {:induction false} CountersExact(plan: Plan, ops: seq<(Plan, Op)>)
    ensures var l := Run(Fresh(plan), ops);
      l.invalidSamples <= l.anomalies <= l.calls == Attempted(ops)
    decreases |ops|
  {
    if ops != [] {
      CountersExact(plan, ops[..|ops| - 1]);
    }
  }

  ghost predicate FixedPlan(plan: Plan, ops: seq<(Plan, Op)>) {
    forall i :: 0 <= i < |ops| ==> ops[i].0 == plan
  }

  predicate OnlyOptional(ops: seq<(Plan, Op)>) {
    forall i :: 0 <= i < |ops| ==> ops[i].1.AuthorizeOp? ==> !ops[i].1.mandatory
  }

  lemma {:induction false} FixedPlanKeepsCeilings(plan: Plan, ops: seq<(Plan, Op)>)
    requires FixedPlan(plan, ops)
    ensures var l := Run(Fresh(plan), ops);
      l.limit == plan.totalTokens && l.reserve == plan.reserveTokens && Raise(l, plan) == l
    decreases |ops|
  {
    if ops != [] {
      FixedPlanKeepsCeilings(plan, ops[..|ops| - 1]);
    }
  }

  /** Under one plan nothing is lost or invented: the spend is the sum of the charges, cut at the limit. */
  lemma {:induction false} SpentIsChargedUpToLimit(plan: Plan, ops: seq<(Plan, Op)>)
    requires FixedPlan(plan, ops)
    ensures Run(Fresh(plan), ops).spent == Min(plan.totalTokens, TotalCharged(Fresh(plan), ops))
    decreases |ops|
  {
    if ops != [] {
      SpentIsChargedUpToLimit(plan, ops[..|ops| - 1]);
      FixedPlanKeepsCeilings(plan, ops[..|ops| - 1]);
    }
  }

  lemma {:induction false} OptionalRunLeavesReserve(plan: Plan, ops: seq<(Plan, Op)>)
    requires FixedPlan(plan, ops) && OnlyOptional(ops) && plan.reserveTokens <= plan.totalTokens
    ensures var l := Run(Fresh(plan), ops);
      l.spent + Total(l.reservations) <= plan.totalTokens - plan.reserveTokens + TotalOvershoot(Fresh(plan), ops)
    decreases |ops|
  {
    if ops != [] {
      var front, last := ops[..|ops| - 1], ops[|ops| - 1];
      OptionalRunLeavesReserve(plan, front);
      FixedPlanKeepsCeilings(plan, front);
      RunWithinLimit(plan, front);
      StepCommitted(Run(Fresh(plan), front), last.0, last.1);
    }
  }

  /**
   The point of the reserve: after any run of optional calls under one plan, a mandatory
   call is still granted whenever it asks for no more than the reserve less what charges
   overshot. Without overshoot that is the whole reserve.
   */
  lemma MandatoryCallStillGranted(plan: Plan, ops: seq<(Plan, Op)>, req: RequestId, estimated: real)
    requires FixedPlan(plan, ops) && OnlyOptional(ops) && plan.reserveTokens <= plan.totalTokens
    requires Estimate(estimated) + TotalOvershoot(Fresh(plan), ops) <= plan.reserveTokens
    ensures Step(Run(Fresh(plan), ops), plan, AuthorizeOp(req, estimated, true)).1.a.Granted?
  {
    OptionalRunLeavesReserve(plan, ops);
    FixedPlanKeepsCeilings(plan, ops);
  }
}
