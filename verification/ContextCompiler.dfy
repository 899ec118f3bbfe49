/**
 Fitting a work packet into a token budget: ten lists, in the order in which they may be
 reduced, are trimmed one last item at a time. What a packet costs is the caller's measure.
 */
module ContextCompiler {
  import opened Numbers

  type Item = string

  /** evidenceMap, verifiedFacts, procedures, relevantFiles, previousFailures, unknowns,
      contradictions, constraints, acceptanceCriteria, forbiddenActions, in this order. */
  datatype Packet = Packet(lists: seq<seq<Item>>)

  const LISTS := 10
  const SAFETY := 256

  predicate WellFormed(p: Packet) { |p.lists| == LISTS }

  /** verifiedFacts, acceptanceCriteria and forbiddenActions keep two items; the others may go. */
  function Minimum(i: nat): nat { if i == 1 || i == 8 || i == 9 then 2 else 0 }

  /** The largest number of items the compiler puts in each list. */
  function Cap(i: nat): nat {
    if i == 0 || i == 4 then 12
    else if i == 1 || i == 8 then 20
    else if i == 3 then 32
    else 16
  }

  predicate Reducible(p: Packet, i: nat)
    requires WellFormed(p) && i < LISTS
  {
    |p.lists[i]| > Minimum(i)
  }

  /** The first list that is above its minimum, or the number of lists. */
  function FirstReducible(p: Packet, i: nat := 0): (r: nat)
    requires WellFormed(p) && i <= LISTS
    ensures i <= r <= LISTS && (r < LISTS ==> Reducible(p, r))
    ensures forall j :: i <= j < r ==> !Reducible(p, j)
    decreases LISTS - i
  {
    if i == LISTS || Reducible(p, i) then i else FirstReducible(p, i + 1)
  }

  predicate Exhausted(p: Packet)
    requires WellFormed(p)
  {
    forall i :: 0 <= i < LISTS ==> !Reducible(p, i)
  }

  function DropLast(p: Packet, i: nat): (r: Packet)
    requires WellFormed(p) && i < LISTS && p.lists[i] != []
    ensures WellFormed(r)
  {
    Packet(p.lists[i := p.lists[i][..|p.lists[i]| - 1]])
  }

  /** The packet after one more trim. */
  function Next(p: Packet): (r: Packet)
    requires WellFormed(p)
    ensures WellFormed(r)
  {
    if FirstReducible(p) == LISTS then p else DropLast(p, FirstReducible(p))
  }

  /** The packet after n trims, each taking the last item of the first list above its minimum. */
  function Trimmed(p: Packet, n: nat): (r: Packet)
    requires WellFormed(p)
    ensures WellFormed(r)
  {
    if n == 0 then p else Next(Trimmed(p, n - 1))
  }

  lemma TrimmedStep(p: Packet, n: nat)
    requires WellFormed(p)
    ensures Trimmed(p, 0) == p
    ensures var q, i := Trimmed(p, n), FirstReducible(Trimmed(p, n));
      Trimmed(p, n + 1) == if i == LISTS then q else DropLast(q, i)
  {
  }

  /** How many items lie above the minimums, from list i on. */
  function Surplus(p: Packet, i: nat := 0): nat
    requires WellFormed(p) && i <= LISTS
    decreases LISTS - i
  {
    if i == LISTS then 0 else
      (if Reducible(p, i) then |p.lists[i]| - Minimum(i) else 0) + Surplus(p, i + 1)
  }

  lemma {:induction false} SurplusZero(p: Packet, i: nat)
    requires WellFormed(p) && i <= LISTS
    ensures Surplus(p, i) == 0 <==> forall j :: i <= j < LISTS ==> !Reducible(p, j)
    decreases LISTS - i
  {
    if i < LISTS {
      SurplusZero(p, i + 1);
    }
  }

  lemma {:induction false} SurplusDrops(p: Packet, k: nat, i: nat)
    requires WellFormed(p) && k < LISTS && Reducible(p, k) && i <= LISTS
    ensures Surplus(DropLast(p, k), i) == Surplus(p, i) - (if i <= k then 1 else 0)
    decreases LISTS - i
  {
    if i < LISTS {
      SurplusDrops(p, k, i + 1);
    }
  }

  lemma NextSurplus(p: Packet)
    requires WellFormed(p)
    ensures Surplus(Next(p)) == if Surplus(p) >= 1 then Surplus(p) - 1 else 0
  {
    hide DropLast, Surplus;
    SurplusZero(p, 0);
    if FirstReducible(p) < LISTS {
      SurplusDrops(p, FirstReducible(p), 0);
    }
  }

  /** Each trim takes one surplus item as long as there is one. */
  lemma {:induction false} TrimmedSurplus(p: Packet, n: nat)
    requires WellFormed(p)
    ensures Surplus(Trimmed(p, n)) == if Surplus(p) >= n then Surplus(p) - n else 0
  {
    hide Surplus, Next;
    if n > 0 {
      TrimmedSurplus(p, n - 1);
      NextSurplus(Trimmed(p, n - 1));
    }
  }

  predicate Prefixes(r: Packet, p: Packet) {
    WellFormed(p) && WellFormed(r) && forall i :: 0 <= i < LISTS ==> r.lists[i] <= p.lists[i]
  }

  /** A list lost an item only after every list before it was down to its minimum. */
  predicate InOrder(r: Packet, p: Packet)
    requires WellFormed(p) && WellFormed(r)
  {
    forall i, j :: 0 <= i < j < LISTS && |r.lists[j]| < |p.lists[j]| ==> !Reducible(r, i)
  }

  predicate KeepsMinimums(r: Packet, p: Packet)
    requires WellFormed(p) && WellFormed(r)
  {
    forall i :: 0 <= i < LISTS && |p.lists[i]| >= Minimum(i) ==> |r.lists[i]| >= Minimum(i)
  }

  lemma DropLastInOrder(p: Packet, q: Packet)
    requires Prefixes(q, p) && InOrder(q, p) && KeepsMinimums(q, p) && FirstReducible(q) < LISTS
    ensures var r := DropLast(q, FirstReducible(q)); Prefixes(r, p) && InOrder(r, p) && KeepsMinimums(r, p)
  {
    var k := FirstReducible(q);
    var r := DropLast(q, k);
    forall i | 0 <= i < LISTS ensures r.lists[i] <= p.lists[i] {
      assert r.lists[i] <= q.lists[i] <= p.lists[i];
    }
    forall i, j | 0 <= i < j < LISTS && |r.lists[j]| < |p.lists[j]| ensures !Reducible(r, i) {
      assert i < k ==> !Reducible(q, i);
      assert j != k ==> r.lists[j] == q.lists[j];
    }
  }

  lemma {:induction false} TrimmedInOrder(p: Packet, n: nat)
    requires WellFormed(p)
    ensures Prefixes(Trimmed(p, n), p) && InOrder(Trimmed(p, n), p) && KeepsMinimums(Trimmed(p, n), p)
  {
    hide FirstReducible, Prefixes, InOrder, KeepsMinimums;
    if n == 0 {
      NothingTrimmed(p);
    } else {
      TrimmedInOrder(p, n - 1);
      if FirstReducible(Trimmed(p, n - 1)) < LISTS {
        DropLastInOrder(p, Trimmed(p, n - 1));
      }
    }
  }

  lemma NothingTrimmed(p: Packet)
    requires WellFormed(p)
    ensures Prefixes(p, p) && InOrder(p, p) && KeepsMinimums(p, p)
  {
  }

  predicate Capped(p: Packet) {
    WellFormed(p) && forall i :: 0 <= i < LISTS ==> |p.lists[i]| <= Cap(i)
  }

  /** A packet within the compiler's caps never has more than 170 items to give, so 256 trims always suffice. */
  lemma CappedSurplus(p: Packet)
    requires Capped(p)
    ensures Surplus(p) <= 170 < SAFETY
  {
    SurplusStep(p, 0); SurplusStep(p, 1); SurplusStep(p, 2); SurplusStep(p, 3); SurplusStep(p, 4);
    SurplusStep(p, 5); SurplusStep(p, 6); SurplusStep(p, 7); SurplusStep(p, 8); SurplusStep(p, 9);
  }

  /** The bound is met by a packet that is as large as the compiler makes one. */
  lemma LargestSurplus(p: Packet)
    requires WellFormed(p)
    requires |p.lists[0]| == 12 && |p.lists[1]| == 20 && |p.lists[2]| == 16 && |p.lists[3]| == 32 && |p.lists[4]| == 12
    requires |p.lists[5]| == 16 && |p.lists[6]| == 16 && |p.lists[7]| == 16 && |p.lists[8]| == 20 && |p.lists[9]| == 16
    ensures Capped(p) && Surplus(p) == 170
  {
    hide Surplus, Reducible;
    SurplusNext(p, 0); SurplusNext(p, 1); SurplusNext(p, 2); SurplusNext(p, 3); SurplusNext(p, 4);
    SurplusNext(p, 5); SurplusNext(p, 6); SurplusNext(p, 7); SurplusNext(p, 8); SurplusNext(p, 9);
  }

  lemma SurplusNext(p: Packet, i: nat)
    requires WellFormed(p) && i < LISTS && |p.lists[i]| >= Minimum(i)
    ensures Surplus(p, i) == |p.lists[i]| - Minimum(i) + Surplus(p, i + 1) && Surplus(p, LISTS) == 0
  {
  }

  /** Nothing more can be trimmed once two verified facts, acceptance criteria and forbidden actions are
      left at most, and nothing else. */
  lemma ExhaustedIff(p: Packet)
    requires WellFormed(p)
    ensures Exhausted(p) <==>
            && |p.lists[1]| <= 2 && |p.lists[8]| <= 2 && |p.lists[9]| <= 2
            && p.lists[0] == p.lists[2] == p.lists[3] == p.lists[4] == p.lists[5] == p.lists[6] == p.lists[7] == []
  {
    if forall i :: 0 <= i < LISTS ==> !Reducible(p, i) {
      assert !Reducible(p, 0) && !Reducible(p, 1) && !Reducible(p, 2) && !Reducible(p, 3) && !Reducible(p, 4);
      assert !Reducible(p, 5) && !Reducible(p, 6) && !Reducible(p, 7) && !Reducible(p, 8) && !Reducible(p, 9);
    }
  }

  lemma SurplusStep(p: Packet, i: nat)
    requires Capped(p) && i < LISTS
    ensures Surplus(p, i) <= Cap(i) - Minimum(i) + Surplus(p, i + 1) && Surplus(p, LISTS) == 0
  {
  }

  /**
   The trimming loop. It stops at the first packet of the trimming chain that is within
   budget, or at the minimums; its step counter decides nothing unless there were more
   than 256 items to give.
   */
  method FitPacketToBudget(p: Packet, effectiveBudget: nat, count: Packet -> nat) returns (r: Packet)
    requires WellFormed(p)
    ensures Prefixes(r, p) && InOrder(r, p)
    ensures exists n: nat :: r == Trimmed(p, n) && forall k: nat :: k < n ==> count(Trimmed(p, k)) > effectiveBudget
    ensures Surplus(p) <= SAFETY ==> count(r) <= effectiveBudget || Exhausted(r)
    ensures Capped(p) ==> Capped(r) && (count(r) <= effectiveBudget || Exhausted(r))
    ensures Surplus(p) > SAFETY ==> count(r) <= effectiveBudget || Surplus(r) == Surplus(p) - SAFETY
  {
    hide Surplus, InOrder, Prefixes, Trimmed, DropLast, Capped;
    TrimmedStep(p, 0);
    r := p;
    var safety, steps := SAFETY, 0;
    while count(r) > effectiveBudget && safety > 0
      invariant 0 <= steps <= SAFETY && safety == SAFETY - steps && r == Trimmed(p, steps)
      invariant forall k: nat :: k < steps ==> count(Trimmed(p, k)) > effectiveBudget
      decreases safety
    {
      safety := safety - 1;
      var i := FirstReducible(r);
      if i == LISTS {
        TrimmedSurplus(p, steps);
        SurplusZero(r, 0);
        TrimmedInOrder(p, steps);
        FitOfCapped(p, r);
        return;
      }
      TrimmedStep(p, steps);
      r := DropLast(r, i);
      steps := steps + 1;
    }
    TrimmedSurplus(p, steps);
    SurplusZero(r, 0);
    TrimmedInOrder(p, steps);
    FitOfCapped(p, r);
  }

  /** Within the caps the step counter decides nothing, and trimming stays within them. */
  lemma FitOfCapped(p: Packet, r: Packet)
    requires Prefixes(r, p)
    ensures Capped(p) ==> Surplus(p) <= SAFETY && Capped(r)
  {
    if Capped(p) {
      CappedSurplus(p);
    }
  }

  /** The slices of the last resort, after the loop gave up: only texts are shortened from here on. */
  function LastResort(p: Packet): Packet
    requires WellFormed(p)
  {
    Packet(seq(LISTS, i requires 0 <= i < LISTS =>
      if i == 0 then []
      else if i == 3 then p.lists[i][..Min(4, |p.lists[i]|)]
      else p.lists[i][..Min(2, |p.lists[i]|)]))
  }

  /** Once every list is at its minimum, the last resort drops no item. */
  lemma LastResortDropsNothing(p: Packet)
    requires WellFormed(p) && Exhausted(p)
    ensures LastResort(p) == p
  {
    forall i | 0 <= i < LISTS ensures LastResort(p).lists[i] == p.lists[i] {
      assert !Reducible(p, i);
    }
    assert LastResort(p).lists == p.lists;
  }
}
