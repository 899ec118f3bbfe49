/**
 The runtime cache: a map in insertion order with a time to live per record, dependency
 revisions, and two limits that eviction restores. Times are milliseconds and are passed in.
 */
module RuntimeCache {
  import opened Numbers
  import opened Wrappers

  type Key = string

  /** Cached values are opaque to the cache. */
  type Value = string

  type Revisions = map<string, string>

  /** The stored value is None where the source stores `undefined`. */
  datatype Record = Record(
    key: Key, value: Option<Value>, expiresAt: int, hits: nat, bytes: nat, revisions: Revisions)

  const DAY_MS := 24 * 60 * 60 * 1000

  function Clamp(x: int, lo: int, hi: int): int {
    if x < lo then lo else if x > hi then hi else x
  }

  /** The time to live a caller's option gives: absent and 0 mean a minute. */
  function TtlMs(option: Option<int>): (ttl: int)
    ensures 1000 <= ttl <= DAY_MS
  {
    Clamp(if option.None? || option.value == 0 then 60000 else option.value, 1000, DAY_MS)
  }

  function Revision(r: Revisions, name: string): string { if name in r then r[name] else "" }

  /** Revisions match when they agree on every name either of them gives, absent meaning empty. */
  predicate RevisionsMatch(expected: Revisions, actual: Revisions) {
    forall name :: name in expected.Keys + actual.Keys ==> Revision(expected, name) == Revision(actual, name)
  }

  // ---------- the records ----------

  function IndexOf(rs: seq<Record>, key: Key): (r: Option<nat>)
    ensures r.None? ==> forall i :: 0 <= i < |rs| ==> rs[i].key != key
    ensures r.Some? ==> r.value < |rs| && rs[r.value].key == key
  {
    if rs == [] then None
    else if rs[0].key == key then Some(0)
    else
      var rest := IndexOf(rs[1..], key);
      if rest.None? then assert forall i :: 1 <= i < |rs| ==> rs[i] == rs[1..][i - 1]; None else Some(rest.value + 1)
  }

  function Without(rs: seq<Record>, i: nat): seq<Record>
    requires i < |rs|
  {
    rs[..i] + rs[i + 1..]
  }

  function Bytes(rs: seq<Record>): nat {
    if rs == [] then 0 else Bytes(rs[..|rs| - 1]) + rs[|rs| - 1].bytes
  }

  predicate Distinct(rs: seq<Record>) {
    forall i, j :: 0 <= i < j < |rs| ==> rs[i].key != rs[j].key
  }

  lemma {:induction false} BytesSplit(a: seq<Record>, b: seq<Record>)
    ensures Bytes(a + b) == Bytes(a) + Bytes(b)
  {
    if b == [] {
      assert a + b == a;
    } else {
      assert (a + b)[..|a + b| - 1] == a + b[..|b| - 1];
      BytesSplit(a, b[..|b| - 1]);
    }
  }

  lemma BytesWithout(rs: seq<Record>, i: nat)
    requires i < |rs|
    ensures Bytes(Without(rs, i)) == Bytes(rs) - rs[i].bytes
  {
    hide Bytes;
    BytesSplit(rs[..i], rs[i + 1..]);
    BytesOne(rs, i);
    BytesSplit(rs[..i + 1], rs[i + 1..]);
    assert rs[..i + 1] + rs[i + 1..] == rs;
  }

  lemma BytesOne(rs: seq<Record>, i: nat)
    requires i < |rs|
    ensures Bytes(rs[..i + 1]) == Bytes(rs[..i]) + rs[i].bytes
  {
    assert rs[..i + 1][..i] == rs[..i];
  }

  // ---------- eviction ----------

  function Unexpired(rs: seq<Record>, now: int): seq<Record> {
    if rs == [] then [] else
      Unexpired(rs[..|rs| - 1], now) + if rs[|rs| - 1].expiresAt > now then [rs[|rs| - 1]] else []
  }

  lemma {:induction false} UnexpiredExact(rs: seq<Record>, now: int)
    ensures var live := Unexpired(rs, now);
      && (forall r :: r in live <==> r in rs && r.expiresAt > now)
      && (Distinct(rs) ==> Distinct(live))
  {
    if rs != [] {
      var front, last := rs[..|rs| - 1], rs[|rs| - 1];
      UnexpiredExact(front, now);
      assert forall r :: r in rs <==> r in front || r == last;
      if last.expiresAt > now && Distinct(rs) {
        AppendDistinct(Unexpired(front, now), last);
      }
    }
  }

  predicate Fits(rs: seq<Record>, maxEntries: nat, maxBytes: nat) {
    |rs| <= maxEntries && Bytes(rs) <= maxBytes
  }

  /** Eviction stops at limits, at nothing left, and (a quirk) at a record whose key is empty. */
  predicate StopsAt(rs: seq<Record>, maxEntries: nat, maxBytes: nat) {
    Fits(rs, maxEntries, maxBytes) || rs == [] || rs[0].key == ""
  }

  /** How many of the oldest records eviction drops. */
  function Excess(rs: seq<Record>, maxEntries: nat, maxBytes: nat): (n: nat)
    ensures n <= |rs|
  {
    if StopsAt(rs, maxEntries, maxBytes) then 0 else 1 + Excess(rs[1..], maxEntries, maxBytes)
  }

  /** Eviction drops the shortest oldest prefix after which it may stop. */
  lemma {:induction false} ExcessShortest(rs: seq<Record>, maxEntries: nat, maxBytes: nat)
    ensures var n := Excess(rs, maxEntries, maxBytes);
      && StopsAt(rs[n..], maxEntries, maxBytes)
      && forall k :: 0 <= k < n ==> !StopsAt(rs[k..], maxEntries, maxBytes)
  {
    var n := Excess(rs, maxEntries, maxBytes);
    assert rs[0..] == rs;
    if n > 0 {
      ExcessShortest(rs[1..], maxEntries, maxBytes);
      assert rs[1..][n - 1..] == rs[n..];
      forall k | 1 <= k < n ensures !StopsAt(rs[k..], maxEntries, maxBytes) {
        assert rs[1..][k - 1..] == rs[k..];
      }
    }
  }

  /** Expired records go first, then the shortest oldest prefix. */
  function Evicted(rs: seq<Record>, maxEntries: nat, maxBytes: nat, now: int): seq<Record> {
    var live := Unexpired(rs, now);
    live[Excess(live, maxEntries, maxBytes)..]
  }

  // ---------- the operations ----------

  datatype Limits = Limits(maxEntries: nat, maxBytes: nat)

  datatype State = State(records: seq<Record>, hits: nat, misses: nat, evictions: nat)

  function Delete(s: State, key: Key): State {
    var i := IndexOf(s.records, key);
    if i.None? then s else s.(records := Without(s.records, i.value))
  }

  predicate Fresh(r: Record, revisions: Revisions, now: int) {
    r.expiresAt > now && RevisionsMatch(r.revisions, revisions)
  }

  /** A hit moves its record to the youngest end; a stale record is deleted and counts as a miss. */
  function Get(s: State, key: Key, revisions: Revisions, now: int): (State, Option<Value>) {
    var i := IndexOf(s.records, key);
    if i.None? then (s.(misses := s.misses + 1), None)
    else
      var r := s.records[i.value];
      if !Fresh(r, revisions, now) then (Delete(s, key).(misses := s.misses + 1), None)
      else (s.(records := Without(s.records, i.value) + [r.(hits := r.hits + 1)], hits := s.hits + 1), r.value)
  }

  function Set(s: State, lim: Limits, r: Record, now: int): State {
    if r.bytes > lim.maxBytes then s else
      var records := Delete(s, r.key).records + [r];
      var live := Unexpired(records, now);
      s.(records := Evicted(records, lim.maxEntries, lim.maxBytes, now),
         evictions := s.evictions + Excess(live, lim.maxEntries, lim.maxBytes))
  }

  function NewRecord(key: Key, value: Option<Value>, ttl: Option<int>, revisions: Revisions, bytes: nat, now: int): Record {
    Record(key, value, now + TtlMs(ttl), 0, bytes, revisions)
  }

  function Outside(rs: seq<Record>, prefix: Key): seq<Record> {
    if rs == [] then [] else
      Outside(rs[..|rs| - 1], prefix) + if prefix <= rs[|rs| - 1].key then [] else [rs[|rs| - 1]]
  }

  lemma {:induction false} OutsideExact(rs: seq<Record>, prefix: Key)
    ensures var kept := Outside(rs, prefix);
      && (forall r :: r in kept <==> r in rs && !(prefix <= r.key))
      && (Distinct(rs) ==> Distinct(kept))
  {
    hide Bytes;
    if rs != [] {
      var front, last := rs[..|rs| - 1], rs[|rs| - 1];
      OutsideExact(front, prefix);
      assert forall r :: r in rs <==> r in front || r == last;
      if !(prefix <= last.key) && Distinct(rs) {
        AppendDistinct(Outside(front, prefix), last);
      }
    }
  }

  lemma {:induction false} OutsideNoLarger(rs: seq<Record>, prefix: Key)
    ensures |Outside(rs, prefix)| <= |rs| && Bytes(Outside(rs, prefix)) <= Bytes(rs)
  {
    if rs != [] {
      var kept := Outside(rs[..|rs| - 1], prefix);
      OutsideNoLarger(rs[..|rs| - 1], prefix);
      AppendBytes(kept, rs[|rs| - 1]);
      assert kept + [] == kept;
    }
  }

  lemma AppendBytes(rs: seq<Record>, r: Record)
    ensures Bytes(rs + [r]) == Bytes(rs) + r.bytes
  {
    assert (rs + [r])[..|rs|] == rs;
  }

  /** The source's remember: a lookup, and on a miss the producer's value, stored if it is small enough. */
  function Remember(s: State, lim: Limits, r: Record, now: int): (State, Option<Value>) {
    var (s1, cached) := Get(s, r.key, r.revisions, now);
    if cached.Some? then (s1, cached) else (Set(s1, lim, r, now), r.value)
  }

  // ---------- runs ----------

  datatype Op =
    | GetOp(key: Key, revisions: Revisions, now: int)
    | SetOp(r: Record, setAt: int)
    | DeleteOp(key: Key)
    | InvalidateOp(prefix: Key)
    | ClearOp

  function Apply(s: State, lim: Limits, op: Op): State {
    match op
    case GetOp(key, revisions, now) => Get(s, key, revisions, now).0
    case SetOp(r, now) => Set(s, lim, r, now)
    case DeleteOp(key) => Delete(s, key)
    case InvalidateOp(prefix) => s.(records := Outside(s.records, prefix))
    case ClearOp => s.(records := [])
  }

  function Run(lim: Limits, ops: seq<Op>): State {
    if ops == [] then State([], 0, 0, 0) else Apply(Run(lim, ops[..|ops| - 1]), lim, ops[|ops| - 1])
  }

  /** The record the cache should answer for a key: the latest set that was not oversized, unless removed since. */
  function Latest(lim: Limits, ops: seq<Op>, key: Key): Option<Record> {
    if ops == [] then None else
      var before := Latest(lim, ops[..|ops| - 1], key);
      match ops[|ops| - 1]
      case GetOp(_, _, _) => before
      case SetOp(r, _) => if r.key == key && r.bytes <= lim.maxBytes then Some(r) else before
      case DeleteOp(k) => if k == key then None else before
      case InvalidateOp(prefix) => if prefix <= key then None else before
      case ClearOp => None
  }

  predicate SameButHits(r: Record, original: Record) {
    r == original.(hits := r.hits)
  }

  predicate Traces(s: State, lim: Limits, ops: seq<Op>) {
    forall r :: r in s.records ==> Latest(lim, ops, r.key).Some? && SameButHits(r, Latest(lim, ops, r.key).value)
  }

  lemma InWithout(rs: seq<Record>, i: nat)
    requires i < |rs|
    ensures forall r :: r in Without(rs, i) ==> r in rs
    ensures Distinct(rs) ==> Distinct(Without(rs, i)) && forall r :: r in Without(rs, i) ==> r.key != rs[i].key
  {
    forall r | r in Without(rs, i) ensures r in rs && (Distinct(rs) ==> r.key != rs[i].key) {
      var j :| 0 <= j < |Without(rs, i)| && Without(rs, i)[j] == r;
      assert r == rs[if j < i then j else j + 1];
    }
  }

  lemma AppendDistinct(rs: seq<Record>, r: Record)
    requires Distinct(rs) && forall x :: x in rs ==> x.key != r.key
    ensures Distinct(rs + [r])
  {
    forall i | 0 <= i < |rs| ensures rs[i].key != r.key { assert rs[i] in rs; }
  }

  lemma DeleteRemoves(s: State, key: Key)
    requires Distinct(s.records)
    ensures var s' := Delete(s, key);
      Distinct(s'.records) && forall r :: r in s'.records ==> r in s.records && r.key != key
  {
    var i := IndexOf(s.records, key);
    if i.Some? {
      InWithout(s.records, i.value);
    }
  }

  lemma EvictedKeeps(rs: seq<Record>, lim: Limits, now: int)
    requires Distinct(rs)
    ensures var kept := Evicted(rs, lim.maxEntries, lim.maxBytes, now);
      Distinct(kept) && forall r :: r in kept ==> r in rs && r.expiresAt > now
  {
    UnexpiredExact(rs, now);
    var live := Unexpired(rs, now);
    var kept := Evicted(rs, lim.maxEntries, lim.maxBytes, now);
    forall r | r in kept ensures r in live {
    }
  }

  lemma GetTraces(s: State, lim: Limits, ops: seq<Op>, key: Key, revisions: Revisions, now: int)
    requires Distinct(s.records) && Traces(s, lim, ops)
    ensures var s' := Get(s, key, revisions, now).0; Distinct(s'.records) && Traces(s', lim, ops)
  {
    hide Latest;
    var i := IndexOf(s.records, key);
    if i.Some? {
      InWithout(s.records, i.value);
      var r := s.records[i.value];
      assert r in s.records;
      AppendDistinct(Without(s.records, i.value), r.(hits := r.hits + 1));
    }
  }

  lemma SetKeepsOthers(s: State, lim: Limits, r: Record, now: int)
    requires Distinct(s.records) && r.bytes <= lim.maxBytes
    ensures var s' := Set(s, lim, r, now);
      Distinct(s'.records) && forall x :: x in s'.records ==> x == r || (x in s.records && x.key != r.key)
  {
    DeleteRemoves(s, r.key);
    AppendDistinct(Delete(s, r.key).records, r);
    EvictedKeeps(Delete(s, r.key).records + [r], lim, now);
  }

  /** Whatever the operations were, keys stay unique and every record is the latest accepted set for its key. */
  lemma {:induction false} RunTraces(lim: Limits, ops: seq<Op>)
    ensures Distinct(Run(lim, ops).records) && Traces(Run(lim, ops), lim, ops)
  {
    hide Get, Set, Delete, Outside, Distinct;
    if ops == [] {
      NothingIsDistinct();
    } else {
      var front, op := ops[..|ops| - 1], ops[|ops| - 1];
      RunTraces(lim, front);
      var s := Run(lim, front);
      match op {
        case GetOp(key, revisions, now) => GetTraces(s, lim, front, key, revisions, now);
        case SetOp(r, now) =>
          if r.bytes <= lim.maxBytes {
            SetKeepsOthers(s, lim, r, now);
          } else {
            OversizedSetIgnored(s, lim, r, now);
          }
        case DeleteOp(key) => DeleteRemoves(s, key);
        case InvalidateOp(prefix) => OutsideExact(s.records, prefix);
        case ClearOp => NothingIsDistinct();
      }
    }
  }

  lemma NothingIsDistinct()
    ensures Distinct([])
  {
  }

  lemma OversizedSetIgnored(s: State, lim: Limits, r: Record, now: int)
    requires r.bytes > lim.maxBytes
    ensures Set(s, lim, r, now) == s
  {
  }

  /** After any run, a lookup answers with the latest accepted set for its key, unexpired and matching, or with nothing. */
  lemma GetReturnsLatest(lim: Limits, ops: seq<Op>, key: Key, revisions: Revisions, now: int)
    ensures var answer, latest := Get(Run(lim, ops), key, revisions, now).1, Latest(lim, ops, key);
      answer.Some? ==> latest.Some? && latest.value.value == answer && Fresh(latest.value, revisions, now)
  {
    RunTraces(lim, ops);
    var s := Run(lim, ops);
    var i := IndexOf(s.records, key);
    if i.Some? {
      assert s.records[i.value] in s.records;
    }
  }

  /** No set in the run used the empty key. */
  predicate NoEmptyKey(ops: seq<Op>) {
    forall op :: op in ops && op.SetOp? ==> op.r.key != ""
  }

  lemma WithoutFits(rs: seq<Record>, i: nat, lim: Limits)
    requires i < |rs| && Fits(rs, lim.maxEntries, lim.maxBytes)
    ensures Fits(Without(rs, i), lim.maxEntries, lim.maxBytes)
    ensures forall r: Record :: r.bytes == rs[i].bytes ==> Fits(Without(rs, i) + [r], lim.maxEntries, lim.maxBytes)
  {
    BytesWithout(rs, i);
    forall r: Record | r.bytes == rs[i].bytes ensures Bytes(Without(rs, i) + [r]) == Bytes(rs) {
      assert (Without(rs, i) + [r])[..|rs| - 1] == Without(rs, i);
    }
  }

  lemma SuffixFits(rs: seq<Record>, n: nat, e: nat, lim: Limits)
    requires n <= e <= |rs| && Fits(rs[n..], lim.maxEntries, lim.maxBytes)
    ensures Fits(rs[e..], lim.maxEntries, lim.maxBytes)
  {
    BytesSplit(rs[n..e], rs[e..]);
    assert rs[n..] == rs[n..e] + rs[e..];
  }

  /** What a set has to evict from: the other records and its own, without the expired ones. */
  function Candidates(s: State, r: Record, now: int): seq<Record> {
    Unexpired(Delete(s, r.key).records + [r], now)
  }

  /** If the empty key is among the candidates, they fit from it on. */
  predicate EmptyKeyLate(s: State, lim: Limits, r: Record, now: int) {
    var live := Candidates(s, r, now);
    forall e :: 0 <= e < |live| && live[e].key == "" ==> Fits(live[e..], lim.maxEntries, lim.maxBytes)
  }

  /** An accepted set leaves the cache within its limits exactly when no record under the empty key
      stops the eviction too early. */
  lemma SetFitsIff(s: State, lim: Limits, r: Record, now: int)
    requires r.bytes <= lim.maxBytes
    ensures Fits(Set(s, lim, r, now).records, lim.maxEntries, lim.maxBytes) <==> EmptyKeyLate(s, lim, r, now)
  {
    hide Fits, Bytes, Delete, Unexpired, Excess;
    var live := Candidates(s, r, now);
    var n := Excess(live, lim.maxEntries, lim.maxBytes);
    ExcessShortest(live, lim.maxEntries, lim.maxBytes);
    SetRecords(s, lim, r, now);
    NothingFits(lim);
    if Fits(live[n..], lim.maxEntries, lim.maxBytes) {
      forall e | 0 <= e < |live| && live[e].key == "" ensures Fits(live[e..], lim.maxEntries, lim.maxBytes) {
        assert e < n ==> StopsAt(live[e..], lim.maxEntries, lim.maxBytes);
        SuffixFits(live, n, e, lim);
      }
    }
  }

  lemma SetRecords(s: State, lim: Limits, r: Record, now: int)
    requires r.bytes <= lim.maxBytes
    ensures var live := Candidates(s, r, now);
      Set(s, lim, r, now).records == live[Excess(live, lim.maxEntries, lim.maxBytes)..]
  {
  }

  lemma NothingFits(lim: Limits)
    ensures Fits([], lim.maxEntries, lim.maxBytes)
  {
  }

  /** Nothing but an accepted set can make a cache pass its limits. */
  lemma OtherOpsFit(s: State, lim: Limits, op: Op)
    requires Distinct(s.records) && Fits(s.records, lim.maxEntries, lim.maxBytes)
    requires op.SetOp? ==> op.r.bytes > lim.maxBytes
    ensures Fits(Apply(s, lim, op).records, lim.maxEntries, lim.maxBytes)
  {
    hide Bytes, Outside;
    match op {
      case GetOp(key, revisions, now) =>
        var i := IndexOf(s.records, key);
        if i.Some? {
          WithoutFits(s.records, i.value, lim);
        }
      case SetOp(r, now) =>
      case DeleteOp(key) =>
        var i := IndexOf(s.records, key);
        if i.Some? {
          WithoutFits(s.records, i.value, lim);
        }
      case InvalidateOp(prefix) => OutsideNoLarger(s.records, prefix);
      case ClearOp => NothingFits(lim);
    }
  }

  predicate Accepted(lim: Limits, op: Op) { op.SetOp? && op.r.bytes <= lim.maxBytes }

  predicate FitsThroughout(lim: Limits, ops: seq<Op>) {
    forall n :: 0 <= n <= |ops| ==> Fits(Run(lim, ops[..n]).records, lim.maxEntries, lim.maxBytes)
  }

  /** At every accepted set of the run, the records then present pass the check on the empty key. */
  predicate EmptyKeyLateThroughout(lim: Limits, ops: seq<Op>) {
    forall i :: 0 <= i < |ops| && Accepted(lim, ops[i]) ==>
      EmptyKeyLate(Run(lim, ops[..i]), lim, ops[i].r, ops[i].setAt)
  }

  lemma RunNext(lim: Limits, ops: seq<Op>, n: nat)
    requires n < |ops|
    ensures Run(lim, ops[..n + 1]) == Apply(Run(lim, ops[..n]), lim, ops[n])
  {
    assert ops[..n + 1][..n] == ops[..n];
  }

  lemma {:induction false} PrefixFits(lim: Limits, ops: seq<Op>, n: nat)
    requires n <= |ops| && EmptyKeyLateThroughout(lim, ops)
    ensures Fits(Run(lim, ops[..n]).records, lim.maxEntries, lim.maxBytes)
  {
    hide Fits, Apply, EmptyKeyLate;
    if n == 0 {
      NothingRun(lim, ops);
      NothingFits(lim);
    } else {
      var s, op := Run(lim, ops[..n - 1]), ops[n - 1];
      PrefixFits(lim, ops, n - 1);
      RunTraces(lim, ops[..n - 1]);
      RunNext(lim, ops, n - 1);
      if Accepted(lim, op) {
        SetFitsIff(s, lim, op.r, op.setAt);
        ApplySet(s, lim, op);
      } else {
        OtherOpsFit(s, lim, op);
      }
    }
  }

  lemma NothingRun(lim: Limits, ops: seq<Op>)
    ensures ops[..0] == [] && Run(lim, ops[..0]).records == []
  {
  }

  lemma ApplySet(s: State, lim: Limits, op: Op)
    requires op.SetOp?
    ensures Apply(s, lim, op) == Set(s, lim, op.r, op.setAt)
  {
  }

  /** The number of records and their bytes stay within the limits throughout a run exactly when, at
      every accepted set, a record under the empty key leaves nothing beyond the limits behind it. */
  lemma RunFitsIff(lim: Limits, ops: seq<Op>)
    ensures FitsThroughout(lim, ops) <==> EmptyKeyLateThroughout(lim, ops)
  {
    hide Fits, Apply, EmptyKeyLate, Run;
    if EmptyKeyLateThroughout(lim, ops) {
      forall n | 0 <= n <= |ops| ensures Fits(Run(lim, ops[..n]).records, lim.maxEntries, lim.maxBytes) {
        PrefixFits(lim, ops, n);
      }
    }
    if FitsThroughout(lim, ops) {
      forall i | 0 <= i < |ops| && Accepted(lim, ops[i])
        ensures EmptyKeyLate(Run(lim, ops[..i]), lim, ops[i].r, ops[i].setAt)
      {
        RunNext(lim, ops, i);
        ApplySet(Run(lim, ops[..i]), lim, ops[i]);
        SetFitsIff(Run(lim, ops[..i]), lim, ops[i].r, ops[i].setAt);
        assert Fits(Run(lim, ops[..i + 1]).records, lim.maxEntries, lim.maxBytes);
      }
    }
  }

  /** As long as the empty key is never set, the limits hold throughout. */
  lemma RunFits(lim: Limits, ops: seq<Op>)
    requires NoEmptyKey(ops)
    ensures FitsThroughout(lim, ops)
  {
    hide Fits, Apply, FitsThroughout, Run, Candidates;
    forall i | 0 <= i < |ops| && Accepted(lim, ops[i])
      ensures EmptyKeyLate(Run(lim, ops[..i]), lim, ops[i].r, ops[i].setAt)
    {
      CandidatesWereSet(lim, ops, i);
    }
    RunFitsIff(lim, ops);
  }

  lemma CandidatesWereSet(lim: Limits, ops: seq<Op>, i: nat)
    requires i < |ops| && ops[i].SetOp? && NoEmptyKey(ops)
    ensures var live := Candidates(Run(lim, ops[..i]), ops[i].r, ops[i].setAt);
      forall e :: 0 <= e < |live| ==> live[e].key != ""
  {
    hide Latest, Run, Unexpired, Delete, Distinct;
    var s, r := Run(lim, ops[..i]), ops[i].r;
    var live := Candidates(s, r, ops[i].setAt);
    assert ops[i] in ops;
    RunTraces(lim, ops[..i]);
    DeleteRemoves(s, r.key);
    UnexpiredExact(Delete(s, r.key).records + [r], ops[i].setAt);
    forall e | 0 <= e < |live| ensures live[e].key != "" {
      assert live[e] in live;
      if live[e] != r {
        assert live[e] in Delete(s, r.key).records;
        LatestWasSet(lim, ops[..i], live[e].key);
        var op :| op in ops[..i] && op.SetOp? && op.r == Latest(lim, ops[..i], live[e].key).value;
        assert op in ops;
      }
    }
  }

  /** Two sets on an empty cache that together are too large for it pass its limits, each being
      accepted: the older record is under the empty key, so nothing is evicted. */
  lemma EmptyKeyPassesLimit(lim: Limits, first: Record, second: Record, t0: int, t1: int)
    requires first.key == "" && second.key != "" && first.bytes <= lim.maxBytes && second.bytes <= lim.maxBytes
    requires first.expiresAt > t0 && first.expiresAt > t1 && second.expiresAt > t1
    requires lim.maxEntries < 2 || first.bytes + second.bytes > lim.maxBytes
    ensures var s := Run(lim, [SetOp(first, t0), SetOp(second, t1)]);
      s.records == [first, second] && !Fits(s.records, lim.maxEntries, lim.maxBytes)
  {
    hide Unexpired;
    var ops := [SetOp(first, t0), SetOp(second, t1)];
    BytesTwo(first, second);
    NothingRun(lim, ops);
    RunNext(lim, ops, 0);
    RunNext(lim, ops, 1);
    assert ops[..2] == ops;
    var s1 := Run(lim, ops[..1]);
    UnexpiredOne(first, t0);
    assert [] + [first] == [first];
    assert s1.records == [first][0..] == [first];
    assert Delete(s1, second.key).records == [first];
    UnexpiredTwo(first, second, t1);
    assert [first] + [second] == [first, second];
    assert Run(lim, ops).records == [first, second][0..] == [first, second];
  }

  lemma BytesTwo(a: Record, b: Record)
    ensures Bytes([a]) == a.bytes && Bytes([a, b]) == a.bytes + b.bytes
  {
    assert [a][..0] == [];
    assert Bytes([a]) == a.bytes;
    assert [a, b][..1] == [a];
  }

  lemma UnexpiredOne(r: Record, now: int)
    requires r.expiresAt > now
    ensures Unexpired([r], now) == [r]
  {
    assert [r][..0] == [];
  }

  lemma UnexpiredTwo(a: Record, b: Record, now: int)
    requires a.expiresAt > now && b.expiresAt > now
    ensures Unexpired([a, b], now) == [a, b]
  {
    UnexpiredOne(a, now);
    assert [a, b][..1] == [a];
  }

  lemma {:induction false} UnexpiredFirst(rs: seq<Record>, now: int)
    requires rs != [] && rs[0].expiresAt > now
    ensures Unexpired(rs, now) != [] && Unexpired(rs, now)[0] == rs[0]
  {
    if |rs| > 1 {
      UnexpiredFirst(rs[..|rs| - 1], now);
    }
  }

  /** The empty key must stay unused: an oldest record under it stops all eviction, whatever the limits. */
  lemma EmptyKeyBlocksEviction(s: State, lim: Limits, r: Record, now: int)
    requires s.records != [] && s.records[0].key == "" && s.records[0].expiresAt > now
    requires r.key != "" && r.bytes <= lim.maxBytes
    ensures Set(s, lim, r, now).records == Unexpired(Delete(s, r.key).records + [r], now)
  {
    UnexpiredFirst(Delete(s, r.key).records + [r], now);
  }

  /** A set of any acceptable size leaves its own record in the cache, youngest of all. */
  lemma JustSetSurvives(s: State, lim: Limits, r: Record, now: int)
    requires lim.maxEntries >= 1 && r.bytes <= lim.maxBytes && r.expiresAt > now
    ensures var kept := Set(s, lim, r, now).records; kept != [] && kept[|kept| - 1] == r
  {
    var records := Delete(s, r.key).records + [r];
    var live := Unexpired(records, now);
    assert records[..|records| - 1] == Delete(s, r.key).records;
    assert live[|live| - 1] == r;
    ExcessShortest(live, lim.maxEntries, lim.maxBytes);
    assert live[|live| - 1..] == [r] && [r][..0] == [];
    assert Fits([r], lim.maxEntries, lim.maxBytes);
  }

  // ---------- when a lookup is a hit ----------

  /** Two sets of revisions give every name the same text, absent meaning empty. */
  ghost predicate SameRevisions(a: Revisions, b: Revisions) {
    forall name :: (if name in a then a[name] else "") == (if name in b then b[name] else "")
  }

  lemma SameRevisionsMatch(a: Revisions, b: Revisions)
    ensures SameRevisions(a, b) <==> RevisionsMatch(a, b)
  {
    if RevisionsMatch(a, b) {
      forall name ensures (if name in a then a[name] else "") == (if name in b then b[name] else "") {
        assert name in a.Keys + b.Keys ==> Revision(a, name) == Revision(b, name);
      }
    }
    if SameRevisions(a, b) {
      forall name | name in a.Keys + b.Keys ensures Revision(a, name) == Revision(b, name) {
      }
    }
  }

  lemma IndexOfIs(rs: seq<Record>, i: nat)
    requires Distinct(rs) && i < |rs|
    ensures IndexOf(rs, rs[i].key) == Some(i)
  {
    var j := IndexOf(rs, rs[i].key);
    assert rs[i].key == rs[j.value].key;
  }

  lemma IndexOfNone(rs: seq<Record>, key: Key)
    requires forall i :: 0 <= i < |rs| ==> rs[i].key != key
    ensures IndexOf(rs, key).None?
  {
  }

  /** What every lookup answers and leaves: a record under the key that has not expired and has the same
      revisions is answered with, counted and made the youngest; one that is not is dropped. */
  lemma GetExact(s: State, key: Key, revisions: Revisions, now: int)
    requires Distinct(s.records)
    ensures (forall i :: 0 <= i < |s.records| ==> s.records[i].key != key) ==>
              Get(s, key, revisions, now) == (s.(misses := s.misses + 1), None)
    ensures forall i: nat :: i < |s.records| && s.records[i].key == key ==>
              var r, others := s.records[i], s.records[..i] + s.records[i + 1..];
              Get(s, key, revisions, now) ==
              if r.expiresAt > now && SameRevisions(r.revisions, revisions)
              then (State(others + [r.(hits := r.hits + 1)], s.hits + 1, s.misses, s.evictions), r.value)
              else (State(others, s.hits, s.misses + 1, s.evictions), None)
  {
    hide Distinct, RevisionsMatch, SameRevisions;
    if forall i :: 0 <= i < |s.records| ==> s.records[i].key != key {
      IndexOfNone(s.records, key);
    }
    forall i: nat | i < |s.records| && s.records[i].key == key
      ensures IndexOf(s.records, key) == Some(i)
      ensures SameRevisions(s.records[i].revisions, revisions) <==> RevisionsMatch(s.records[i].revisions, revisions)
    {
      IndexOfIs(s.records, i);
      SameRevisionsMatch(s.records[i].revisions, revisions);
    }
  }

  /** Deleting a key takes out the one record under it and keeps the others in their order. */
  lemma DeleteExact(s: State, key: Key)
    requires Distinct(s.records)
    ensures (forall i :: 0 <= i < |s.records| ==> s.records[i].key != key) ==> Delete(s, key) == s
    ensures forall i: nat :: i < |s.records| && s.records[i].key == key ==>
              Delete(s, key) == s.(records := s.records[..i] + s.records[i + 1..])
  {
    hide Distinct;
    if forall i :: 0 <= i < |s.records| ==> s.records[i].key != key {
      IndexOfNone(s.records, key);
    }
    forall i: nat | i < |s.records| && s.records[i].key == key ensures IndexOf(s.records, key) == Some(i) {
      IndexOfIs(s.records, i);
    }
  }

  /** Right after an accepted set, in any run of a cache that may hold a record at all, a lookup of the key
      answers the value set exactly until it expires and for the same revisions. */
  lemma HitAfterSet(lim: Limits, ops: seq<Op>, r: Record, setAt: int, revisions: Revisions, now: int)
    requires lim.maxEntries >= 1 && r.bytes <= lim.maxBytes && r.expiresAt > setAt
    ensures Get(Set(Run(lim, ops), lim, r, setAt), r.key, revisions, now).1 ==
            if r.expiresAt > now && SameRevisions(r.revisions, revisions) then r.value else None
  {
    hide Get, SameRevisions, Run, Set, Distinct;
    var s := Run(lim, ops);
    RunTraces(lim, ops);
    SetKeepsOthers(s, lim, r, setAt);
    JustSetSurvives(s, lim, r, setAt);
    var after := Set(s, lim, r, setAt);
    GetExact(after, r.key, revisions, now);
  }

  /** A value just remembered is remembered: asked again at the same moment for the same key and
      revisions, the cache answers it and does not take what the producer gives now. */
  lemma RememberedOnce(lim: Limits, ops: seq<Op>, r: Record, again: Record, now: int)
    requires lim.maxEntries >= 1 && r.bytes <= lim.maxBytes && r.expiresAt > now && r.value.Some?
    requires again.key == r.key && again.revisions == r.revisions
    ensures var (s, answer) := Remember(Run(lim, ops), lim, r, now);
      answer.Some? && Remember(s, lim, again, now).1 == answer
  {
    hide Get, Run, Set, Distinct, SameRevisions;
    var s := Run(lim, ops);
    RunTraces(lim, ops);
    assert SameRevisions(r.revisions, r.revisions) by { SameRevisionsMatch(r.revisions, r.revisions); }
    var (s1, cached) := Get(s, r.key, r.revisions, now);
    if cached.Some? {
      HitAgain(s, r.key, r.revisions, now);
    } else {
      MissKeepsDistinct(s, r.key, r.revisions, now);
      SetKeepsOthers(s1, lim, r, now);
      JustSetSurvives(s1, lim, r, now);
      GetExact(Set(s1, lim, r, now), r.key, r.revisions, now);
    }
  }

  lemma HitAgain(s: State, key: Key, revisions: Revisions, now: int)
    requires Distinct(s.records) && Get(s, key, revisions, now).1.Some?
    ensures Get(Get(s, key, revisions, now).0, key, revisions, now).1 == Get(s, key, revisions, now).1
  {
    hide Get, SameRevisions, Distinct;
    GetExact(s, key, revisions, now);
    var i: nat :| i < |s.records| && s.records[i].key == key;
    var after := Get(s, key, revisions, now).0;
    var r := s.records[i];
    InWithout(s.records, i);
    assert Without(s.records, i) == s.records[..i] + s.records[i + 1..];
    AppendDistinct(Without(s.records, i), r.(hits := r.hits + 1));
    GetExact(after, key, revisions, now);
    assert after.records[|after.records| - 1] == r.(hits := r.hits + 1);
  }

  lemma MissKeepsDistinct(s: State, key: Key, revisions: Revisions, now: int)
    requires Distinct(s.records)
    ensures Distinct(Get(s, key, revisions, now).0.records)
  {
    var i := IndexOf(s.records, key);
    if i.Some? {
      InWithout(s.records, i.value);
      AppendDistinct(Without(s.records, i.value), s.records[i.value].(hits := s.records[i.value].hits + 1));
    }
  }

  /** A record lives for the time asked for, within a second and a day; a minute when none or zero is
      given. */
  lemma NewRecordExpires(key: Key, value: Option<Value>, ttl: Option<int>, revisions: Revisions, bytes: nat, now: int)
    ensures NewRecord(key, value, ttl, revisions, bytes, now) ==
            Record(key, value,
                   now + (if ttl == None || ttl == Some(0) then 60_000 else Max(1_000, Min(ttl.value, 86_400_000))),
                   0, bytes, revisions)
  {
  }

  function Gets(ops: seq<Op>): nat {
    if ops == [] then 0 else Gets(ops[..|ops| - 1]) + (if ops[|ops| - 1].GetOp? then 1 else 0)
  }

  /** Every lookup is counted once, as a hit or as a miss. */
  lemma {:induction false} HitsAndMissesCountGets(lim: Limits, ops: seq<Op>)
    ensures Run(lim, ops).hits + Run(lim, ops).misses == Gets(ops)
  {
    if ops != [] {
      HitsAndMissesCountGets(lim, ops[..|ops| - 1]);
    }
  }

  /**
   Remembering is transparent: when everything ever set under a key is what the producer
   gives for that key, remember answers what calling the producer would.
   */
  lemma RememberIsProducer(lim: Limits, ops: seq<Op>, producer: Key -> Option<Value>, r: Record, now: int)
    requires forall op :: op in ops && op.SetOp? ==> op.r.value == producer(op.r.key)
    requires r.value == producer(r.key)
    ensures Remember(Run(lim, ops), lim, r, now).1 == producer(r.key)
  {
    GetReturnsLatest(lim, ops, r.key, r.revisions, now);
    LatestWasSet(lim, ops, r.key);
  }

  lemma {:induction false} LatestWasSet(lim: Limits, ops: seq<Op>, key: Key)
    ensures var latest := Latest(lim, ops, key);
      latest.Some? ==> latest.value.key == key && exists op :: op in ops && op.SetOp? && op.r == latest.value
  {
    if ops != [] && Latest(lim, ops, key).Some? {
      var last := ops[|ops| - 1];
      if !(last.SetOp? && last.r.key == key && last.r.bytes <= lim.maxBytes) {
        LatestWasSet(lim, ops[..|ops| - 1], key);
        var op :| op in ops[..|ops| - 1] && op.SetOp? && op.r == Latest(lim, ops, key).value;
        assert op in ops;
      } else {
        assert last in ops;
      }
    }
  }
}
