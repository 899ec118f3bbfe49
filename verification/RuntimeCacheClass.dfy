/** The cache as the class it is: fields updated in place, a byte counter kept by hand. */
module RuntimeCacheClass {
  import opened Wrappers
  import opened RuntimeCache

  class Cache {
    const limits: Limits
    var records: seq<Record>
    var totalBytes: nat
    var hits: nat
    var misses: nat
    var evictions: nat

    ghost predicate Valid()
      reads this
    {
      Distinct(records) && totalBytes == Bytes(records)
    }

    function Abs(): State
      reads this
    {
      State(records, hits, misses, evictions)
    }

    constructor (maxEntries: nat, maxBytes: nat)
      ensures Valid() && limits == Limits(maxEntries, maxBytes) && Abs() == State([], 0, 0, 0)
    {
      limits := Limits(maxEntries, maxBytes);
      records, totalBytes, hits, misses, evictions := [], 0, 0, 0, 0;
    }

    method Delete(key: Key) returns (removed: bool)
      requires Valid()
      modifies this`records, this`totalBytes
      ensures Valid() && Abs() == RuntimeCache.Delete(old(Abs()), key)
      ensures removed == IndexOf(old(records), key).Some?
    {
      var i := IndexOf(records, key);
      if i.None? { return false; }
      BytesWithout(records, i.value);
      InWithout(records, i.value);
      totalBytes := Clamp(totalBytes - records[i.value].bytes, 0, totalBytes);
      records := records[..i.value] + records[i.value + 1..];
      removed := true;
    }

    method Get(key: Key, revisions: Revisions, now: int) returns (value: Option<Value>)
      requires Valid()
      modifies this
      ensures Valid() && (Abs(), value) == RuntimeCache.Get(old(Abs()), key, revisions, now)
    {
      hide Bytes, Distinct, IndexOf, RevisionsMatch;
      var i := IndexOf(records, key);
      if i.None? {
        misses := misses + 1;
        return None;
      }
      var record := records[i.value];
      if record.expiresAt <= now || !RevisionsMatch(record.revisions, revisions) {
        var _ := Delete(key);
        misses := misses + 1;
        return None;
      }
      record := record.(hits := record.hits + 1);
      MoveToEnd(records, i.value, record);
      records := records[..i.value] + records[i.value + 1..] + [record];
      hits := hits + 1;
      value := record.value;
    }

    method EvictIfNeeded(now: int)
      requires Valid()
      modifies this`records, this`totalBytes, this`evictions
      ensures Valid()
      ensures records == Evicted(old(records), limits.maxEntries, limits.maxBytes, now)
      ensures evictions == old(evictions) + Excess(Unexpired(old(records), now), limits.maxEntries, limits.maxBytes)
    {
      hide Bytes, Distinct, Excess, Unexpired, RuntimeCache.Delete;
      DropExpired(now);
      ghost var live := records;
      ghost var dropped := 0;
      while |records| > limits.maxEntries || totalBytes > limits.maxBytes
        invariant Valid() && dropped <= |live| && records == live[dropped..]
        invariant evictions == old(evictions) + dropped
        invariant Excess(live, limits.maxEntries, limits.maxBytes)
                  == dropped + Excess(records, limits.maxEntries, limits.maxBytes)
        decreases |records|
      {
        if records == [] || records[0].key == "" { break; }
        ExcessStep(records, limits);
        DeleteAt(Abs(), 0);
        var _ := Delete(records[0].key);
        evictions := evictions + 1;
        dropped := dropped + 1;
      }
      ExcessStop(records, limits);
    }

    method DropExpired(now: int)
      requires Valid()
      modifies this`records, this`totalBytes
      ensures Valid() && records == Unexpired(old(records), now)
    {
      hide Bytes, Distinct, Unexpired, RuntimeCache.Delete;
      var all := records;
      UnexpiredNone(now);
      for i := 0 to |all|
        invariant Valid() && records == Unexpired(all[..i], now) + all[i..]
      {
        ghost var head := Unexpired(all[..i], now);
        UnexpiredStep(all, i, now);
        Advance(head, all, i);
        if all[i].expiresAt <= now {
          DeleteAt(Abs(), |head|);
          var _ := Delete(all[i].key);
        }
      }
      assert all[..|all|] == all;
    }

    /** Stores a value unless it is too big by itself; the value is returned either way. */
    method Set(key: Key, value: Option<Value>, ttl: Option<int>, revisions: Revisions, bytes: nat, now: int)
      returns (result: Option<Value>)
      requires Valid()
      modifies this
      ensures Valid() && result == value
      ensures Abs() == RuntimeCache.Set(old(Abs()), limits, NewRecord(key, value, ttl, revisions, bytes, now), now)
    {
      hide Bytes, Distinct, Evicted, Excess, Unexpired, RuntimeCache.Delete, TtlMs;
      result := value;
      if bytes > limits.maxBytes { return; }
      DeleteRemoves(Abs(), key);
      var _ := Delete(key);
      var record := NewRecord(key, value, ttl, revisions, bytes, now);
      AppendDistinct(records, record);
      AppendBytes(records, record);
      records := records + [record];
      totalBytes := totalBytes + bytes;
      EvictIfNeeded(now);
    }

    method Remember(key: Key, revisions: Revisions, produced: Option<Value>, ttl: Option<int>, bytes: nat, now: int)
      returns (value: Option<Value>)
      requires Valid()
      modifies this
      ensures Valid()
      ensures (Abs(), value) == RuntimeCache.Remember(old(Abs()), limits, NewRecord(key, produced, ttl, revisions, bytes, now), now)
    {
      value := Get(key, revisions, now);
      if value.Some? { return; }
      value := Set(key, produced, ttl, revisions, bytes, now);
    }

    method InvalidateNamespace(namespace: string) returns (removed: nat)
      requires Valid()
      modifies this`records, this`totalBytes
      ensures Valid() && records == Outside(old(records), namespace + ":")
      ensures removed == |old(records)| - |records|
    {
      hide Bytes, Distinct, Outside, RuntimeCache.Delete, IndexOf;
      var all, prefix := records, namespace + ":";
      removed := 0;
      OutsideNone(prefix);
      for i := 0 to |all|
        invariant Valid() && records == Outside(all[..i], prefix) + all[i..]
        invariant removed == |all| - |records|
      {
        InvalidateStep(Abs(), all, i, prefix);
        if prefix <= all[i].key {
          var deleted := Delete(all[i].key);
          removed := removed + (if deleted then 1 else 0);
        }
      }
      assert all[..|all|] == all;
    }

    method Clear()
      modifies this`records, this`totalBytes
      ensures Valid() && records == []
    {
      records, totalBytes := [], 0;
    }
  }

  // ---------- single steps of the loops ----------

  lemma MoveToEnd(rs: seq<Record>, i: nat, r: Record)
    requires Distinct(rs) && i < |rs| && r.key == rs[i].key && r.bytes == rs[i].bytes
    ensures Distinct(Without(rs, i) + [r]) && Bytes(Without(rs, i) + [r]) == Bytes(rs)
  {
    InWithout(rs, i);
    AppendDistinct(Without(rs, i), r);
    BytesWithout(rs, i);
    AppendBytes(Without(rs, i), r);
  }

  /** With unique keys, deleting the key of a record removes that record. */
  lemma DeleteAt(s: State, i: nat)
    requires Distinct(s.records) && i < |s.records|
    ensures RuntimeCache.Delete(s, s.records[i].key).records == s.records[..i] + s.records[i + 1..]
    ensures IndexOf(s.records, s.records[i].key).Some?
  {
    var j := IndexOf(s.records, s.records[i].key);
    assert j.Some?;
    assert !(j.value < i) && !(i < j.value);
  }

  lemma ExcessStep(rs: seq<Record>, lim: Limits)
    requires !StopsAt(rs, lim.maxEntries, lim.maxBytes)
    ensures Excess(rs, lim.maxEntries, lim.maxBytes) == 1 + Excess(rs[1..], lim.maxEntries, lim.maxBytes)
  {
  }

  lemma ExcessStop(rs: seq<Record>, lim: Limits)
    requires StopsAt(rs, lim.maxEntries, lim.maxBytes)
    ensures Excess(rs, lim.maxEntries, lim.maxBytes) == 0
  {
  }

  lemma Advance(head: seq<Record>, all: seq<Record>, i: nat)
    requires i < |all|
    ensures var rs := head + all[i..];
      && rs[|head|] == all[i]
      && rs[..|head|] + rs[|head| + 1..] == head + all[i + 1..]
      && rs == head + [all[i]] + all[i + 1..]
  {
  }

  lemma UnexpiredNone(now: int)
    ensures Unexpired([], now) == []
  {
  }

  lemma UnexpiredStep(rs: seq<Record>, i: nat, now: int)
    requires i < |rs|
    ensures Unexpired(rs[..i + 1], now) == Unexpired(rs[..i], now) + (if rs[i].expiresAt > now then [rs[i]] else [])
  {
    assert rs[..i + 1][..i] == rs[..i];
  }

  lemma OutsideNone(prefix: Key)
    ensures Outside([], prefix) == []
  {
  }

  /** One step of an invalidation: the record at hand is deleted or passed over. */
  lemma InvalidateStep(s: State, all: seq<Record>, i: nat, prefix: Key)
    requires i < |all| && Distinct(s.records) && s.records == Outside(all[..i], prefix) + all[i..]
    ensures var after := Outside(all[..i + 1], prefix) + all[i + 1..];
      if prefix <= all[i].key
      then RuntimeCache.Delete(s, all[i].key).records == after && IndexOf(s.records, all[i].key).Some?
           && |after| == |s.records| - 1
      else s.records == after
  {
    hide Distinct, Outside, RuntimeCache.Delete, IndexOf;
    var head := Outside(all[..i], prefix);
    OutsideStep(all, i, prefix);
    Advance(head, all, i);
    DeleteAt(s, |head|);
    assert head + [] == head;
  }

  lemma OutsideStep(rs: seq<Record>, i: nat, prefix: Key)
    requires i < |rs|
    ensures Outside(rs[..i + 1], prefix) == Outside(rs[..i], prefix) + (if prefix <= rs[i].key then [] else [rs[i]])
  {
    assert rs[..i + 1][..i] == rs[..i];
  }
}
