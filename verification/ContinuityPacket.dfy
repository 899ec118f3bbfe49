/**
 The continuity packet: its canonical form and content hash, and the selection of messages
 that fit a character budget. Strings are sequences of UTF-16 code units.
 */
module ContinuityPacket {
  import opened Wrappers

  // ---------- values and their canonical form ----------

  datatype Json =
    | Undefined
    | Null
    | Bool(b: bool)
    | Number(n: real)
    | Str(s: string)
    | Arr(items: seq<Json>)
    | Obj(fields: seq<Member>)

  datatype Member = Member(key: string, value: Json)

  predicate DistinctKeys(fields: seq<Member>) {
    forall i, j :: 0 <= i < j < |fields| ==> fields[i].key != fields[j].key
  }

  /** Every object has each key once. */
  predicate WellFormed(v: Json) {
    match v
    case Arr(items) => forall i :: 0 <= i < |items| ==> WellFormed(items[i])
    case Obj(fields) => DistinctKeys(fields) && forall i :: 0 <= i < |fields| ==> WellFormed(fields[i].value)
    case _ => true
  }

  /** The order keys are sorted by. It is total, but it may hold two different keys to be tied, as
      orders of a locale do with canonically equivalent texts. */
  type KeyOrder = (string, string) -> bool

  ghost predicate Preorder(leq: KeyOrder) {
    && (forall a, b :: leq(a, b) || leq(b, a))
    && (forall a, b, c :: leq(a, b) && leq(b, c) ==> leq(a, c))
  }

  predicate Tied(leq: KeyOrder, a: string, b: string) { leq(a, b) && leq(b, a) }

  /** No two fields that are not undefined have tied keys. */
  predicate UntiedKeys(fields: seq<Member>, leq: KeyOrder) {
    forall i, j :: 0 <= i < j < |fields| && fields[i].value != Undefined && fields[j].value != Undefined ==>
      !Tied(leq, fields[i].key, fields[j].key)
  }

  /** No object of the value has two tied keys. */
  predicate Untied(v: Json, leq: KeyOrder) {
    match v
    case Arr(items) => forall i :: 0 <= i < |items| ==> Untied(items[i], leq)
    case Obj(fields) => UntiedKeys(fields, leq) && forall i :: 0 <= i < |fields| ==> Untied(fields[i].value, leq)
    case _ => true
  }

  function Insert(m: Member, sorted: seq<Member>, leq: KeyOrder): seq<Member> {
    if sorted == [] then [m]
    else if leq(m.key, sorted[0].key) then [m] + sorted
    else [sorted[0]] + Insert(m, sorted[1..], leq)
  }

  function SortByKey(fields: seq<Member>, leq: KeyOrder): seq<Member> {
    if fields == [] then [] else Insert(fields[0], SortByKey(fields[1..], leq), leq)
  }

  function Canonicalize(v: Json, leq: KeyOrder): Json
    decreases v, 1
  {
    match v
    case Arr(items) => Arr(CanonicalItems(items, leq))
    case Obj(fields) => Obj(SortByKey(CanonicalFields(fields, leq), leq))
    case _ => v
  }

  function CanonicalItems(items: seq<Json>, leq: KeyOrder): (r: seq<Json>)
    decreases items, 0
  {
    if items == [] then [] else [Canonicalize(items[0], leq)] + CanonicalItems(items[1..], leq)
  }

  function CanonicalFields(fields: seq<Member>, leq: KeyOrder): (r: seq<Member>)
    decreases fields, 0
  {
    if fields == [] then []
    else if fields[0].value == Undefined then CanonicalFields(fields[1..], leq)
    else [Member(fields[0].key, Canonicalize(fields[0].value, leq))] + CanonicalFields(fields[1..], leq)
  }

  /** Two values agree up to the order of object keys and undefined object fields. */
  predicate Equivalent(a: Json, b: Json)
    decreases a, 0
  {
    match (a, b)
    case (Arr(xs), Arr(ys)) => |xs| == |ys| && forall i :: 0 <= i < |xs| ==> Equivalent(xs[i], ys[i])
    case (Obj(xs), Obj(ys)) =>
      && (forall i :: 0 <= i < |xs| && xs[i].value != Undefined ==> HasEqual(xs[i], ys))
      && (forall j :: 0 <= j < |ys| && ys[j].value != Undefined ==> EqualOf(xs, ys[j]))
    case _ => a == b
  }

  /** The fields hold a member with this one's key and an equivalent value. */
  predicate HasEqual(m: Member, fields: seq<Member>)
    decreases m, 1
  {
    exists j :: 0 <= j < |fields| && Matches(m.key, fields[j]) && Equivalent(m.value, fields[j].value)
  }

  predicate EqualOf(fields: seq<Member>, m: Member)
    decreases fields, 0
  {
    exists i :: 0 <= i < |fields| && Matches(m.key, fields[i]) && Equivalent(fields[i].value, m.value)
  }

  predicate Matches(key: string, m: Member) { m.key == key && m.value != Undefined }

  lemma {:induction false} CanonicalItemsAt(items: seq<Json>, leq: KeyOrder)
    ensures |CanonicalItems(items, leq)| == |items|
    ensures forall i :: 0 <= i < |items| ==> CanonicalItems(items, leq)[i] == Canonicalize(items[i], leq)
  {
    hide Canonicalize;
    if items != [] {
      CanonicalItemsAt(items[1..], leq);
    }
  }

  /** The member a field becomes. */
  function Become(m: Member, leq: KeyOrder): Member { Member(m.key, Canonicalize(m.value, leq)) }

  lemma {:induction false} CanonicalFieldsKeep(fields: seq<Member>, leq: KeyOrder, i: nat)
    requires i < |fields| && fields[i].value != Undefined
    ensures Become(fields[i], leq) in CanonicalFields(fields, leq)
  {
    hide Canonicalize;
    if i > 0 {
      CanonicalFieldsKeep(fields[1..], leq, i - 1);
    }
  }

  lemma {:induction false} CanonicalFieldsFrom(fields: seq<Member>, leq: KeyOrder, m: Member) returns (i: nat)
    requires m in CanonicalFields(fields, leq)
    ensures i < |fields| && fields[i].value != Undefined && m == Become(fields[i], leq)
  {
    hide Canonicalize;
    if fields[0].value != Undefined && m == Become(fields[0], leq) {
      i := 0;
    } else {
      i := CanonicalFieldsFrom(fields[1..], leq, m);
      i := i + 1;
    }
  }

  predicate UntiedMembers(s: seq<Member>, leq: KeyOrder) {
    forall i, j :: 0 <= i < j < |s| ==> !Tied(leq, s[i].key, s[j].key)
  }

  lemma {:induction false} CanonicalFieldsUntied(fields: seq<Member>, leq: KeyOrder)
    requires UntiedKeys(fields, leq)
    ensures UntiedMembers(CanonicalFields(fields, leq), leq)
  {
    hide Canonicalize;
    if fields != [] {
      CanonicalFieldsUntied(fields[1..], leq);
      var rest := CanonicalFields(fields[1..], leq);
      forall k | 0 <= k < |rest| && fields[0].value != Undefined ensures !Tied(leq, fields[0].key, rest[k].key) {
        var i := CanonicalFieldsFrom(fields[1..], leq, rest[k]);
        assert fields[i + 1] == fields[1..][i];
      }
    }
  }

  // ---------- sorting ----------

  /** Strictly ascending. */
  predicate Ascending(s: seq<Member>, leq: KeyOrder) {
    forall i, j :: 0 <= i < j < |s| ==> leq(s[i].key, s[j].key) && !leq(s[j].key, s[i].key)
  }

  lemma {:induction false} InsertMembers(m: Member, sorted: seq<Member>, leq: KeyOrder)
    ensures forall x :: x in Insert(m, sorted, leq) <==> x == m || x in sorted
  {
    if sorted != [] {
      InsertMembers(m, sorted[1..], leq);
      assert sorted == [sorted[0]] + sorted[1..];
    }
  }

  lemma {:induction false} InsertAscending(m: Member, sorted: seq<Member>, leq: KeyOrder)
    requires Preorder(leq) && Ascending(sorted, leq)
    requires forall x :: x in sorted ==> !Tied(leq, m.key, x.key)
    ensures Ascending(Insert(m, sorted, leq), leq)
  {
    if sorted != [] {
      assert sorted[0] in sorted;
      if leq(m.key, sorted[0].key) {
        forall i | 0 <= i < |sorted| ensures leq(m.key, sorted[i].key) && !leq(sorted[i].key, m.key) {
          assert sorted[i] in sorted;
        }
      } else {
        var rest := Insert(m, sorted[1..], leq);
        InsertAscending(m, sorted[1..], leq);
        InsertMembers(m, sorted[1..], leq);
        forall i | 0 <= i < |rest|
          ensures leq(sorted[0].key, rest[i].key) && !leq(rest[i].key, sorted[0].key)
        {
          assert rest[i] in rest;
        }
      }
    }
  }

  lemma {:induction false} SortMembers(fields: seq<Member>, leq: KeyOrder)
    ensures forall x :: x in SortByKey(fields, leq) <==> x in fields
  {
    if fields != [] {
      SortMembers(fields[1..], leq);
      InsertMembers(fields[0], SortByKey(fields[1..], leq), leq);
      assert fields == [fields[0]] + fields[1..];
    }
  }

  lemma {:induction false} SortAscending(fields: seq<Member>, leq: KeyOrder)
    requires Preorder(leq) && UntiedMembers(fields, leq)
    ensures Ascending(SortByKey(fields, leq), leq)
  {
    if fields != [] {
      SortAscending(fields[1..], leq);
      SortMembers(fields[1..], leq);
      forall x | x in fields[1..] ensures !Tied(leq, fields[0].key, x.key) {
        var i :| 0 <= i < |fields| - 1 && fields[1..][i] == x;
        assert fields[i + 1] == x;
      }
      InsertAscending(fields[0], SortByKey(fields[1..], leq), leq);
    }
  }

  /** An ascending list is determined by its members. */
  lemma {:induction false} AscendingUnique(s: seq<Member>, t: seq<Member>, leq: KeyOrder)
    requires Ascending(s, leq) && Ascending(t, leq)
    requires forall x :: x in s <==> x in t
    ensures s == t
  {
    if s == [] {
      HasFirst(t);
    } else {
      assert s[0] in t && t != [] && t[0] in s;
      assert s[0] == t[0];
      forall x ensures x in s[1..] <==> x in t[1..] {
        TailMembers(s, leq, x);
        TailMembers(t, leq, x);
      }
      AscendingUnique(s[1..], t[1..], leq);
      assert s == [s[0]] + s[1..] && t == [t[0]] + t[1..];
    }
  }

  lemma HasFirst(s: seq<Member>)
    ensures s != [] ==> exists x :: x in s
  {
    if s != [] {
      assert s[0] in s;
    }
  }

  lemma TailMembers(s: seq<Member>, leq: KeyOrder, x: Member)
    requires s != [] && Ascending(s, leq)
    ensures x in s[1..] <==> x in s && x != s[0]
  {
  }

  // ---------- canonical forms are equal exactly for equivalent values ----------

  /** Equal canonical forms of the values of two objects come from equivalent values. */
  ghost predicate EqualMeansEquivalent(xs: seq<Member>, ys: seq<Member>, leq: KeyOrder) {
    forall i, j :: 0 <= i < |xs| && 0 <= j < |ys| ==>
      (Canonicalize(xs[i].value, leq) == Canonicalize(ys[j].value, leq) ==> Equivalent(xs[i].value, ys[j].value))
  }

  ghost predicate EquivalentMeansEqual(xs: seq<Member>, ys: seq<Member>, leq: KeyOrder) {
    forall i, j :: 0 <= i < |xs| && 0 <= j < |ys| ==>
      (Equivalent(xs[i].value, ys[j].value) ==> Canonicalize(xs[i].value, leq) == Canonicalize(ys[j].value, leq))
  }

  /** Whatever the order of keys, values with one canonical form are equivalent. */
  lemma {:induction false} CanonicalMeansEquivalent(a: Json, b: Json, leq: KeyOrder)
    requires Canonicalize(a, leq) == Canonicalize(b, leq)
    ensures Equivalent(a, b)
    decreases a
  {
    hide SortByKey;
    match (a, b)
    case (Arr(xs), Arr(ys)) =>
      CanonicalItemsAt(xs, leq);
      CanonicalItemsAt(ys, leq);
      forall i | 0 <= i < |xs| ensures Equivalent(xs[i], ys[i]) {
        CanonicalMeansEquivalent(xs[i], ys[i], leq);
      }
    case (Obj(xs), Obj(ys)) =>
      forall i, j | 0 <= i < |xs| && 0 <= j < |ys|
        ensures Canonicalize(xs[i].value, leq) == Canonicalize(ys[j].value, leq) ==>
                  Equivalent(xs[i].value, ys[j].value)
      {
        if Canonicalize(xs[i].value, leq) == Canonicalize(ys[j].value, leq) {
          CanonicalMeansEquivalent(xs[i].value, ys[j].value, leq);
        }
      }
      assert EqualMeansEquivalent(xs, ys, leq);
      SortMembers(CanonicalFields(xs, leq), leq);
      SortMembers(CanonicalFields(ys, leq), leq);
      SameMembersEquivalent(xs, ys, leq);
    case _ =>
  }

  /** Where no object of a value has tied keys, every equivalent value has its canonical form. */
  lemma {:induction false} EquivalentMeansCanonical(a: Json, b: Json, leq: KeyOrder)
    requires Preorder(leq) && WellFormed(b) && Untied(a, leq) && Equivalent(a, b)
    ensures Canonicalize(a, leq) == Canonicalize(b, leq)
    decreases a
  {
    hide Preorder, SortByKey;
    match (a, b)
    case (Arr(xs), Arr(ys)) =>
      CanonicalItemsAt(xs, leq);
      CanonicalItemsAt(ys, leq);
      forall i | 0 <= i < |xs| ensures Canonicalize(xs[i], leq) == Canonicalize(ys[i], leq) {
        EquivalentMeansCanonical(xs[i], ys[i], leq);
      }
    case (Obj(xs), Obj(ys)) =>
      forall i, j | 0 <= i < |xs| && 0 <= j < |ys|
        ensures Equivalent(xs[i].value, ys[j].value) ==>
                  Canonicalize(xs[i].value, leq) == Canonicalize(ys[j].value, leq)
      {
        if Equivalent(xs[i].value, ys[j].value) {
          EquivalentMeansCanonical(xs[i].value, ys[j].value, leq);
        }
      }
      assert EquivalentMeansEqual(xs, ys, leq);
      ObjectsEqual(xs, ys, leq);
    case _ =>
  }

  lemma ObjectsEqual(xs: seq<Member>, ys: seq<Member>, leq: KeyOrder)
    requires Preorder(leq) && UntiedKeys(xs, leq) && DistinctKeys(ys) && EquivalentMeansEqual(xs, ys, leq)
    requires Equivalent(Obj(xs), Obj(ys))
    ensures Canonicalize(Obj(xs), leq) == Canonicalize(Obj(ys), leq)
  {
    hide Preorder, SortByKey, CanonicalFields, DistinctKeys, UntiedKeys, Equivalent, EquivalentMeansEqual;
    var cx, cy := CanonicalFields(xs, leq), CanonicalFields(ys, leq);
    EquivalentSameMembers(xs, ys, leq);
    EquivalentKeysUntied(xs, ys, leq);
    CanonicalFieldsUntied(xs, leq);
    CanonicalFieldsUntied(ys, leq);
    SortMembers(cx, leq);
    SortMembers(cy, leq);
    SortAscending(cx, leq);
    SortAscending(cy, leq);
    AscendingUnique(SortByKey(cx, leq), SortByKey(cy, leq), leq);
  }

  lemma EquivalentKeysUntied(xs: seq<Member>, ys: seq<Member>, leq: KeyOrder)
    requires UntiedKeys(xs, leq) && DistinctKeys(ys) && Equivalent(Obj(xs), Obj(ys))
    ensures UntiedKeys(ys, leq)
  {
    hide HasEqual, EqualOf;
    forall i, j | 0 <= i < j < |ys| && ys[i].value != Undefined && ys[j].value != Undefined
      ensures !Tied(leq, ys[i].key, ys[j].key)
    {
      assert EqualOf(xs, ys[i]) && EqualOf(xs, ys[j]);
      var p := EqualOfAt(xs, ys[i]);
      var q := EqualOfAt(xs, ys[j]);
      assert if p < q then !Tied(leq, xs[p].key, xs[q].key) else !Tied(leq, xs[q].key, xs[p].key);
    }
  }

  /** Canonical forms are equal exactly for values equal up to key order and undefined fields, if no
      object of one of them has tied keys. */
  lemma CanonicalEqualIff(a: Json, b: Json, leq: KeyOrder)
    requires Preorder(leq) && WellFormed(b) && Untied(a, leq)
    ensures Canonicalize(a, leq) == Canonicalize(b, leq) <==> Equivalent(a, b)
  {
    hide Preorder, Canonicalize, Equivalent, WellFormed, Untied;
    if Canonicalize(a, leq) == Canonicalize(b, leq) {
      CanonicalMeansEquivalent(a, b, leq);
    }
    if Equivalent(a, b) {
      EquivalentMeansCanonical(a, b, leq);
    }
  }

  lemma SameMembersEquivalent(xs: seq<Member>, ys: seq<Member>, leq: KeyOrder)
    requires EqualMeansEquivalent(xs, ys, leq)
    requires forall m :: m in CanonicalFields(xs, leq) <==> m in CanonicalFields(ys, leq)
    ensures Equivalent(Obj(xs), Obj(ys))
  {
    hide CanonicalFields, Canonicalize, Matches, HasEqual, EqualOf;
    CoveredBy(xs, ys, leq);
    CoveredBy(ys, xs, leq);
    forall i | 0 <= i < |xs| && xs[i].value != Undefined ensures HasEqual(xs[i], ys) {
      var j :| 0 <= j < |ys| && Matches(xs[i].key, ys[j])
               && Canonicalize(xs[i].value, leq) == Canonicalize(ys[j].value, leq);
      IsEqual(xs[i], ys, j);
    }
    forall j | 0 <= j < |ys| && ys[j].value != Undefined ensures EqualOf(xs, ys[j]) {
      var i :| 0 <= i < |xs| && Matches(ys[j].key, xs[i])
               && Canonicalize(ys[j].value, leq) == Canonicalize(xs[i].value, leq);
      IsEqualOf(xs, ys[j], i);
    }
  }

  lemma IsEqual(m: Member, fields: seq<Member>, j: nat)
    requires j < |fields| && Matches(m.key, fields[j]) && Equivalent(m.value, fields[j].value)
    ensures HasEqual(m, fields)
  {
    hide Equivalent, Matches;
  }

  lemma IsEqualOf(fields: seq<Member>, m: Member, i: nat)
    requires i < |fields| && Matches(m.key, fields[i]) && Equivalent(fields[i].value, m.value)
    ensures EqualOf(fields, m)
  {
    hide Equivalent, Matches;
  }

  lemma EquivalentSameMembers(xs: seq<Member>, ys: seq<Member>, leq: KeyOrder)
    requires EquivalentMeansEqual(xs, ys, leq)
    requires Equivalent(Obj(xs), Obj(ys))
    ensures forall m :: m in CanonicalFields(xs, leq) <==> m in CanonicalFields(ys, leq)
  {
    hide CanonicalFields, Canonicalize, HasEqual, EqualOf;
    forall m ensures m in CanonicalFields(xs, leq) <==> m in CanonicalFields(ys, leq) {
      if m in CanonicalFields(xs, leq) {
        var i := CanonicalFieldsFrom(xs, leq, m);
        var j := EqualAt(xs[i], ys);
        CanonicalFieldsKeep(ys, leq, j);
      }
      if m in CanonicalFields(ys, leq) {
        var j := CanonicalFieldsFrom(ys, leq, m);
        var i := EqualOfAt(xs, ys[j]);
        CanonicalFieldsKeep(xs, leq, i);
      }
    }
  }

  lemma EqualAt(m: Member, fields: seq<Member>) returns (j: nat)
    requires HasEqual(m, fields)
    ensures j < |fields| && Matches(m.key, fields[j]) && Equivalent(m.value, fields[j].value)
  {
    hide Equivalent, Matches;
    var k :| 0 <= k < |fields| && Matches(m.key, fields[k]) && Equivalent(m.value, fields[k].value);
    j := k;
  }

  lemma EqualOfAt(fields: seq<Member>, m: Member) returns (i: nat)
    requires EqualOf(fields, m)
    ensures i < |fields| && Matches(m.key, fields[i]) && Equivalent(fields[i].value, m.value)
  {
    hide Equivalent, Matches;
    var k :| 0 <= k < |fields| && Matches(m.key, fields[k]) && Equivalent(fields[k].value, m.value);
    i := k;
  }

  /** Fields whose canonical members all occur among another object's have counterparts there. */
  lemma CoveredBy(xs: seq<Member>, ys: seq<Member>, leq: KeyOrder)
    requires forall m :: m in CanonicalFields(xs, leq) ==> m in CanonicalFields(ys, leq)
    ensures forall i :: 0 <= i < |xs| && xs[i].value != Undefined ==>
              exists j :: 0 <= j < |ys| && Matches(xs[i].key, ys[j])
                          && Canonicalize(xs[i].value, leq) == Canonicalize(ys[j].value, leq)
  {
    hide CanonicalFields, Canonicalize;
    forall i | 0 <= i < |xs| && xs[i].value != Undefined
      ensures exists j :: 0 <= j < |ys| && Matches(xs[i].key, ys[j])
                          && Canonicalize(xs[i].value, leq) == Canonicalize(ys[j].value, leq)
    {
      CanonicalFieldsKeep(xs, leq, i);
      var j := CanonicalFieldsFrom(ys, leq, Become(xs[i], leq));
      assert Matches(xs[i].key, ys[j]);
    }
  }

  // ---------- exactly when the order of keys does not matter ----------

  /** Both occur, the first one earlier. */
  ghost predicate Before(s: seq<Member>, x: Member, y: Member) {
    exists p, q :: 0 <= p < q < |s| && s[p] == x && s[q] == y
  }

  lemma BeforeAt(s: seq<Member>, p: nat, q: nat)
    requires p < q < |s|
    ensures Before(s, s[p], s[q])
  {
  }

  lemma BeforeTail(s: seq<Member>, x: Member, y: Member)
    requires s != [] && Before(s, x, y)
    ensures if s[0] == x && y in s[1..] then true else Before(s[1..], x, y)
  {
    var p, q :| 0 <= p < q < |s| && s[p] == x && s[q] == y;
    assert s[1..][q - 1] == y;
    if p > 0 {
      BeforeAt(s[1..], p - 1, q - 1);
    }
  }

  lemma BeforeCons(h: Member, s: seq<Member>, x: Member, y: Member)
    ensures Before(s, x, y) ==> Before([h] + s, x, y)
    ensures h == x && y in s ==> Before([h] + s, x, y)
  {
    var longer := [h] + s;
    if Before(s, x, y) {
      var p, q :| 0 <= p < q < |s| && s[p] == x && s[q] == y;
      BeforeAt(longer, p + 1, q + 1);
    }
    if h == x && y in s {
      var q :| 0 <= q < |s| && s[q] == y;
      BeforeAt(longer, 0, q + 1);
    }
  }

  /** A member is inserted before all that it is at most. */
  lemma {:induction false} InsertedBefore(m: Member, sorted: seq<Member>, leq: KeyOrder, y: Member)
    requires y in sorted && leq(m.key, y.key)
    ensures Before(Insert(m, sorted, leq), m, y)
  {
    hide Before;
    if leq(m.key, sorted[0].key) {
      BeforeCons(m, sorted, m, y);
    } else {
      InsertedBefore(m, sorted[1..], leq, y);
      BeforeCons(sorted[0], Insert(m, sorted[1..], leq), m, y);
    }
  }

  lemma {:induction false} InsertKeepsBefore(m: Member, sorted: seq<Member>, leq: KeyOrder, x: Member, y: Member)
    requires Before(sorted, x, y)
    ensures Before(Insert(m, sorted, leq), x, y)
  {
    hide Before;
    BeforeSome(sorted, x, y);
    if leq(m.key, sorted[0].key) {
      BeforeCons(m, sorted, x, y);
    } else {
      BeforeTail(sorted, x, y);
      var rest := Insert(m, sorted[1..], leq);
      InsertMembers(m, sorted[1..], leq);
      BeforeCons(sorted[0], rest, x, y);
      if !(sorted[0] == x && y in sorted[1..]) {
        InsertKeepsBefore(m, sorted[1..], leq, x, y);
      }
    }
  }

  lemma BeforeSome(s: seq<Member>, x: Member, y: Member)
    requires Before(s, x, y)
    ensures s != []
  {
  }

  /** Sorting keeps tied members in the order they had. */
  lemma {:induction false} SortStable(fields: seq<Member>, leq: KeyOrder, x: Member, y: Member)
    requires Before(fields, x, y) && leq(x.key, y.key)
    ensures Before(SortByKey(fields, leq), x, y)
  {
    hide Before;
    BeforeSome(fields, x, y);
    BeforeTail(fields, x, y);
    var rest := SortByKey(fields[1..], leq);
    if fields[0] == x && y in fields[1..] {
      SortMembers(fields[1..], leq);
      InsertedBefore(x, rest, leq, y);
    } else {
      SortStable(fields[1..], leq, x, y);
      InsertKeepsBefore(fields[0], rest, leq, x, y);
    }
  }

  lemma {:induction false} SortDistinct(fields: seq<Member>, leq: KeyOrder)
    requires DistinctKeys(fields)
    ensures DistinctKeys(SortByKey(fields, leq))
  {
    if fields != [] {
      SortDistinct(fields[1..], leq);
      SortMembers(fields[1..], leq);
      forall x | x in fields[1..] ensures x.key != fields[0].key {
      }
      InsertDistinct(fields[0], SortByKey(fields[1..], leq), leq);
    }
  }

  lemma {:induction false} InsertDistinct(m: Member, sorted: seq<Member>, leq: KeyOrder)
    requires DistinctKeys(sorted) && forall x :: x in sorted ==> x.key != m.key
    ensures DistinctKeys(Insert(m, sorted, leq))
  {
    if sorted != [] {
      InsertMembers(m, sorted[1..], leq);
      if leq(m.key, sorted[0].key) {
        assert forall i :: 0 <= i < |sorted| ==> sorted[i] in sorted;
      } else {
        InsertDistinct(m, sorted[1..], leq);
        var rest := Insert(m, sorted[1..], leq);
        assert sorted[0] in sorted;
        forall i | 0 <= i < |rest| ensures rest[i].key != sorted[0].key {
          assert rest[i] in rest;
        }
      }
    }
  }

  lemma NotBothBefore(s: seq<Member>, x: Member, y: Member)
    requires DistinctKeys(s) && Before(s, x, y)
    ensures !Before(s, y, x)
  {
  }

  lemma {:induction false} CanonicalFieldsBefore(fields: seq<Member>, leq: KeyOrder, i: nat, j: nat)
    requires i < j < |fields| && fields[i].value != Undefined && fields[j].value != Undefined
    ensures Before(CanonicalFields(fields, leq), Become(fields[i], leq), Become(fields[j], leq))
  {
    hide Canonicalize, Before;
    var x, y := Become(fields[i], leq), Become(fields[j], leq);
    if i == 0 {
      CanonicalFieldsKeep(fields[1..], leq, j - 1);
      BeforeCons(x, CanonicalFields(fields[1..], leq), x, y);
    } else {
      CanonicalFieldsBefore(fields[1..], leq, i - 1, j - 1);
      BeforeCons(Become(fields[0], leq), CanonicalFields(fields[1..], leq), x, y);
    }
  }

  lemma {:induction false} CanonicalFieldsDistinct(fields: seq<Member>, leq: KeyOrder)
    requires DistinctKeys(fields)
    ensures DistinctKeys(CanonicalFields(fields, leq))
  {
    hide Canonicalize;
    if fields != [] {
      CanonicalFieldsDistinct(fields[1..], leq);
      forall m | m in CanonicalFields(fields[1..], leq) ensures m.key != fields[0].key {
        var i := CanonicalFieldsFrom(fields[1..], leq, m);
        assert fields[i + 1].key == m.key;
      }
    }
  }

  lemma {:induction false} EquivalentToItself(v: Json)
    ensures Equivalent(v, v)
    decreases v
  {
    match v
    case Arr(items) =>
      forall i | 0 <= i < |items| ensures Equivalent(items[i], items[i]) {
        EquivalentToItself(items[i]);
      }
    case Obj(fields) =>
      forall i | 0 <= i < |fields| && fields[i].value != Undefined
        ensures HasEqual(fields[i], fields) && EqualOf(fields, fields[i])
      {
        EquivalentToItself(fields[i].value);
        IsEqual(fields[i], fields, i);
        IsEqualOf(fields, fields[i], i);
      }
    case _ =>
  }

  /** An object with two of its fields exchanged. */
  function Exchanged(fields: seq<Member>, i: nat, j: nat): seq<Member>
    requires i < |fields| && j < |fields|
  {
    fields[i := fields[j]][j := fields[i]]
  }

  lemma ExchangedEquivalent(fields: seq<Member>, i: nat, j: nat)
    requires i < j < |fields|
    ensures Equivalent(Obj(fields), Obj(Exchanged(fields, i, j)))
    ensures WellFormed(Obj(fields)) ==> WellFormed(Obj(Exchanged(fields, i, j)))
  {
    hide HasEqual, EqualOf;
    var other := Exchanged(fields, i, j);
    forall k | 0 <= k < |fields| && fields[k].value != Undefined ensures HasEqual(fields[k], other) {
      EquivalentToItself(fields[k].value);
      IsEqual(fields[k], other, if k == i then j else if k == j then i else k);
    }
    forall k | 0 <= k < |fields| && other[k].value != Undefined ensures EqualOf(fields, other[k]) {
      EquivalentToItself(other[k].value);
      IsEqualOf(fields, other[k], if k == i then j else if k == j then i else k);
    }
  }

  /** Exchanging two tied fields gives an equivalent object with another canonical form. */
  lemma TiedKeysMatter(fields: seq<Member>, leq: KeyOrder, i: nat, j: nat)
    requires WellFormed(Obj(fields)) && i < j < |fields|
    requires fields[i].value != Undefined && fields[j].value != Undefined
    requires Tied(leq, fields[i].key, fields[j].key)
    ensures var other := Obj(Exchanged(fields, i, j));
            && WellFormed(other) && Equivalent(Obj(fields), other)
            && Canonicalize(Obj(fields), leq) != Canonicalize(other, leq)
  {
    hide Before, CanonicalFields, SortByKey, Equivalent;
    var other := Exchanged(fields, i, j);
    ExchangedEquivalent(fields, i, j);
    var x, y := Become(fields[i], leq), Become(fields[j], leq);
    CanonicalFieldsBefore(fields, leq, i, j);
    CanonicalFieldsBefore(other, leq, i, j);
    SortStable(CanonicalFields(fields, leq), leq, x, y);
    SortStable(CanonicalFields(other, leq), leq, y, x);
    CanonicalFieldsDistinct(fields, leq);
    SortDistinct(CanonicalFields(fields, leq), leq);
    NotBothBefore(SortByKey(CanonicalFields(fields, leq), leq), x, y);
  }

  /** Replacing a field's value by an equivalent one with another canonical form does the same to the object. */
  lemma FieldMatters(fields: seq<Member>, leq: KeyOrder, i: nat, value: Json)
    requires WellFormed(Obj(fields)) && i < |fields| && WellFormed(value)
    requires fields[i].value != Undefined && Equivalent(fields[i].value, value)
    requires Canonicalize(fields[i].value, leq) != Canonicalize(value, leq)
    ensures var other := Obj(fields[i := Member(fields[i].key, value)]);
            && WellFormed(other) && Equivalent(Obj(fields), other)
            && Canonicalize(Obj(fields), leq) != Canonicalize(other, leq)
  {
    hide CanonicalFields, SortByKey, HasEqual, EqualOf;
    var other := fields[i := Member(fields[i].key, value)];
    FieldReplacedEquivalent(fields, i, value);
    var x := Become(fields[i], leq);
    CanonicalFieldsKeep(fields, leq, i);
    SortMembers(CanonicalFields(fields, leq), leq);
    SortMembers(CanonicalFields(other, leq), leq);
    if x in CanonicalFields(other, leq) {
      var k := CanonicalFieldsFrom(other, leq, x);
    }
  }

  lemma FieldReplacedEquivalent(fields: seq<Member>, i: nat, value: Json)
    requires i < |fields| && fields[i].value != Undefined && Equivalent(fields[i].value, value)
    ensures value != Undefined
    ensures Equivalent(Obj(fields), Obj(fields[i := Member(fields[i].key, value)]))
  {
    hide HasEqual, EqualOf;
    var other := fields[i := Member(fields[i].key, value)];
    forall k | 0 <= k < |fields| && fields[k].value != Undefined ensures HasEqual(fields[k], other) {
      EquivalentToItself(fields[k].value);
      IsEqual(fields[k], other, k);
    }
    forall k | 0 <= k < |fields| && other[k].value != Undefined ensures EqualOf(fields, other[k]) {
      EquivalentToItself(fields[k].value);
      IsEqualOf(fields, other[k], k);
    }
  }

  /** And replacing an item does the same to a list. */
  lemma ItemMatters(items: seq<Json>, leq: KeyOrder, i: nat, item: Json)
    requires WellFormed(Arr(items)) && i < |items| && WellFormed(item) && Equivalent(items[i], item)
    requires Canonicalize(items[i], leq) != Canonicalize(item, leq)
    ensures var other := Arr(items[i := item]);
            && WellFormed(other) && Equivalent(Arr(items), other)
            && Canonicalize(Arr(items), leq) != Canonicalize(other, leq)
  {
    var others := items[i := item];
    CanonicalItemsAt(items, leq);
    CanonicalItemsAt(others, leq);
    forall k | 0 <= k < |items| ensures Equivalent(items[k], others[k]) {
      EquivalentToItself(items[k]);
    }
    assert CanonicalItems(items, leq)[i] != CanonicalItems(others, leq)[i];
  }

  /** A value in which some object has tied keys has an equivalent value with another canonical form. */
  lemma {:induction false} TiedValueMatters(v: Json, leq: KeyOrder) returns (other: Json)
    requires WellFormed(v) && !Untied(v, leq)
    ensures WellFormed(other) && Equivalent(v, other) && Canonicalize(v, leq) != Canonicalize(other, leq)
    decreases v
  {
    hide Canonicalize, Equivalent;
    match v
    case Arr(items) =>
      var i :| 0 <= i < |items| && !Untied(items[i], leq);
      var item := TiedValueMatters(items[i], leq);
      other := Arr(items[i := item]);
      ItemMatters(items, leq, i, item);
    case Obj(fields) =>
      if !UntiedKeys(fields, leq) {
        var i, j :| 0 <= i < j < |fields| && fields[i].value != Undefined && fields[j].value != Undefined
                    && Tied(leq, fields[i].key, fields[j].key);
        other := Obj(Exchanged(fields, i, j));
        TiedKeysMatter(fields, leq, i, j);
      } else {
        var i :| 0 <= i < |fields| && !Untied(fields[i].value, leq);
        var value := TiedValueMatters(fields[i].value, leq);
        other := Obj(fields[i := Member(fields[i].key, value)]);
        FieldMatters(fields, leq, i, value);
      }
    case _ => assert false;
  }

  /** The canonical form is independent of key order and undefined fields exactly for the values no
      object of which has tied keys. */
  lemma OrderIrrelevantIff(v: Json, leq: KeyOrder)
    requires Preorder(leq) && WellFormed(v)
    ensures (forall w :: WellFormed(w) && Equivalent(v, w) ==> Canonicalize(v, leq) == Canonicalize(w, leq))
        <==> Untied(v, leq)
  {
    hide Preorder, Canonicalize, Equivalent, WellFormed, Untied;
    if Untied(v, leq) {
      forall w | WellFormed(w) && Equivalent(v, w) ensures Canonicalize(v, leq) == Canonicalize(w, leq) {
        EquivalentMeansCanonical(v, w, leq);
      }
    } else {
      var other := TiedValueMatters(v, leq);
    }
  }

  // ---------- the content hash ----------

  /** What the packet code relies on: the order keys are sorted by, the digest of a canonical
      value, and the schema of a packet without its hash, which rejects a value or normalises it. */
  datatype Platform = Platform(leq: KeyOrder, digest: Json -> string, payload: Json -> Option<seq<Member>>)

  const HASH := "contentHash"

  predicate IsHash(v: Json) { v.Str? && |v.s| == 64 && forall i :: 0 <= i < 64 ==> HexDigit(v.s[i]) }

  predicate HexDigit(c: char) { '0' <= c <= '9' || 'a' <= c <= 'f' }

  /** A payload as the schema leaves it: each key once, no hash field, and accepted as it is. */
  ghost predicate Normalised(p: Platform, fields: seq<Member>) {
    && WellFormed(Obj(fields))
    && (forall i :: 0 <= i < |fields| ==> fields[i].key != HASH)
    && p.payload(Obj(fields)) == Some(fields)
  }

  /** Two values with different canonical forms but one digest. */
  ghost predicate Collision(p: Platform, v: Json, w: Json) {
    p.digest(Canonicalize(v, p.leq)) == p.digest(Canonicalize(w, p.leq))
    && Canonicalize(v, p.leq) != Canonicalize(w, p.leq)
  }

  /** What a packet's hash is taken of: its normalised payload. */
  function Hashable(p: Platform, fields: seq<Member>): Json {
    Obj(p.payload(Obj(WithoutHash(fields))).GetOr([]))
  }

  /** Digests have the form the schema demands, and the schema normalises what it accepts. */
  ghost predicate Sound(p: Platform) {
    && (forall v :: IsHash(Str(p.digest(v))))
    && (forall v :: p.payload(v).Some? ==> Normalised(p, p.payload(v).value))
  }

  function Lookup(fields: seq<Member>, key: string): Json {
    if fields == [] then Undefined
    else if fields[0].key == key then fields[0].value
    else Lookup(fields[1..], key)
  }

  function WithoutHash(fields: seq<Member>): seq<Member> {
    if fields == [] then []
    else (if fields[0].key == HASH then [] else [fields[0]]) + WithoutHash(fields[1..])
  }

  function ComputeHash(p: Platform, fields: seq<Member>): Option<string> {
    match p.payload(Obj(WithoutHash(fields)))
    case Some(hashable) => Some(p.digest(Canonicalize(Obj(hashable), p.leq)))
    case None => None
  }

  function PacketSchema(p: Platform, v: Json): Option<seq<Member>> {
    if !v.Obj? || !IsHash(Lookup(v.fields, HASH)) then None
    else
      match p.payload(Obj(WithoutHash(v.fields)))
      case Some(fields) => Some(fields + [Member(HASH, Lookup(v.fields, HASH))])
      case None => None
  }

  /** The parsed packet, or nothing when the schema or the hash is violated. */
  function Parse(p: Platform, v: Json): Option<seq<Member>> {
    match PacketSchema(p, v)
    case Some(packet) =>
      var expected := ComputeHash(p, packet);
      if expected.Some? && Lookup(packet, HASH) == Str(expected.value) then Some(packet) else None
    case None => None
  }

  /** The packet compiled from a payload, or nothing when the schema rejects the payload. */
  function Compile(p: Platform, payload: seq<Member>): Option<seq<Member>> {
    match ComputeHash(p, payload)
    case Some(hash) => Some(payload + [Member(HASH, Str(hash))])
    case None => None
  }

  lemma {:induction false} WithoutHashOf(fields: seq<Member>, hash: Json)
    requires forall i :: 0 <= i < |fields| ==> fields[i].key != HASH
    ensures WithoutHash(fields) == fields
    ensures WithoutHash(fields + [Member(HASH, hash)]) == fields
    ensures Lookup(fields + [Member(HASH, hash)], HASH) == hash
  {
    if fields == [] {
      assert fields + [Member(HASH, hash)] == [Member(HASH, hash)];
    } else {
      WithoutHashOf(fields[1..], hash);
      assert (fields + [Member(HASH, hash)])[1..] == fields[1..] + [Member(HASH, hash)];
    }
  }

  /** A packet is accepted exactly when its schema accepts it and its hash is that of the rest. */
  lemma ParseAcceptsIff(p: Platform, v: Json)
    requires Sound(p)
    ensures Parse(p, v).Some? <==>
            v.Obj? && ComputeHash(p, v.fields).Some?
            && Lookup(v.fields, HASH) == Str(ComputeHash(p, v.fields).value)
    ensures Parse(p, v).Some? ==>
              && Parse(p, v).value[|Parse(p, v).value| - 1] == Member(HASH, Lookup(v.fields, HASH))
              && Some(WithoutHash(Parse(p, v).value)) == p.payload(Obj(WithoutHash(v.fields)))
  {
    hide Collision, Canonicalize, WellFormed;
    if v.Obj? {
      var schema := p.payload(Obj(WithoutHash(v.fields)));
      if schema.Some? {
        assert Normalised(p, schema.value);
        WithoutHashOf(schema.value, Lookup(v.fields, HASH));
      }
    }
  }

  /** Every packet the compiler returns is accepted, with the normalised payload it was given. */
  lemma CompiledIsAccepted(p: Platform, payload: seq<Member>)
    requires Sound(p)
    requires forall i :: 0 <= i < |payload| ==> payload[i].key != HASH
    ensures Compile(p, payload).Some? ==>
              && Parse(p, Obj(Compile(p, payload).value)).Some?
              && Some(WithoutHash(Parse(p, Obj(Compile(p, payload).value)).value)) == p.payload(Obj(payload))
    ensures Compile(p, payload).Some? <==> p.payload(Obj(payload)).Some?
  {
    hide Sound, Parse, Canonicalize;
    WithoutHashOf(payload, Undefined);
    if Compile(p, payload).Some? {
      var packet := Compile(p, payload).value;
      WithoutHashOf(payload, packet[|packet| - 1].value);
      ParseAcceptsIff(p, Obj(packet));
    }
  }

  /** Parsing an accepted packet again changes nothing. */
  lemma ParseIdempotent(p: Platform, v: Json)
    requires Sound(p) && Parse(p, v).Some?
    ensures Parse(p, Obj(Parse(p, v).value)) == Parse(p, v)
  {
    hide Collision, Canonicalize, WellFormed, IsHash;
    var schema := p.payload(Obj(WithoutHash(v.fields)));
    assert Normalised(p, schema.value);
    WithoutHashOf(schema.value, Lookup(v.fields, HASH));
  }

  /** The hash ignores the hash field, the order of keys that are not tied, and undefined fields: then
      equivalent payloads have one hash. It ignores nothing else: payloads with one hash are
      equivalent or collide. */
  lemma HashEqualIff(p: Platform, a: seq<Member>, b: seq<Member>)
    requires Sound(p) && ComputeHash(p, a).Some? && ComputeHash(p, b).Some?
    ensures Preorder(p.leq) && Untied(Hashable(p, a), p.leq) && Equivalent(Hashable(p, a), Hashable(p, b)) ==>
              ComputeHash(p, a) == ComputeHash(p, b)
    ensures ComputeHash(p, a) == ComputeHash(p, b) ==>
              Equivalent(Hashable(p, a), Hashable(p, b)) || Collision(p, Hashable(p, a), Hashable(p, b))
  {
    hide Preorder, Untied, Canonicalize, WellFormed, Equivalent, IsHash;
    var x, y := p.payload(Obj(WithoutHash(a))).value, p.payload(Obj(WithoutHash(b))).value;
    assert Normalised(p, x) && Normalised(p, y);
    if Canonicalize(Obj(x), p.leq) == Canonicalize(Obj(y), p.leq) {
      CanonicalMeansEquivalent(Obj(x), Obj(y), p.leq);
    }
    if Preorder(p.leq) && Untied(Obj(x), p.leq) {
      CanonicalEqualIff(Obj(x), Obj(y), p.leq);
    }
  }

  /** Accepted packets with equivalent payloads without tied keys carry one hash; those that carry one
      hash have equivalent payloads, or payloads that collide. */
  lemma AcceptedHashIdentifies(p: Platform, v: Json, w: Json)
    requires Sound(p) && Parse(p, v).Some? && Parse(p, w).Some?
    ensures var a, b := Obj(WithoutHash(Parse(p, v).value)), Obj(WithoutHash(Parse(p, w).value));
            && (Preorder(p.leq) && Untied(a, p.leq) && Equivalent(a, b) ==>
                  Lookup(v.fields, HASH) == Lookup(w.fields, HASH))
            && (Lookup(v.fields, HASH) == Lookup(w.fields, HASH) ==> Equivalent(a, b) || Collision(p, a, b))
  {
    hide Sound, Parse, Equivalent, Collision, Preorder, Untied;
    ParseAcceptsIff(p, v);
    ParseAcceptsIff(p, w);
    HashEqualIff(p, v.fields, w.fields);
  }
}
