/**
 Which texts of a configuration tree the replacement of secret literals touches, said place by place:
 by the name of the field that holds a text, or of the credential pool's list it is in.
 */
module SecretTexts {
  import opened Wrappers
  import opened ServiceCredentials

  /** The names under which a text is a secret. */
  predicate SecretName(key: string) {
    LowerText(key) in ["api_key", "api-key", "apikey", "token", "access_token",
                       "password", "password_hash", "secret", "private_key"]
  }

  /** The names under which a list inside a credential pool is one of secrets. */
  predicate PoolName(path: Path, key: string) {
    && LowerText(key) in ["keys", "api_keys", "tokens"]
    && exists part :: part in path && LowerText(part) in ["credential_pool_strategies", "credential_pools"]
  }

  /** The tree holds this text at this path, in a place for secrets or in another one; the tree itself may
      be a pool's list of secrets. */
  ghost predicate TextAt(v: Tree, path: Path, pool: bool, at: Path, s: string, secret: bool)
    decreases v, 0
  {
    match v
    case Dict(fields) => exists i :: 0 <= i < |fields| && FieldText(fields[i], path, at, s, secret)
    case List(items) => exists i :: 0 <= i < |items| && ItemText(items[i], path, pool, i, at, s, secret)
    case _ => false
  }

  ghost predicate FieldText(f: Field, path: Path, at: Path, s: string, secret: bool)
    decreases f, 1
  {
    || (f.child == Text(s) && at == path + [f.key] && secret == SecretName(f.key))
    || TextAt(f.child, path + [f.key], PoolName(path, f.key), at, s, secret)
  }

  ghost predicate ItemText(item: Tree, path: Path, pool: bool, i: nat, at: Path, s: string, secret: bool)
    decreases item, 1
  {
    || (item == Text(s) && at == path + [Decimal(i)] && secret == pool)
    || TextAt(item, path + [Decimal(i)], false, at, s, secret)
  }

  /** There is no secret in the text: it is blank or a reference. */
  predicate Harmless(s: string) { Strip(s) == [] || EnvReference(s) }

  /** The replacement of a tree that may be a pool's list of secrets. */
  function ReplaceIn(v: Tree, path: Path, pool: bool): Tree {
    if pool && v.List? then List(ReplacePool(v.items, path, 0)) else Replace(v, path)
  }

  lemma NamesAgree(path: Path, f: Field)
    ensures SecretName(f.key) <==> SecretField(f.key)
    ensures PoolList(path, f) <==> f.child.List? && PoolName(path, f.key)
  {
    if exists part :: part in path && LowerText(part) in ["credential_pool_strategies", "credential_pools"] {
      var part :| part in path && LowerText(part) in ["credential_pool_strategies", "credential_pools"];
      var i :| 0 <= i < |path| && path[i] == part;
      assert PoolPath(path);
    }
  }

  lemma LiteralIff(s: string)
    ensures Literal(Text(s)) <==> !Harmless(s)
  {
  }

  lemma ReplacedIs(path: Path)
    ensures Replaced(path).Text? && Harmless(Replaced(path).s)
  {
    ReferenceNotBlank(EnvironmentName(path));
  }

  lemma {:induction false} ReplaceFieldsAt(fields: seq<Field>, path: Path, i: nat)
    requires i < |fields|
    ensures |ReplaceFields(fields, path)| == |fields|
    ensures ReplaceFields(fields, path)[i] ==
            Field(fields[i].key,
                  if SecretName(fields[i].key) && Literal(fields[i].child) then Replaced(path + [fields[i].key])
                  else ReplaceIn(fields[i].child, path + [fields[i].key], PoolName(path, fields[i].key)))
  {
    hide SecretField, SecretName, PoolName, PoolList, Literal, Replaced, Replace, ReplacePool;
    if i == 0 {
      NamesAgree(path, fields[0]);
    }
    if |fields| > 1 {
      ReplaceFieldsAt(fields[1..], path, if i == 0 then 0 else i - 1);
    }
  }

  lemma {:induction false} ReplaceItemsAt(items: seq<Tree>, path: Path, index: nat, i: nat)
    requires i < |items|
    ensures |ReplaceItems(items, path, index)| == |items| == |ReplacePool(items, path, index)|
    ensures ReplaceItems(items, path, index)[i] == Replace(items[i], path + [Decimal(index + i)])
    ensures ReplacePool(items, path, index)[i] ==
            if Literal(items[i]) then Replaced(path + [Decimal(index + i)])
            else Replace(items[i], path + [Decimal(index + i)])
  {
    hide Literal, Replaced, Replace, Decimal;
    if |items| > 1 {
      ReplaceItemsAt(items[1..], path, index + 1, if i == 0 then 0 else i - 1);
    }
  }

  lemma ReplaceAt(v: Tree, path: Path, pool: bool, i: nat)
    ensures v.Dict? && i < |v.fields| ==>
              var r, f := ReplaceIn(v, path, pool), v.fields[i];
              r.Dict? && i < |r.fields| && r.fields[i] ==
                Field(f.key, if SecretName(f.key) && Literal(f.child) then Replaced(path + [f.key])
                             else ReplaceIn(f.child, path + [f.key], PoolName(path, f.key)))
    ensures v.List? && i < |v.items| ==>
              var r, p := ReplaceIn(v, path, pool), path + [Decimal(i)];
              r.List? && i < |r.items| && r.items[i] ==
                if pool && Literal(v.items[i]) then Replaced(p) else ReplaceIn(v.items[i], p, false)
  {
    hide SecretName, PoolName, Literal, Replaced, Decimal;
    if v.Dict? && i < |v.fields| {
      ReplaceFieldsAt(v.fields, path, i);
    } else if v.List? && i < |v.items| {
      ReplaceItemsAt(v.items, path, 0, i);
    }
  }

  /** The replacement has the shape of the tree. */
  lemma ShapeKept(v: Tree, path: Path, pool: bool)
    ensures var r := ReplaceIn(v, path, pool);
      && (v.Dict? ==> r.Dict? && |r.fields| == |v.fields|)
      && (v.List? ==> r.List? && |r.items| == |v.items|)
      && (!v.Dict? && !v.List? ==> r == v)
  {
    match v
    case Dict(fields) => if fields != [] { ReplaceFieldsAt(fields, path, 0); }
    case List(items) =>
      if items == [] {
        assert ReplaceItems([], path, 0) == ReplacePool([], path, 0) == [];
      } else {
        ReplaceItemsAt(items, path, 0, 0);
      }
    case _ =>
  }

  /** A field after replacement holds no secret itself: it may only be in what its child became. */
  lemma FieldCleared(f: Field, r: Field, path: Path, at: Path, s: string)
    requires var p, pool := path + [f.key], PoolName(path, f.key);
             r == Field(f.key, if SecretName(f.key) && Literal(f.child) then Replaced(p) else ReplaceIn(f.child, p, pool))
    requires FieldText(r, path, at, s, true)
    ensures var p, pool := path + [f.key], PoolName(path, f.key);
            Harmless(s) || TextAt(ReplaceIn(f.child, p, pool), p, pool, at, s, true)
  {
    hide SecretName, PoolName, Harmless, Replaced, Literal, ReplaceIn;
    ReplacedIs(path + [f.key]);
    LiteralIff(s);
    ShapeKept(f.child, path + [f.key], PoolName(path, f.key));
  }

  lemma ItemCleared(item: Tree, r: Tree, path: Path, pool: bool, i: nat, at: Path, s: string)
    requires var p := path + [Decimal(i)];
             r == if pool && Literal(item) then Replaced(p) else ReplaceIn(item, p, false)
    requires ItemText(r, path, pool, i, at, s, true)
    ensures var p := path + [Decimal(i)]; Harmless(s) || TextAt(ReplaceIn(item, p, false), p, false, at, s, true)
  {
    hide Harmless, Decimal, Replaced, Literal, ReplaceIn;
    ReplacedIs(path + [Decimal(i)]);
    LiteralIff(s);
    ShapeKept(item, path + [Decimal(i)], false);
  }

  /** After replacement, every text in a place for secrets is blank or a reference. */
  lemma {:induction false} SecretPlacesCleared(v: Tree, path: Path, pool: bool, at: Path, s: string)
    requires TextAt(ReplaceIn(v, path, pool), path, pool, at, s, true)
    ensures Harmless(s)
    decreases v
  {
    hide SecretName, PoolName, Harmless, Decimal, Replaced, Literal, FieldText, ItemText, ReplaceIn;
    ShapeKept(v, path, pool);
    var r := ReplaceIn(v, path, pool);
    if v.Dict? {
      var i :| 0 <= i < |r.fields| && FieldText(r.fields[i], path, at, s, true);
      var f := v.fields[i];
      ReplaceAt(v, path, pool, i);
      FieldCleared(f, r.fields[i], path, at, s);
      if !Harmless(s) {
        SecretPlacesCleared(f.child, path + [f.key], PoolName(path, f.key), at, s);
      }
    } else if v.List? {
      var i :| 0 <= i < |r.items| && ItemText(r.items[i], path, pool, i, at, s, true);
      ReplaceAt(v, path, pool, i);
      ItemCleared(v.items[i], r.items[i], path, pool, i, at, s);
      if !Harmless(s) {
        SecretPlacesCleared(v.items[i], path + [Decimal(i)], false, at, s);
      }
    }
  }

  /** Every other text, and every secret that is blank or a reference already, stays where it is. */
  lemma {:induction false} OtherTextsStay(v: Tree, path: Path, pool: bool, at: Path, s: string, secret: bool)
    requires TextAt(v, path, pool, at, s, secret) && (secret ==> Harmless(s))
    ensures TextAt(ReplaceIn(v, path, pool), path, pool, at, s, secret)
    decreases v
  {
    hide SecretName, PoolName, Harmless, Decimal, Replaced, Literal, ReplaceIn;
    ShapeKept(v, path, pool);
    var r := ReplaceIn(v, path, pool);
    LiteralIff(s);
    if v.Dict? {
      var i :| 0 <= i < |v.fields| && FieldText(v.fields[i], path, at, s, secret);
      var f := v.fields[i];
      ReplaceAt(v, path, pool, i);
      ShapeKept(f.child, path + [f.key], PoolName(path, f.key));
      LiteralIsText(f.child);
      if TextAt(f.child, path + [f.key], PoolName(path, f.key), at, s, secret) {
        OtherTextsStay(f.child, path + [f.key], PoolName(path, f.key), at, s, secret);
      }
      assert FieldText(r.fields[i], path, at, s, secret);
    } else if v.List? {
      var i :| 0 <= i < |v.items| && ItemText(v.items[i], path, pool, i, at, s, secret);
      ReplaceAt(v, path, pool, i);
      ShapeKept(v.items[i], path + [Decimal(i)], false);
      LiteralIsText(v.items[i]);
      if TextAt(v.items[i], path + [Decimal(i)], false, at, s, secret) {
        OtherTextsStay(v.items[i], path + [Decimal(i)], false, at, s, secret);
      }
      assert ItemText(r.items[i], path, pool, i, at, s, secret);
    }
  }

  /** What the replacement of a whole configuration leaves at a place: at one for secrets, only blanks and
      references; at any other, and where there was no secret, the text that was there. */
  lemma TextsAfterReplacement(config: Tree, at: Path, s: string, secret: bool)
    ensures TextAt(Replace(config, []), [], false, at, s, true) ==> Harmless(s)
    ensures TextAt(config, [], false, at, s, secret) && (secret ==> Harmless(s)) ==>
              TextAt(Replace(config, []), [], false, at, s, secret)
  {
    if TextAt(Replace(config, []), [], false, at, s, true) {
      SecretPlacesCleared(config, [], false, at, s);
    }
    if TextAt(config, [], false, at, s, secret) && (secret ==> Harmless(s)) {
      OtherTextsStay(config, [], false, at, s, secret);
    }
  }
}
