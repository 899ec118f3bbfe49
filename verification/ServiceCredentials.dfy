/**
 Taking secret literals out of a configuration tree: which literals there are, the tree with
 a reference to an environment variable in the place of each, and the check of the result.
 Letter case and blanks are those of ASCII.
 */
module ServiceCredentials {
  import opened Wrappers

  datatype Tree = Text(s: string) | Scalar(n: int) | List(items: seq<Tree>) | Dict(fields: seq<Field>)

  datatype Field = Field(key: string, child: Tree)

  type Path = seq<string>

  // ---------- characters and names ----------

  predicate Lower(c: char) { 'a' <= c <= 'z' }

  predicate Upper(c: char) { 'A' <= c <= 'Z' }

  predicate Digit(c: char) { '0' <= c <= '9' }

  predicate Alnum(c: char) { Lower(c) || Upper(c) || Digit(c) }

  predicate Blank(c: char) { c == ' ' || '\t' <= c <= '\r' || '\U{001C}' <= c <= '\U{001F}' }

  function ToLower(c: char): char { if Upper(c) then (c as int + 32) as char else c }

  function ToUpper(c: char): (u: char)
    ensures (Alnum(c) ==> Alnum(u)) && (c == '_' ==> u == '_')
  {
    if Lower(c) then (c as int - 32) as char else c
  }

  function LowerText(s: string): string { seq(|s|, i requires 0 <= i < |s| => ToLower(s[i])) }

  function UpperText(s: string): string { seq(|s|, i requires 0 <= i < |s| => ToUpper(s[i])) }

  function StripStart(s: string): string {
    if s != [] && Blank(s[0]) then StripStart(s[1..]) else s
  }

  function StripEnd(s: string): string {
    if s != [] && Blank(s[|s| - 1]) then StripEnd(s[..|s| - 1]) else s
  }

  function Strip(s: string): string { StripEnd(StripStart(s)) }

  predicate Identifier(s: string) {
    && s != []
    && !Digit(s[0])
    && forall i :: 0 <= i < |s| ==> Alnum(s[i]) || s[i] == '_'
  }

  function Reference(name: string): string { "${" + name + "}" }

  predicate Referencing(t: string) {
    |t| >= 4 && t[0] == '$' && t[1] == '{' && t[|t| - 1] == '}' && Identifier(t[2..|t| - 1])
  }

  /** The text is, blanks aside, a reference to an environment variable. */
  predicate EnvReference(s: string) { Referencing(Strip(s)) }

  /** Runs of characters other than letters and digits become one underscore. */
  function Collapse(s: string, afterRun: bool): (r: string)
    ensures forall i :: 0 <= i < |r| ==> Alnum(r[i]) || r[i] == '_'
  {
    if s == [] then []
    else if Alnum(s[0]) then [s[0]] + Collapse(s[1..], false)
    else (if afterRun then [] else "_") + Collapse(s[1..], true)
  }

  function StripUnderscores(s: string): (r: string)
    ensures (forall i :: 0 <= i < |s| ==> Alnum(s[i]) || s[i] == '_') ==>
              forall i :: 0 <= i < |r| ==> Alnum(r[i]) || r[i] == '_'
  {
    if s != [] && s[0] == '_' then StripUnderscores(s[1..])
    else if s != [] && s[|s| - 1] == '_' then StripUnderscores(s[..|s| - 1])
    else s
  }

  function JoinParts(path: Path): (r: string)
    ensures forall i :: 0 <= i < |r| ==> Alnum(r[i]) || r[i] == '_'
  {
    if path == [] then []
    else
      var last := StripUnderscores(Collapse(path[|path| - 1], false));
      if |path| == 1 then last else JoinParts(path[..|path| - 1]) + "_" + last
  }

  function EnvironmentName(path: Path): (name: string)
    ensures Identifier(name)
  {
    "HERMES_CONFIG_" + UpperText(JoinParts(path))
  }

  // ---------- what is secret ----------

  predicate SecretField(key: string) {
    var k := LowerText(key);
    || k == "api_key" || k == "api-key" || k == "apikey" || k == "token" || k == "access_token"
    || k == "password" || k == "password_hash" || k == "secret" || k == "private_key"
  }

  predicate SecretListField(key: string) {
    var k := LowerText(key);
    k == "keys" || k == "api_keys" || k == "tokens"
  }

  predicate PoolPath(path: Path) {
    exists i :: 0 <= i < |path| &&
      (LowerText(path[i]) == "credential_pool_strategies" || LowerText(path[i]) == "credential_pools")
  }

  /** A list of credentials inside a credential pool. */
  predicate PoolList(path: Path, f: Field) {
    f.child.List? && SecretListField(f.key) && PoolPath(path)
  }

  /** A text that is not blank and not already a reference. */
  predicate Literal(v: Tree) {
    v.Text? && Strip(v.s) != [] && !EnvReference(v.s)
  }

  function Decimal(n: nat): string {
    if n < 10 then [('0' as int + n) as char] else Decimal(n / 10) + [('0' as int + n % 10) as char]
  }

  // ---------- collecting, replacing, resolving ----------

  type Pairs = seq<(Path, string)>

  /** The secret literals of a tree with their paths. */
  function Literals(v: Tree, path: Path): Pairs
    decreases v, 0
  {
    match v
    case Dict(fields) => FieldLiterals(fields, path)
    case List(items) => ItemLiterals(items, path, 0)
    case _ => []
  }

  function FieldLiterals(fields: seq<Field>, path: Path): Pairs
    decreases fields, 0
  {
    if fields == [] then [] else OneFieldLiterals(fields[0], path) + FieldLiterals(fields[1..], path)
  }

  function OneFieldLiterals(f: Field, path: Path): Pairs
    decreases f, 0
  {
    var childPath := path + [f.key];
    (if SecretField(f.key) && Literal(f.child) then [(childPath, f.child.s)] else [])
    + (if PoolList(path, f) then PoolLiterals(f.child.items, childPath, 0) else [])
    + Literals(f.child, childPath)
  }

  function ItemLiterals(items: seq<Tree>, path: Path, index: nat): Pairs
    decreases items, 0
  {
    if items == [] then [] else
      Literals(items[0], path + [Decimal(index)]) + ItemLiterals(items[1..], path, index + 1)
  }

  function PoolLiterals(items: seq<Tree>, path: Path, index: nat): Pairs
    decreases items, 0
  {
    if items == [] then [] else
      (if Literal(items[0]) then [(path + [Decimal(index)], items[0].s)] else [])
      + PoolLiterals(items[1..], path, index + 1)
  }

  function Replaced(path: Path): Tree { Text(Reference(EnvironmentName(path))) }

  /** The tree with a reference in the place of every secret literal. */
  function Replace(v: Tree, path: Path): Tree
    decreases v, 0
  {
    match v
    case Dict(fields) => Dict(ReplaceFields(fields, path))
    case List(items) => List(ReplaceItems(items, path, 0))
    case _ => v
  }

  function ReplaceFields(fields: seq<Field>, path: Path): seq<Field>
    decreases fields, 0
  {
    if fields == [] then []
    else [Field(fields[0].key, ReplaceField(fields[0], path))] + ReplaceFields(fields[1..], path)
  }

  function ReplaceField(f: Field, path: Path): Tree
    decreases f, 0
  {
    var childPath := path + [f.key];
    if SecretField(f.key) && Literal(f.child) then Replaced(childPath)
    else if PoolList(path, f) then List(ReplacePool(f.child.items, childPath, 0))
    else Replace(f.child, childPath)
  }

  function ReplaceItems(items: seq<Tree>, path: Path, index: nat): seq<Tree>
    decreases items, 0
  {
    if items == [] then [] else
      [Replace(items[0], path + [Decimal(index)])] + ReplaceItems(items[1..], path, index + 1)
  }

  function ReplacePool(items: seq<Tree>, path: Path, index: nat): seq<Tree>
    decreases items, 0
  {
    if items == [] then [] else
      var p := path + [Decimal(index)];
      [if Literal(items[0]) then Replaced(p) else Replace(items[0], p)] + ReplacePool(items[1..], path, index + 1)
  }

  // ---------- references ----------

  lemma ReferenceNotBlank(name: string)
    requires Identifier(name)
    ensures Strip(Reference(name)) == Reference(name) && EnvReference(Reference(name))
    ensures Reference(name)[2..|Reference(name)| - 1] == name
  {
  }

  lemma ReplacedNotLiteral(path: Path)
    ensures !Literal(Replaced(path))
  {
    ReferenceNotBlank(EnvironmentName(path));
  }

  // ---------- nothing secret is left, and a second pass changes nothing ----------

  lemma {:induction false} ReplaceLeavesNone(v: Tree, path: Path)
    ensures Literals(Replace(v, path), path) == []
    decreases v, 0
  {
    match v
    case Dict(fields) => ReplaceFieldsLeavesNone(fields, path);
    case List(items) => ReplaceItemsLeavesNone(items, path, 0);
    case _ =>
  }

  lemma {:induction false} ReplaceFieldsLeavesNone(fields: seq<Field>, path: Path)
    ensures FieldLiterals(ReplaceFields(fields, path), path) == []
    decreases fields, 0
  {
    hide OneFieldLiterals, ReplaceField;
    if fields != [] {
      ReplaceFieldsLeavesNone(fields[1..], path);
      ReplaceFieldLeavesNone(fields[0], path);
      assert ReplaceFields(fields, path)[1..] == ReplaceFields(fields[1..], path);
    }
  }

  lemma {:induction false} ReplaceFieldLeavesNone(f: Field, path: Path)
    ensures OneFieldLiterals(Field(f.key, ReplaceField(f, path)), path) == []
    decreases f, 0
  {
    hide Literal, SecretField, SecretListField, PoolPath, EnvironmentName, Replaced;
    var childPath := path + [f.key];
    ReplacedNotLiteral(childPath);
    LiteralIsText(f.child);
    ReplacedIsText(childPath);
    if SecretField(f.key) && Literal(f.child) {
    } else if PoolList(path, f) {
      ReplacePoolLeavesNone(f.child.items, childPath, 0);
      LiteralIsText(ReplaceField(f, path));
    } else {
      ReplaceLeavesNone(f.child, childPath);
      LiteralIsText(Replace(f.child, childPath));
    }
  }

  lemma {:induction false} ReplaceItemsLeavesNone(items: seq<Tree>, path: Path, index: nat)
    ensures ItemLiterals(ReplaceItems(items, path, index), path, index) == []
    decreases items, 0
  {
    if items != [] {
      ReplaceLeavesNone(items[0], path + [Decimal(index)]);
      ReplaceItemsLeavesNone(items[1..], path, index + 1);
      assert ReplaceItems(items, path, index)[1..] == ReplaceItems(items[1..], path, index + 1);
    }
  }

  lemma {:induction false} ReplacePoolLeavesNone(items: seq<Tree>, path: Path, index: nat)
    ensures PoolLiterals(ReplacePool(items, path, index), path, index) == []
    ensures ItemLiterals(ReplacePool(items, path, index), path, index) == []
    decreases items, 0
  {
    hide Literal, EnvironmentName, Replaced;
    if items != [] {
      var p := path + [Decimal(index)];
      ReplacedNotLiteral(p);
      ReplacedIsText(p);
      LiteralIsText(items[0]);
      ReplaceLeavesNone(items[0], p);
      LiteralIsText(Replace(items[0], p));
      ReplacePoolLeavesNone(items[1..], path, index + 1);
      assert ReplacePool(items, path, index)[1..] == ReplacePool(items[1..], path, index + 1);
    }
  }

  lemma LiteralIsText(v: Tree)
    ensures Literal(v) ==> v.Text?
  {
  }

  lemma ReplacedIsText(path: Path)
    ensures Replaced(path) == Text(Reference(EnvironmentName(path)))
  {
  }

  lemma {:induction false} ReplaceKeepsClean(v: Tree, path: Path)
    requires Literals(v, path) == []
    ensures Replace(v, path) == v
    decreases v, 0
  {
    match v
    case Dict(fields) => ReplaceFieldsKeepsClean(fields, path);
    case List(items) => ReplaceItemsKeepsClean(items, path, 0);
    case _ =>
  }

  lemma {:induction false} ReplaceFieldsKeepsClean(fields: seq<Field>, path: Path)
    requires FieldLiterals(fields, path) == []
    ensures ReplaceFields(fields, path) == fields
    decreases fields, 0
  {
    hide OneFieldLiterals, ReplaceField;
    if fields != [] {
      ReplaceFieldsKeepsClean(fields[1..], path);
      ReplaceFieldKeepsClean(fields[0], path);
    }
  }

  lemma {:induction false} ReplaceFieldKeepsClean(f: Field, path: Path)
    requires OneFieldLiterals(f, path) == []
    ensures ReplaceField(f, path) == f.child
    decreases f, 0
  {
    hide Literal, SecretField, SecretListField, PoolPath;
    LiteralIsText(f.child);
    ReplaceKeepsClean(f.child, path + [f.key]);
    if PoolList(path, f) {
      ReplacePoolKeepsClean(f.child.items, path + [f.key], 0);
    }
  }

  lemma {:induction false} ReplaceItemsKeepsClean(items: seq<Tree>, path: Path, index: nat)
    requires ItemLiterals(items, path, index) == []
    ensures ReplaceItems(items, path, index) == items
    decreases items, 0
  {
    if items != [] {
      ReplaceKeepsClean(items[0], path + [Decimal(index)]);
      ReplaceItemsKeepsClean(items[1..], path, index + 1);
    }
  }

  lemma {:induction false} ReplacePoolKeepsClean(items: seq<Tree>, path: Path, index: nat)
    requires PoolLiterals(items, path, index) == []
    requires ItemLiterals(items, path, index) == []
    ensures ReplacePool(items, path, index) == items
    decreases items, 0
  {
    hide Literal;
    if items != [] {
      ReplaceKeepsClean(items[0], path + [Decimal(index)]);
      ReplacePoolKeepsClean(items[1..], path, index + 1);
    }
  }

  /** Replacing changes a tree exactly when it holds a secret literal; doing it twice is doing it once. */
  lemma ReplaceFixedIff(v: Tree, path: Path)
    ensures Replace(v, path) == v <==> Literals(v, path) == []
    ensures Replace(Replace(v, path), path) == Replace(v, path)
  {
    ReplaceLeavesNone(v, path);
    ReplaceKeepsClean(Replace(v, path), path);
    if Literals(v, path) == [] {
      ReplaceKeepsClean(v, path);
    }
  }

  // ---------- resolving references gives the tree back ----------

  type Environment = map<string, string>

  /** The tree with the variable's value in the place of every text that is a reference to one. */
  function Resolve(v: Tree, env: Environment): Tree
    decreases v, 0
  {
    match v
    case Text(s) => if Referencing(s) && s[2..|s| - 1] in env then Text(env[s[2..|s| - 1]]) else v
    case Dict(fields) => Dict(ResolveFields(fields, env))
    case List(items) => List(ResolveItems(items, env))
    case Scalar(_) => v
  }

  function ResolveFields(fields: seq<Field>, env: Environment): seq<Field>
    decreases fields, 0
  {
    if fields == [] then []
    else [Field(fields[0].key, Resolve(fields[0].child, env))] + ResolveFields(fields[1..], env)
  }

  function ResolveItems(items: seq<Tree>, env: Environment): seq<Tree>
    decreases items, 0
  {
    if items == [] then [] else [Resolve(items[0], env)] + ResolveItems(items[1..], env)
  }

  /** Every pair's generated variable holds that pair's literal. */
  ghost predicate Holds(env: Environment, pairs: Pairs) {
    forall i :: 0 <= i < |pairs| ==> HoldsPair(env, pairs[i])
  }

  predicate HoldsPair(env: Environment, pair: (Path, string)) {
    EnvironmentName(pair.0) in env && env[EnvironmentName(pair.0)] == pair.1
  }

  lemma HoldsConcat(env: Environment, a: Pairs, b: Pairs)
    ensures Holds(env, a + b) <==> Holds(env, a) && Holds(env, b)
  {
    hide HoldsPair;
    if Holds(env, a + b) {
      forall i | 0 <= i < |a| ensures HoldsPair(env, a[i]) {
        assert (a + b)[i] == a[i];
      }
      forall i | 0 <= i < |b| ensures HoldsPair(env, b[i]) {
        assert (a + b)[|a| + i] == b[i];
      }
    }
  }

  lemma ReferencingIsStripped(s: string)
    requires Referencing(s)
    ensures Strip(s) == s
  {
  }

  /** A literal is no reference, so resolving leaves it alone; its replacement resolves to it
      exactly when the environment holds the pair. */
  lemma LiteralResolves(v: Tree, path: Path, env: Environment)
    requires Literal(v)
    ensures Resolve(v, env) == v
    ensures Resolve(Replaced(path), env) == v <==> Holds(env, [(path, v.s)])
  {
    var name := EnvironmentName(path);
    ReferenceNotBlank(name);
    if Referencing(v.s) {
      ReferencingIsStripped(v.s);
      assert false;
    }
    ReferenceIsReferencing(name);
    assert Resolve(Replaced(path), env) == (if name in env then Text(env[name]) else Replaced(path));
    ReplacedNotLiteral(path);
    assert Holds(env, [(path, v.s)]) <==> HoldsPair(env, [(path, v.s)][0]);
  }

  lemma ReferenceIsReferencing(name: string)
    requires Identifier(name)
    ensures Referencing(Reference(name)) && Reference(name)[2..|Reference(name)| - 1] == name
  {
    assert Reference(name)[2..|Reference(name)| - 1] == name;
  }

  /** Resolving undoes replacing exactly when every generated variable holds the literal it stands
      for and resolving would have left the original tree alone. */
  lemma {:induction false} ResolveRestoresIff(v: Tree, path: Path, env: Environment)
    ensures Resolve(Replace(v, path), env) == v <==> Holds(env, Literals(v, path)) && Resolve(v, env) == v
    decreases v, 0
  {
    match v
    case Dict(fields) => ResolveFieldsRestoresIff(fields, path, env);
    case List(items) => ResolveItemsRestoresIff(items, path, 0, env);
    case _ =>
  }

  lemma {:induction false} ResolveFieldsRestoresIff(fields: seq<Field>, path: Path, env: Environment)
    ensures ResolveFields(ReplaceFields(fields, path), env) == fields <==>
            Holds(env, FieldLiterals(fields, path)) && ResolveFields(fields, env) == fields
    decreases fields, 0
  {
    hide Literal, SecretField, SecretListField, PoolPath, EnvironmentName, Replaced, Holds, HoldsPair, Replace,
      Resolve, Literals;
    if fields == [] {
      HoldsNone(env);
    } else {
      var f := fields[0];
      var rest := fields[1..];
      var w := ReplaceFields(fields, path);
      ResolveFieldsRestoresIff(rest, path, env);
      FieldRestoresIff(f, path, env);
      assert w[1..] == ReplaceFields(rest, path);
      HoldsConcat(env, OneFieldLiterals(f, path), FieldLiterals(rest, path));
      assert FieldLiterals(fields, path) == OneFieldLiterals(f, path) + FieldLiterals(rest, path);
      assert w[0] == Field(f.key, ReplaceField(f, path));
      ConsEqual(w[0].key, Resolve(w[0].child, env), ResolveFields(w[1..], env), f, rest);
      ConsEqual(f.key, Resolve(f.child, env), ResolveFields(rest, env), f, rest);
      assert [f] + rest == fields;
    }
  }

  lemma ConsEqual(key: string, child: Tree, fields: seq<Field>, f: Field, rest: seq<Field>)
    ensures [Field(key, child)] + fields == [f] + rest <==> key == f.key && child == f.child && fields == rest
  {
    var a, b := [Field(key, child)] + fields, [f] + rest;
    assert a[0] == Field(key, child) && b[0] == f && a[1..] == fields && b[1..] == rest;
  }

  lemma HoldsNone(env: Environment)
    ensures Holds(env, [])
  {
  }

  lemma {:induction false} FieldRestoresIff(f: Field, path: Path, env: Environment)
    ensures Resolve(ReplaceField(f, path), env) == f.child <==>
            Holds(env, OneFieldLiterals(f, path)) && Resolve(f.child, env) == f.child
    decreases f, 0
  {
    hide Literal, SecretField, SecretListField, PoolPath, EnvironmentName, Replaced, Holds, HoldsPair;
    var p := path + [f.key];
    LiteralIsText(f.child);
    HoldsNone(env);
    if SecretField(f.key) && Literal(f.child) {
      LiteralResolves(f.child, p, env);
      assert OneFieldLiterals(f, path) == [(p, f.child.s)];
    } else if PoolList(path, f) {
      var items := f.child.items;
      ResolvePoolRestoresIff(items, p, 0, env);
      HoldsConcat(env, PoolLiterals(items, p, 0), ItemLiterals(items, p, 0));
      assert OneFieldLiterals(f, path) == PoolLiterals(items, p, 0) + ItemLiterals(items, p, 0);
    } else {
      ResolveRestoresIff(f.child, p, env);
      assert OneFieldLiterals(f, path) == Literals(f.child, p);
    }
  }

  lemma {:induction false} ResolveItemsRestoresIff(items: seq<Tree>, path: Path, index: nat, env: Environment)
    ensures ResolveItems(ReplaceItems(items, path, index), env) == items <==>
            Holds(env, ItemLiterals(items, path, index)) && ResolveItems(items, env) == items
    decreases items, 0
  {
    hide Holds, HoldsPair, Replace, Resolve, Literals;
    if items == [] {
      HoldsNone(env);
    } else {
      var p, rest := path + [Decimal(index)], items[1..];
      var w := ReplaceItems(items, path, index);
      ResolveRestoresIff(items[0], p, env);
      ResolveItemsRestoresIff(rest, path, index + 1, env);
      HoldsConcat(env, Literals(items[0], p), ItemLiterals(rest, path, index + 1));
      assert w[1..] == ReplaceItems(rest, path, index + 1);
      ItemsEqual(Resolve(w[0], env), ResolveItems(w[1..], env), items);
      ItemsEqual(Resolve(items[0], env), ResolveItems(rest, env), items);
    }
  }

  lemma ItemsEqual(head: Tree, tail: seq<Tree>, items: seq<Tree>)
    requires items != []
    ensures [head] + tail == items <==> head == items[0] && tail == items[1..]
  {
    assert ([head] + tail)[1..] == tail;
  }

  lemma {:induction false} ResolvePoolRestoresIff(items: seq<Tree>, path: Path, index: nat, env: Environment)
    ensures ResolveItems(ReplacePool(items, path, index), env) == items <==>
            && Holds(env, PoolLiterals(items, path, index)) && Holds(env, ItemLiterals(items, path, index))
            && ResolveItems(items, env) == items
    decreases items, 0
  {
    hide Literal, EnvironmentName, Replaced, Holds, HoldsPair, Replace, Resolve;
    HoldsNone(env);
    if items != [] {
      var p, rest := path + [Decimal(index)], items[1..];
      var w := ReplacePool(items, path, index);
      ResolvePoolRestoresIff(rest, path, index + 1, env);
      HoldsConcat(env, Literals(items[0], p), ItemLiterals(rest, path, index + 1));
      LiteralIsText(items[0]);
      var own := if Literal(items[0]) then [(p, items[0].s)] else [];
      HoldsConcat(env, own, PoolLiterals(rest, path, index + 1));
      if Literal(items[0]) {
        LiteralResolves(items[0], p, env);
      } else {
        ResolveRestoresIff(items[0], p, env);
      }
      assert w[1..] == ReplacePool(rest, path, index + 1);
      ItemsEqual(Resolve(w[0], env), ResolveItems(w[1..], env), items);
      ItemsEqual(Resolve(items[0], env), ResolveItems(rest, env), items);
    }
  }

  // ---------- the environment the literals go to ----------

  /** The exact references to environment variables in a tree. */
  function References(v: Tree): set<string>
    decreases v, 0
  {
    match v
    case Text(s) => if Referencing(s) then {s[2..|s| - 1]} else {}
    case Dict(fields) => FieldReferences(fields)
    case List(items) => ItemReferences(items)
    case Scalar(_) => {}
  }

  function FieldReferences(fields: seq<Field>): set<string>
    decreases fields, 0
  {
    if fields == [] then {} else References(fields[0].child) + FieldReferences(fields[1..])
  }

  function ItemReferences(items: seq<Tree>): set<string>
    decreases items, 0
  {
    if items == [] then {} else References(items[0]) + ItemReferences(items[1..])
  }

  lemma {:induction false} FreshIsUntouched(v: Tree, env: Environment)
    requires References(v) !! env.Keys
    ensures Resolve(v, env) == v
    decreases v, 0
  {
    match v
    case Text(s) =>
      if Referencing(s) {
        assert s[2..|s| - 1] in References(v);
      }
    case Dict(fields) => FreshFieldsUntouched(fields, env);
    case List(items) => FreshItemsUntouched(items, env);
    case Scalar(_) =>
  }

  lemma {:induction false} FreshFieldsUntouched(fields: seq<Field>, env: Environment)
    requires FieldReferences(fields) !! env.Keys
    ensures ResolveFields(fields, env) == fields
    decreases fields, 0
  {
    if fields != [] {
      FreshIsUntouched(fields[0].child, env);
      FreshFieldsUntouched(fields[1..], env);
    }
  }

  lemma {:induction false} FreshItemsUntouched(items: seq<Tree>, env: Environment)
    requires ItemReferences(items) !! env.Keys
    ensures ResolveItems(items, env) == items
    decreases items, 0
  {
    if items != [] {
      FreshIsUntouched(items[0], env);
      FreshItemsUntouched(items[1..], env);
    }
  }

  /** The value a variable gets: the one it already had, or else the first literal generated for it. */
  ghost function Given(env: Environment, pairs: Pairs, name: string): Option<string> {
    if name in env then Some(env[name]) else FirstLiteral(pairs, name)
  }

  ghost function FirstLiteral(pairs: Pairs, name: string): Option<string> {
    if pairs == [] then None
    else if EnvironmentName(pairs[0].0) == name then Some(pairs[0].1)
    else FirstLiteral(pairs[1..], name)
  }

  ghost predicate Agrees(env: Environment, name: string, value: Option<string>) {
    if name in env then value == Some(env[name]) else value == None
  }

  lemma {:induction false} FirstLiteralSnoc(pairs: Pairs, pair: (Path, string), name: string)
    ensures FirstLiteral(pairs + [pair], name) ==
            if FirstLiteral(pairs, name).Some? then FirstLiteral(pairs, name)
            else if EnvironmentName(pair.0) == name then Some(pair.1) else None
  {
    hide EnvironmentName;
    if pairs == [] {
      assert ([pair] + [])[1..] == [];
      assert pairs + [pair] == [pair];
    } else {
      FirstLiteralSnoc(pairs[1..], pair, name);
      assert (pairs + [pair])[1..] == pairs[1..] + [pair];
    }
  }

  /** Adds a variable for every secret literal, keeping the variables that are already there. */
  method AddLiterals(env: Environment, config: Tree) returns (filled: Environment)
    ensures Filled(filled, env, Literals(config, []))
  {
    hide EnvironmentName, Filled;
    var pairs := Literals(config, []);
    filled := env;
    var i := 0;
    FilledFromNone(env);
    assert pairs[..0] == [];
    while i < |pairs|
      invariant i <= |pairs|
      invariant Filled(filled, env, pairs[..i])
    {
      FilledStep(filled, env, pairs[..i], pairs[i]);
      var name := EnvironmentName(pairs[i].0);
      if name !in filled {
        filled := filled[name := pairs[i].1];
      }
      assert pairs[..i + 1] == pairs[..i] + [pairs[i]];
      i := i + 1;
    }
    assert pairs[..i] == pairs;
  }

  /** Every variable has the value it is given, and no other variable is set. */
  ghost predicate Filled(filled: Environment, env: Environment, pairs: Pairs) {
    forall name :: Agrees(filled, name, Given(env, pairs, name))
  }

  lemma FilledFromNone(env: Environment)
    ensures Filled(env, env, [])
  {
  }

  lemma FilledStep(filled: Environment, env: Environment, pairs: Pairs, pair: (Path, string))
    requires Filled(filled, env, pairs)
    ensures var name := EnvironmentName(pair.0);
            Filled(if name in filled then filled else filled[name := pair.1], env, pairs + [pair])
  {
    hide EnvironmentName, FirstLiteral;
    var name := EnvironmentName(pair.0);
    var after := if name in filled then filled else filled[name := pair.1];
    assert Agrees(filled, name, Given(env, pairs, name));
    forall n: string ensures Agrees(after, n, Given(env, pairs + [pair], n)) {
      assert Agrees(filled, n, Given(env, pairs, n));
      FirstLiteralSnoc(pairs, pair, n);
    }
  }

  /** No pair's variable was set to something else before, and no two pairs with one name differ. */
  ghost predicate NoClash(env: Environment, pairs: Pairs) {
    && (forall i :: 0 <= i < |pairs| ==> NotSetOtherwise(env, pairs[i]))
    && (forall i, j :: 0 <= i < j < |pairs| ==> Compatible(pairs[i], pairs[j]))
  }

  ghost predicate NotSetOtherwise(env: Environment, pair: (Path, string)) {
    EnvironmentName(pair.0) in env ==> env[EnvironmentName(pair.0)] == pair.1
  }

  ghost predicate Compatible(a: (Path, string), b: (Path, string)) {
    EnvironmentName(a.0) == EnvironmentName(b.0) ==> a.1 == b.1
  }

  lemma {:induction false} FirstLiteralIsOne(pairs: Pairs, k: nat) returns (j: nat)
    requires k < |pairs|
    ensures j <= k && EnvironmentName(pairs[j].0) == EnvironmentName(pairs[k].0)
    ensures FirstLiteral(pairs, EnvironmentName(pairs[k].0)) == Some(pairs[j].1)
  {
    hide EnvironmentName;
    if EnvironmentName(pairs[0].0) == EnvironmentName(pairs[k].0) {
      j := 0;
    } else {
      j := FirstLiteralIsOne(pairs[1..], k - 1);
      j := j + 1;
    }
  }

  lemma HoldsMeansNoClash(env: Environment, pairs: Pairs, filled: Environment)
    requires Filled(filled, env, pairs)
    requires Holds(filled, pairs)
    ensures NoClash(env, pairs)
  {
    hide EnvironmentName, FirstLiteral;
    forall k | 0 <= k < |pairs| ensures NotSetOtherwise(env, pairs[k]) {
      assert HoldsPair(filled, pairs[k]);
      assert Agrees(filled, EnvironmentName(pairs[k].0), Given(env, pairs, EnvironmentName(pairs[k].0)));
    }
    forall i, j | 0 <= i < j < |pairs| ensures Compatible(pairs[i], pairs[j]) {
      assert HoldsPair(filled, pairs[i]) && HoldsPair(filled, pairs[j]);
    }
  }

  lemma NoClashMeansHolds(env: Environment, pairs: Pairs, filled: Environment)
    requires Filled(filled, env, pairs)
    requires NoClash(env, pairs)
    ensures Holds(filled, pairs)
  {
    hide EnvironmentName, FirstLiteral;
    forall k | 0 <= k < |pairs| ensures HoldsPair(filled, pairs[k]) {
      var name := EnvironmentName(pairs[k].0);
      assert Agrees(filled, name, Given(env, pairs, name)) && NotSetOtherwise(env, pairs[k]);
      var j := FirstLiteralIsOne(pairs, k);
      assert j < k ==> Compatible(pairs[j], pairs[k]);
    }
  }

  /** The filled environment holds every pair exactly when no two of them clash and none clashes
      with what was set before: distinct fresh names are enough. */
  lemma HoldsIffNoClash(env: Environment, pairs: Pairs, filled: Environment)
    requires Filled(filled, env, pairs)
    ensures Holds(filled, pairs) <==> NoClash(env, pairs)
  {
    hide Holds, NoClash, Filled;
    if Holds(filled, pairs) {
      HoldsMeansNoClash(env, pairs, filled);
    }
    if NoClash(env, pairs) {
      NoClashMeansHolds(env, pairs, filled);
    }
  }

  /** A configuration whose generated names do not clash and are referred to by nothing else is
      restored by resolving the sanitised configuration in the environment filled from nothing. */
  lemma SanitisedConfigRestores(config: Tree, filled: Environment)
    requires Filled(filled, map[], Literals(config, []))
    requires References(config) !! filled.Keys
    ensures Resolve(Replace(config, []), filled) == config <==> NoClash(map[], Literals(config, []))
  {
    HoldsIffNoClash(map[], Literals(config, []), filled);
    FreshIsUntouched(config, filled);
    ResolveRestoresIff(config, [], filled);
  }

  // ---------- the introduced references ----------

  /** The texts that differ between a tree and a tree of the same shape, with their paths. */
  function Changes(v: Tree, w: Tree, path: Path): multiset<(Path, string)>
    decreases v, 0
  {
    match (v, w)
    case (Dict(fields), Dict(others)) => FieldChanges(fields, others, path)
    case (List(items), List(others)) => ItemChanges(items, others, path, 0)
    case (Text(s), Text(t)) => if s == t then multiset{} else multiset{(path, t)}
    case _ => multiset{}
  }

  function FieldChanges(fields: seq<Field>, others: seq<Field>, path: Path): multiset<(Path, string)>
    decreases fields, 0
  {
    if fields == [] || others == [] then multiset{}
    else Changes(fields[0].child, others[0].child, path + [fields[0].key])
         + FieldChanges(fields[1..], others[1..], path)
  }

  function ItemChanges(items: seq<Tree>, others: seq<Tree>, path: Path, index: nat): multiset<(Path, string)>
    decreases items, 0
  {
    if items == [] || others == [] then multiset{}
    else Changes(items[0], others[0], path + [Decimal(index)])
         + ItemChanges(items[1..], others[1..], path, index + 1)
  }

  /** One reference to each pair's own variable, at the pair's own path. */
  function Introduced(pairs: Pairs): multiset<(Path, string)> {
    if pairs == [] then multiset{} else multiset{ReferenceOf(pairs[0])} + Introduced(pairs[1..])
  }

  function ReferenceOf(pair: (Path, string)): (Path, string) { (pair.0, Reference(EnvironmentName(pair.0))) }

  lemma {:induction false} IntroducedConcat(a: Pairs, b: Pairs)
    ensures Introduced(a + b) == Introduced(a) + Introduced(b)
  {
    hide ReferenceOf, Introduced;
    if a == [] {
      IntroducedOfNone();
      assert a + b == b;
    } else {
      IntroducedConcat(a[1..], b);
      IntroducedCons(a[0], a[1..] + b);
      IntroducedCons(a[0], a[1..]);
      assert a + b == [a[0]] + (a[1..] + b) && a == [a[0]] + a[1..];
    }
  }

  lemma IntroducedCons(pair: (Path, string), pairs: Pairs)
    ensures Introduced([pair] + pairs) == multiset{ReferenceOf(pair)} + Introduced(pairs)
  {
    hide ReferenceOf;
    assert ([pair] + pairs)[0] == pair && ([pair] + pairs)[1..] == pairs;
  }

  lemma IntroducedOne(p: Path, s: string)
    ensures Introduced([(p, s)]) == multiset{(p, Reference(EnvironmentName(p)))}
  {
    hide EnvironmentName, Reference;
    assert [(p, s)][1..] == [];
  }

  lemma ReplacedChanges(v: Tree, path: Path)
    requires Literal(v)
    ensures Changes(v, Replaced(path), path) == Introduced([(path, v.s)])
  {
    ReplacedNotLiteral(path);
    IntroducedOne(path, v.s);
  }

  /** The texts replacing changes are the pairs' paths, once each, and hold the pairs' references. */
  lemma {:induction false} ReplaceIntroduces(v: Tree, path: Path)
    ensures Changes(v, Replace(v, path), path) == Introduced(Literals(v, path))
    decreases v, 0
  {
    match v
    case Dict(fields) => ReplaceFieldsIntroduces(fields, path);
    case List(items) => ReplaceItemsIntroduces(items, path, 0);
    case _ =>
  }

  lemma {:induction false} ReplaceFieldsIntroduces(fields: seq<Field>, path: Path)
    ensures FieldChanges(fields, ReplaceFields(fields, path), path) == Introduced(FieldLiterals(fields, path))
    decreases fields, 0
  {
    hide OneFieldLiterals, ReplaceField, Introduced, Changes;
    IntroducedOfNone();
    if fields != [] {
      ReplaceFieldsIntroduces(fields[1..], path);
      ReplaceFieldIntroduces(fields[0], path);
      IntroducedConcat(OneFieldLiterals(fields[0], path), FieldLiterals(fields[1..], path));
      assert ReplaceFields(fields, path)[1..] == ReplaceFields(fields[1..], path);
    }
  }

  lemma IntroducedOfNone()
    ensures Introduced([]) == multiset{}
  {
  }

  lemma {:induction false} ReplaceFieldIntroduces(f: Field, path: Path)
    ensures Changes(f.child, ReplaceField(f, path), path + [f.key]) == Introduced(OneFieldLiterals(f, path))
    decreases f, 0
  {
    hide Literal, SecretField, SecretListField, PoolPath, EnvironmentName, Replaced, Introduced;
    var p := path + [f.key];
    LiteralIsText(f.child);
    if SecretField(f.key) && Literal(f.child) {
      ReplacedChanges(f.child, p);
      assert OneFieldLiterals(f, path) == [(p, f.child.s)];
    } else if PoolList(path, f) {
      var items := f.child.items;
      ReplacePoolIntroduces(items, p, 0);
      IntroducedConcat(PoolLiterals(items, p, 0), ItemLiterals(items, p, 0));
      assert OneFieldLiterals(f, path) == PoolLiterals(items, p, 0) + ItemLiterals(items, p, 0);
    } else {
      ReplaceIntroduces(f.child, p);
      assert OneFieldLiterals(f, path) == Literals(f.child, p);
    }
  }

  lemma {:induction false} ReplaceItemsIntroduces(items: seq<Tree>, path: Path, index: nat)
    ensures ItemChanges(items, ReplaceItems(items, path, index), path, index) ==
            Introduced(ItemLiterals(items, path, index))
    decreases items, 0
  {
    hide Replace, Literals, Introduced, Changes;
    IntroducedOfNone();
    if items != [] {
      var p, rest := path + [Decimal(index)], items[1..];
      ReplaceIntroduces(items[0], p);
      ReplaceItemsIntroduces(rest, path, index + 1);
      IntroducedConcat(Literals(items[0], p), ItemLiterals(rest, path, index + 1));
      assert ReplaceItems(items, path, index)[1..] == ReplaceItems(rest, path, index + 1);
    }
  }

  lemma {:induction false} ReplacePoolIntroduces(items: seq<Tree>, path: Path, index: nat)
    ensures ItemChanges(items, ReplacePool(items, path, index), path, index) ==
            Introduced(PoolLiterals(items, path, index)) + Introduced(ItemLiterals(items, path, index))
    decreases items, 0
  {
    hide Literal, Replaced, Replace, Introduced, Changes;
    IntroducedOfNone();
    if items != [] {
      var p, rest := path + [Decimal(index)], items[1..];
      ReplacePoolIntroduces(rest, path, index + 1);
      IntroducedConcat(Literals(items[0], p), ItemLiterals(rest, path, index + 1));
      LiteralIsText(items[0]);
      var own := if Literal(items[0]) then [(p, items[0].s)] else [];
      IntroducedConcat(own, PoolLiterals(rest, path, index + 1));
      if Literal(items[0]) {
        ReplacedChanges(items[0], p);
      } else {
        ReplaceIntroduces(items[0], p);
      }
      assert ReplacePool(items, path, index)[1..] == ReplacePool(rest, path, index + 1);
    }
  }

  // ---------- the check of the prepared files ----------

  /** The secret fields that refer to a variable the environment file does not set. */
  function Unresolved(v: Tree, path: Path, keys: set<string>): seq<Path>
    decreases v, 0
  {
    match v
    case Dict(fields) => FieldsUnresolved(fields, path, keys)
    case List(items) => ItemsUnresolved(items, path, 0, keys)
    case _ => []
  }

  function FieldsUnresolved(fields: seq<Field>, path: Path, keys: set<string>): seq<Path>
    decreases fields, 0
  {
    if fields == [] then [] else
      var childPath := path + [fields[0].key];
      (if SecretField(fields[0].key) && Dangling(fields[0].child, keys) then [childPath] else [])
      + Unresolved(fields[0].child, childPath, keys)
      + FieldsUnresolved(fields[1..], path, keys)
  }

  function ItemsUnresolved(items: seq<Tree>, path: Path, index: nat, keys: set<string>): seq<Path>
    decreases items, 0
  {
    if items == [] then [] else
      Unresolved(items[0], path + [Decimal(index)], keys) + ItemsUnresolved(items[1..], path, index + 1, keys)
  }

  predicate Dangling(v: Tree, keys: set<string>) {
    v.Text? && Strip(v.s) != [] && EnvReference(v.s) && Strip(v.s)[2..|Strip(v.s)| - 1] !in keys
  }

  datatype Verdict = Prepared | LiteralsRemain(paths: seq<Path>) | ReferencesUnresolved(paths: seq<Path>)

  function PathsOf(pairs: Pairs): seq<Path> {
    seq(|pairs|, i requires 0 <= i < |pairs| => pairs[i].0)
  }

  function Validate(keys: set<string>, config: Tree): Verdict {
    var literal := PathsOf(Literals(config, []));
    var unresolved := Unresolved(config, [], keys);
    if literal != [] then LiteralsRemain(literal)
    else if unresolved != [] then ReferencesUnresolved(unresolved)
    else Prepared
  }

  /** The variables generated for the secret fields, those of credential pools left out. */
  function FieldNames(v: Tree, path: Path): set<string>
    decreases v, 0
  {
    match v
    case Dict(fields) => FieldNamesOf(fields, path)
    case List(items) => FieldNamesOfItems(items, path, 0)
    case _ => {}
  }

  function FieldNamesOf(fields: seq<Field>, path: Path): set<string>
    decreases fields, 0
  {
    if fields == [] then {} else
      var p := path + [fields[0].key];
      (if SecretField(fields[0].key) && Literal(fields[0].child) then {EnvironmentName(p)} else {})
      + FieldNames(fields[0].child, p)
      + FieldNamesOf(fields[1..], path)
  }

  function FieldNamesOfItems(items: seq<Tree>, path: Path, index: nat): set<string>
    decreases items, 0
  {
    if items == [] then {} else
      FieldNames(items[0], path + [Decimal(index)]) + FieldNamesOfItems(items[1..], path, index + 1)
  }

  lemma ReplacedDangles(path: Path, keys: set<string>)
    ensures Dangling(Replaced(path), keys) <==> EnvironmentName(path) !in keys
  {
    ReferenceNotBlank(EnvironmentName(path));
    ReferenceIsReferencing(EnvironmentName(path));
  }

  lemma LiteralNotDangling(v: Tree, keys: set<string>)
    ensures Literal(v) ==> !Dangling(v, keys)
    ensures Dangling(v, keys) ==> v.Text?
  {
  }

  lemma {:induction false} ReplaceUnresolvedIff(v: Tree, path: Path, keys: set<string>)
    ensures Unresolved(Replace(v, path), path, keys) == [] <==>
            Unresolved(v, path, keys) == [] && FieldNames(v, path) <= keys
    decreases v, 0
  {
    match v
    case Dict(fields) => ReplaceFieldsUnresolvedIff(fields, path, keys);
    case List(items) => ReplaceItemsUnresolvedIff(items, path, 0, keys);
    case _ =>
  }

  lemma {:induction false} ReplaceFieldsUnresolvedIff(fields: seq<Field>, path: Path, keys: set<string>)
    ensures FieldsUnresolved(ReplaceFields(fields, path), path, keys) == [] <==>
            FieldsUnresolved(fields, path, keys) == [] && FieldNamesOf(fields, path) <= keys
    decreases fields, 0
  {
    hide Literal, Dangling, SecretField, SecretListField, PoolPath, EnvironmentName, Replaced, Replace;
    if fields != [] {
      var f := fields[0];
      var p := path + [f.key];
      var w := ReplaceFields(fields, path);
      assert w[1..] == ReplaceFields(fields[1..], path);
      ReplaceFieldsUnresolvedIff(fields[1..], path, keys);
      ReplacedDangles(p, keys);
      ReplacedIsText(p);
      LiteralIsText(f.child);
      LiteralNotDangling(f.child, keys);
      LiteralNotDangling(Replace(f.child, p), keys);
      ReplaceKeepsText(f.child, p);
      if SecretField(f.key) && Literal(f.child) {
      } else if PoolList(path, f) {
        ReplacePoolUnresolvedIff(f.child.items, p, 0, keys);
        LiteralNotDangling(ReplaceField(f, path), keys);
      } else {
        ReplaceUnresolvedIff(f.child, p, keys);
      }
    }
  }

  lemma ReplaceKeepsText(v: Tree, path: Path)
    ensures Replace(v, path).Text? <==> v.Text?
    ensures v.Text? ==> Replace(v, path) == v
  {
  }

  lemma {:induction false} ReplaceItemsUnresolvedIff(items: seq<Tree>, path: Path, index: nat, keys: set<string>)
    ensures ItemsUnresolved(ReplaceItems(items, path, index), path, index, keys) == [] <==>
            ItemsUnresolved(items, path, index, keys) == [] && FieldNamesOfItems(items, path, index) <= keys
    decreases items, 0
  {
    hide Replace, Unresolved, FieldNames;
    if items != [] {
      ReplaceUnresolvedIff(items[0], path + [Decimal(index)], keys);
      ReplaceItemsUnresolvedIff(items[1..], path, index + 1, keys);
      assert ReplaceItems(items, path, index)[1..] == ReplaceItems(items[1..], path, index + 1);
    }
  }

  lemma {:induction false} ReplacePoolUnresolvedIff(items: seq<Tree>, path: Path, index: nat, keys: set<string>)
    ensures ItemsUnresolved(ReplacePool(items, path, index), path, index, keys) == [] <==>
            ItemsUnresolved(items, path, index, keys) == [] && FieldNamesOfItems(items, path, index) <= keys
    decreases items, 0
  {
    hide Literal, EnvironmentName, Replaced, Replace;
    if items != [] {
      var p := path + [Decimal(index)];
      LiteralIsText(items[0]);
      ReplacedIsText(p);
      ReplaceUnresolvedIff(items[0], p, keys);
      ReplacePoolUnresolvedIff(items[1..], path, index + 1, keys);
      assert ReplacePool(items, path, index)[1..] == ReplacePool(items[1..], path, index + 1);
    }
  }

  /** A sanitised configuration passes the check exactly when the references its secret fields
      already held resolve and every variable generated for a secret field is set. Variables
      generated for credential pools are not looked at. */
  lemma SanitisedPassesIff(config: Tree, keys: set<string>)
    ensures Validate(keys, Replace(config, [])) == Prepared <==>
            Unresolved(config, [], keys) == [] && FieldNames(config, []) <= keys
  {
    ReplaceLeavesNone(config, []);
    ReplaceUnresolvedIff(config, [], keys);
  }

  lemma OneFieldDict(f: Field, path: Path, keys: set<string>)
    requires !SecretField(f.key)
    ensures Literals(Dict([f]), path) == OneFieldLiterals(f, path)
    ensures Unresolved(Dict([f]), path, keys) == Unresolved(f.child, path + [f.key], keys)
    ensures FieldNames(Dict([f]), path) == FieldNames(f.child, path + [f.key])
  {
    hide SecretField, OneFieldLiterals;
    assert [f][1..] == [] && [f][0] == f;
    assert FieldLiterals([], path) == [] && FieldsUnresolved([], path, keys) == [] && FieldNamesOf([], path) == {};
    assert FieldNamesOf([f], path) == FieldNames(f.child, path + [f.key]);
  }

  lemma NothingInTexts(secret: string, path: Path, keys: set<string>)
    ensures Unresolved(List([Text(secret)]), path, keys) == []
    ensures FieldNames(List([Text(secret)]), path) == {}
  {
    var items := [Text(secret)];
    assert items[1..] == [] && items[0] == Text(secret);
    var p := path + [Decimal(0)];
    assert Unresolved(items[0], p, keys) == [] && FieldNames(items[0], p) == {};
    assert ItemsUnresolved(items[1..], path, 1, keys) == [] && FieldNamesOfItems(items[1..], path, 1) == {};
    assert ItemsUnresolved(items, path, 0, keys) == [] && FieldNamesOfItems(items, path, 0) == {};
  }

  /** The check accepts a sanitised pool credential whose variable is not set. */
  lemma PoolCredentialUnchecked(secret: string) returns (config: Tree)
    requires Literal(Text(secret))
    ensures Validate({}, Replace(config, [])) == Prepared
    ensures Literals(config, []) != [] && Literals(config, [])[0].1 == secret
  {
    hide Literal, EnvironmentName;
    var keys := Field("keys", List([Text(secret)]));
    var pools := Field("credential_pools", Dict([keys]));
    config := Dict([pools]);
    var at := [] + ["credential_pools"];
    assert LowerText("keys") == "keys" && LowerText("credential_pools") == "credential_pools";
    assert LowerText(at[0]) == "credential_pools";
    assert PoolPath(at) && PoolList(at, keys);
    assert PoolLiterals(keys.child.items, at + ["keys"], 0)[0].1 == secret;
    assert OneFieldLiterals(keys, at)[0].1 == secret;
    OneFieldDict(keys, at, {});
    LiteralIsText(pools.child);
    assert OneFieldLiterals(pools, [])[0].1 == secret;
    OneFieldDict(pools, [], {});
    NothingInTexts(secret, at + ["keys"], {});
    SanitisedPassesIff(config, {});
  }

  // ---------- merging environment sources ----------

  datatype Binding = Binding(key: string, value: string)

  predicate Quote(c: char) { c == '"' || c == '\'' }

  function StripQuotes(s: string): string {
    if s != [] && Quote(s[0]) then StripQuotes(s[1..])
    else if s != [] && Quote(s[|s| - 1]) then StripQuotes(s[..|s| - 1])
    else s
  }

  predicate Empty(value: string) { StripQuotes(Strip(value)) == [] }

  /** Where a key's value comes from: its first binding that is not empty, or else its first. */
  ghost predicate Wins(bindings: seq<Binding>, k: nat, key: string) {
    && k < |bindings|
    && bindings[k].key == key
    && (forall i :: 0 <= i < |bindings| && bindings[i].key == key && i < k ==> Empty(bindings[i].value))
    && (Empty(bindings[k].value) ==>
          forall i :: 0 <= i < |bindings| && bindings[i].key == key ==> k <= i && Empty(bindings[i].value))
  }

  function Flat(sources: seq<seq<Binding>>): seq<Binding> {
    if sources == [] then [] else Flat(sources[..|sources| - 1]) + sources[|sources| - 1]
  }

  /** A key has a value exactly when some source binds it, and then its winning binding's. */
  ghost predicate Merged(values: Environment, bindings: seq<Binding>, key: string) {
    if key in values then exists k: nat :: WinsWith(bindings, k, key, values[key])
    else forall k :: 0 <= k < |bindings| ==> bindings[k].key != key
  }

  ghost predicate WinsWith(bindings: seq<Binding>, k: nat, key: string, value: string) {
    Wins(bindings, k, key) && value == bindings[k].value
  }

  ghost predicate AllMerged(values: Environment, bindings: seq<Binding>) {
    forall key :: Merged(values, bindings, key)
  }

  method MergedEnvironment(sources: seq<seq<Binding>>) returns (values: Environment)
    ensures AllMerged(values, Flat(sources))
  {
    hide Merged, AllMerged, Empty, Take;
    values := map[];
    NothingMerged();
    var n := 0;
    while n < |sources|
      invariant n <= |sources|
      invariant AllMerged(values, Flat(sources[..n]))
    {
      var m := 0;
      assert Flat(sources[..n]) + sources[n][..0] == Flat(sources[..n]);
      while m < |sources[n]|
        invariant m <= |sources[n]|
        invariant AllMerged(values, Flat(sources[..n]) + sources[n][..m])
      {
        ghost var seen := Flat(sources[..n]) + sources[n][..m];
        AllMergedStep(values, seen, sources[n][m]);
        values := Take(values, sources[n][m]);
        assert Flat(sources[..n]) + sources[n][..m + 1] == seen + [sources[n][m]];
        m := m + 1;
      }
      assert sources[..n + 1][..n] == sources[..n];
      assert sources[n][..m] == sources[n];
      n := n + 1;
    }
    assert sources[..n] == sources;
  }

  lemma NothingMerged()
    ensures AllMerged(map[], Flat([]))
  {
  }

  /** One binding is taken over when its key has no value yet, or an empty one and it has more. */
  function Take(values: Environment, b: Binding): Environment {
    if b.key !in values || (Empty(values[b.key]) && !Empty(b.value)) then values[b.key := b.value] else values
  }

  lemma AllMergedStep(values: Environment, bindings: seq<Binding>, b: Binding)
    requires AllMerged(values, bindings)
    ensures AllMerged(Take(values, b), bindings + [b])
  {
    hide Merged, Take;
    forall key: string ensures Merged(Take(values, b), bindings + [b], key) {
      assert Merged(values, bindings, key);
      MergedStep(values, bindings, b, key);
    }
  }

  lemma MergedStep(values: Environment, bindings: seq<Binding>, b: Binding, key: string)
    requires Merged(values, bindings, key)
    ensures Merged(Take(values, b), bindings + [b], key)
  {
    hide Empty, Wins;
    var after, longer := Take(values, b), bindings + [b];
    if key in values {
      var k: nat :| WinsWith(bindings, k, key, values[key]);
      if key == b.key && Empty(values[key]) && !Empty(b.value) {
        LastWins(bindings, b, k);
        assert WinsWith(longer, |bindings|, key, after[key]);
      } else {
        StillWins(bindings, b, k, key);
        assert WinsWith(longer, k, key, after[key]);
      }
    } else if key == b.key {
      FirstWins(bindings, b);
      assert WinsWith(longer, |bindings|, key, after[key]);
    }
  }

  lemma LastWins(bindings: seq<Binding>, b: Binding, k: nat)
    requires Wins(bindings, k, b.key) && Empty(bindings[k].value) && !Empty(b.value)
    ensures Wins(bindings + [b], |bindings|, b.key)
  {
    hide Empty;
  }

  lemma StillWins(bindings: seq<Binding>, b: Binding, k: nat, key: string)
    requires Wins(bindings, k, key)
    requires key == b.key && Empty(bindings[k].value) ==> Empty(b.value)
    ensures Wins(bindings + [b], k, key) && (bindings + [b])[k] == bindings[k]
  {
    hide Empty;
  }

  lemma FirstWins(bindings: seq<Binding>, b: Binding)
    requires forall k :: 0 <= k < |bindings| ==> bindings[k].key != b.key
    ensures Wins(bindings + [b], |bindings|, b.key)
  {
    hide Empty;
  }

  /** A key has one winning binding, so the merged environment is determined by the bindings. */
  lemma MergedUnique(a: Environment, b: Environment, bindings: seq<Binding>)
    requires AllMerged(a, bindings) && AllMerged(b, bindings)
    ensures a == b
  {
    hide Empty, Merged, Wins;
    forall key: string ensures (key in a <==> key in b) && (key in a ==> a[key] == b[key]) {
      assert Merged(a, bindings, key) && Merged(b, bindings, key);
      MergedAgree(a, b, bindings, key);
    }
  }

  lemma MergedAgree(a: Environment, b: Environment, bindings: seq<Binding>, key: string)
    requires Merged(a, bindings, key) && Merged(b, bindings, key)
    ensures (key in a <==> key in b) && (key in a ==> a[key] == b[key])
  {
    hide Empty;
    if key in a && key in b {
      var j: nat :| WinsWith(bindings, j, key, a[key]);
      var k: nat :| WinsWith(bindings, k, key, b[key]);
    }
  }
}
