/**
 The repository index: built from scratch or on top of the previously persisted index, whose
 file records and references are reused where the file is unchanged. Lists that the program
 sorts and makes unique are sets here, and the parsers are parameters.
 */
module RepositoryIndex {
  import opened Wrappers

  type Bytes = seq<bv8>

  datatype Language =
    TypeScript | JavaScript | JsonData | Markdown | Css | Html | Python | Shell | Yaml | Toml | Sql | OtherLanguage

  datatype Symbol = Symbol(name: string, kind: string, file: string, line: nat, exported: bool)

  datatype Reference = Reference(symbol: string, file: string, line: nat)

  datatype Occurrence = Occurrence(name: string, line: nat)

  /** A file as found on disk. */
  datatype Entry = Entry(path: string, bytes: Bytes, modifiedAtMs: nat)

  datatype Record = Record(
    path: string,
    hash: string,
    sizeBytes: nat,
    modifiedAtMs: nat,
    language: Language,
    binary: bool,
    imports: seq<string>,
    resolvedImports: set<string>,
    symbols: seq<Symbol>,
    references: seq<Reference>)

  datatype Index = Index(
    root: string,
    files: seq<Record>,
    symbols: seq<Symbol>,
    references: set<Reference>,
    importGraph: map<string, set<string>>,
    reverseImportGraph: map<string, set<string>>)

  datatype Stats = Stats(scanned: nat, parsed: nat, reused: nat, changed: nat, removed: nat, skippedLarge: nat)

  /** What the index knows of files: their hash and text, and what is read off the text; and the
      property names every object of the platform answers to, `toString` and `constructor` among them. */
  datatype Parsers = Parsers(
    hash: Bytes -> string,
    decode: Bytes -> string,
    language: string -> Language,
    symbols: (string, string, Language) -> seq<Symbol>,
    imports: (string, Language) -> seq<string>,
    identifiers: string -> seq<Occurrence>,
    join: (string, string) -> string,
    inherited: set<string>)

  ghost predicate Injective(p: Parsers) {
    forall a: Bytes, b: Bytes :: p.hash(a) == p.hash(b) ==> a == b
  }

  // ---------- one file ----------

  predicate LikelyText(b: Bytes) {
    forall i :: 0 <= i < |b| && i < 8192 ==> b[i] != 0
  }

  /** The file's text, empty for a binary file. */
  function TextOf(p: Parsers, e: Entry): string {
    if LikelyText(e.bytes) then p.decode(e.bytes) else ""
  }

  function Fresh(p: Parsers, e: Entry): Record {
    var text, language := TextOf(p, e), p.language(e.path);
    Record(e.path, p.hash(e.bytes), |e.bytes|, e.modifiedAtMs, language, !LikelyText(e.bytes),
           if text != "" then p.imports(text, language) else [], {},
           if text != "" then p.symbols(text, e.path, language) else [], [])
  }

  type Records = map<string, Record>

  predicate Unchanged(p: Parsers, previous: Records, e: Entry) {
    e.path in previous && previous[e.path].hash == p.hash(e.bytes)
  }

  /** The file's record before imports and references are resolved. */
  function RecordOf(p: Parsers, previous: Records, e: Entry): Record {
    if Unchanged(p, previous, e)
    then previous[e.path].(modifiedAtMs := e.modifiedAtMs, sizeBytes := |e.bytes|)
    else Fresh(p, e)
  }

  const SUFFIXES: seq<string> := [
    "", ".ts", ".tsx", ".mts", ".cts", ".js", ".jsx", ".mjs", ".cjs", ".json",
    "/index.ts", "/index.tsx", "/index.js", "/index.jsx"]

  function FirstIn(base: string, suffixes: seq<string>, paths: set<string>): Option<string> {
    if suffixes == [] then None
    else if base + suffixes[0] in paths then Some(base + suffixes[0])
    else FirstIn(base, suffixes[1..], paths)
  }

  /** The indexed file a relative import refers to. */
  function ResolveImport(p: Parsers, from: string, specifier: string, paths: set<string>): Option<string> {
    if specifier == "" || specifier[0] != '.' then None else FirstIn(p.join(from, specifier), SUFFIXES, paths)
  }

  function Resolved(p: Parsers, from: string, imports: seq<string>, paths: set<string>): set<string> {
    set s | s in imports && ResolveImport(p, from, s, paths).Some? :: ResolveImport(p, from, s, paths).value
  }

  function Mentions(file: string, identifiers: seq<Occurrence>, names: set<string>): seq<Reference> {
    if identifiers == [] then []
    else
      var last := identifiers[|identifiers| - 1];
      Mentions(file, identifiers[..|identifiers| - 1], names)
      + if last.name in names then [Reference(last.name, file, last.line)] else []
  }

  predicate DefinedAt(symbols: seq<Symbol>, r: Reference) {
    exists i :: 0 <= i < |symbols| && symbols[i].name == r.symbol && symbols[i].line == r.line
  }

  /** A file's references other than a symbol's name on the line that defines it. */
  function Visible(r: Record): set<Reference> {
    set ref | ref in r.references && !DefinedAt(r.symbols, ref)
  }

  // ---------- the whole index ----------

  function Kept(entries: seq<Entry>, maxFileBytes: nat): seq<Entry> {
    if entries == [] then []
    else
      var last := entries[|entries| - 1];
      Kept(entries[..|entries| - 1], maxFileBytes) + if |last.bytes| > maxFileBytes then [] else [last]
  }

  predicate DistinctPaths(entries: seq<Entry>) {
    forall i, j :: 0 <= i < j < |entries| ==> entries[i].path != entries[j].path
  }

  function PathsOf(entries: seq<Entry>): set<string> {
    set e | e in entries :: e.path
  }

  function SymbolsOf(records: seq<Record>): seq<Symbol> {
    if records == [] then [] else SymbolsOf(records[..|records| - 1]) + records[|records| - 1].symbols
  }

  function NamesIn(symbols: seq<Symbol>): set<string> {
    set s | s in symbols :: s.name
  }

  function ByPath(records: seq<Record>): Records {
    if records == [] then map[]
    else ByPath(records[..|records| - 1])[records[|records| - 1].path := records[|records| - 1]]
  }

  function FirstPass(p: Parsers, previous: Records, kept: seq<Entry>): seq<Record> {
    seq(|kept|, i requires 0 <= i < |kept| => RecordOf(p, previous, kept[i]))
  }

  /** A file's references: those of its previous record when no symbol name came or went and the
      file is unchanged, or else read off its text. */
  function ReferencesOf(p: Parsers, previous: Records, sameNames: bool, names: set<string>, e: Entry): seq<Reference> {
    if sameNames && Unchanged(p, previous, e) then previous[e.path].references
    else if TextOf(p, e) != "" then Mentions(e.path, p.identifiers(TextOf(p, e)), names)
    else []
  }

  function FinalRecord(p: Parsers, previous: Records, sameNames: bool, names: set<string>, paths: set<string>, e: Entry)
    : Record
  {
    var r := RecordOf(p, previous, e);
    r.(resolvedImports := Resolved(p, e.path, r.imports, paths),
       references := ReferencesOf(p, previous, sameNames, names, e))
  }

  function ImportGraph(records: seq<Record>): map<string, set<string>> {
    if records == [] then map[]
    else ImportGraph(records[..|records| - 1])[records[|records| - 1].path := records[|records| - 1].resolvedImports]
  }

  /** For every imported file, the files that import it. */
  function ReverseGraph(records: seq<Record>): map<string, set<string>> {
    map to | to in Imported(records) :: Importers(records, to)
  }

  function Imported(records: seq<Record>): set<string> {
    if records == [] then {} else Imported(records[..|records| - 1]) + records[|records| - 1].resolvedImports
  }

  function Importers(records: seq<Record>, to: string): set<string> {
    if records == [] then {}
    else
      var last := records[|records| - 1];
      Importers(records[..|records| - 1], to) + if to in last.resolvedImports then {last.path} else {}
  }

  function AllVisible(records: seq<Record>): set<Reference> {
    if records == [] then {} else AllVisible(records[..|records| - 1]) + Visible(records[|records| - 1])
  }

  function FinalPass(p: Parsers, previous: Records, previousNames: set<string>, kept: seq<Entry>): seq<Record> {
    var names := NamesIn(SymbolsOf(FirstPass(p, previous, kept)));
    seq(|kept|, i requires 0 <= i < |kept| =>
      FinalRecord(p, previous, names == previousNames, names, PathsOf(kept), kept[i]))
  }

  /** The index built on the records and symbol names of a previous one. */
  function IndexOn(p: Parsers, root: string, previous: Records, previousNames: set<string>, kept: seq<Entry>): Index {
    var records := FinalPass(p, previous, previousNames, kept);
    Index(root, records, SymbolsOf(FirstPass(p, previous, kept)), AllVisible(records),
          ImportGraph(records), ReverseGraph(records))
  }

  /** The file has a visible reference to a symbol with an inherited name, so that looking its list up
      in the still empty table finds something that is not a list. */
  predicate Inherits(p: Parsers, r: Record) { exists ref :: ref in Visible(r) && ref.symbol in p.inherited }

  predicate AnyInherits(p: Parsers, records: seq<Record>) {
    exists i :: 0 <= i < |records| && Inherits(p, records[i])
  }

  /** The index, or nothing when building it raises. */
  function Built(p: Parsers, index: Index): Option<Index> {
    if AnyInherits(p, index.files) then None else Some(index)
  }

  /** The index built from the files alone. */
  function FullIndex(p: Parsers, root: string, kept: seq<Entry>): Index {
    IndexOn(p, root, map[], {}, kept)
  }

  /** The records that may be reused: those of a previous index of the same root. */
  function Reusable(previous: Option<Index>, root: string): Records {
    if previous.Some? && previous.value.root == root then ByPath(previous.value.files) else map[]
  }

  function PreviousNames(previous: Option<Index>): set<string> {
    if previous.Some? then NamesIn(previous.value.symbols) else {}
  }

  // ---------- reuse changes nothing ----------

  lemma {:induction false} ByPathExact(p: Parsers, kept: seq<Entry>, records: seq<Record>, path: string)
    requires |records| == |kept| && forall i :: 0 <= i < |kept| ==> records[i].path == kept[i].path
    requires path in ByPath(records)
    ensures exists i :: 0 <= i < |kept| && kept[i].path == path && ByPath(records)[path] == records[i]
  {
    var n := |records| - 1;
    if records[n].path != path {
      ByPathExact(p, kept[..n], records[..n], path);
      var i :| 0 <= i < n && kept[..n][i].path == path && ByPath(records[..n])[path] == records[..n][i];
      assert kept[i].path == path && records[i] == records[..n][i];
    }
  }

  /** A record of a full index is its file's fresh record with imports and references filled in. */
  lemma FullRecordIs(p: Parsers, root: string, kept: seq<Entry>, i: nat)
    requires i < |kept|
    ensures var full := FullIndex(p, root, kept);
            && |full.files| == |kept|
            && full.files[i].(resolvedImports := {}, references := []) == Fresh(p, kept[i])
            && full.files[i].references ==
                 if TextOf(p, kept[i]) != ""
                 then Mentions(kept[i].path, p.identifiers(TextOf(p, kept[i])), NamesIn(full.symbols))
                 else []
  {
    hide Fresh, TextOf, Mentions, NamesIn, Resolved;
    FreshIsBare(p, kept[i]);
  }

  /** What reuse would take from a full index of other files is what a fresh parse gives. */
  lemma ReusableRecord(p: Parsers, root: string, earlier: seq<Entry>, e: Entry)
    requires Injective(p)
    requires Unchanged(p, Reusable(Some(FullIndex(p, root, earlier)), root), e)
    ensures var r := Reusable(Some(FullIndex(p, root, earlier)), root)[e.path];
            && r.(modifiedAtMs := e.modifiedAtMs, sizeBytes := |e.bytes|, resolvedImports := {}, references := [])
                 == Fresh(p, e)
            && r.references ==
                 if TextOf(p, e) != ""
                 then Mentions(e.path, p.identifiers(TextOf(p, e)), NamesIn(FullIndex(p, root, earlier).symbols))
                 else []
  {
    hide Mentions, NamesIn, FullIndex, LikelyText;
    var full := FullIndex(p, root, earlier);
    forall i: nat | i < |earlier|
      ensures |full.files| == |earlier| && full.files[i].path == earlier[i].path
    {
      FullRecordIs(p, root, earlier, i);
    }
    FullFilesCount(p, root, earlier);
    ByPathExact(p, earlier, full.files, e.path);
    var i :| 0 <= i < |earlier| && earlier[i].path == e.path && ByPath(full.files)[e.path] == full.files[i];
    FullRecordIs(p, root, earlier, i);
    assert full.files[i].hash == p.hash(earlier[i].bytes);
    assert earlier[i].bytes == e.bytes;
  }

  lemma FullFilesCount(p: Parsers, root: string, kept: seq<Entry>)
    ensures |FullIndex(p, root, kept).files| == |kept| && FullIndex(p, root, kept).root == root
  {
  }

  /** The previous index, if any, is the full index of some earlier state of the repository. */
  ghost predicate Genuine(p: Parsers, previous: Option<Index>) {
    previous.None? || exists earlier: seq<Entry> :: previous.value == FullIndex(p, previous.value.root, earlier)
  }

  lemma RecordOfReusable(p: Parsers, previous: Option<Index>, root: string, e: Entry)
    requires Injective(p) && Genuine(p, previous)
    ensures RecordOf(p, Reusable(previous, root), e).(resolvedImports := {}, references := [])
            == RecordOf(p, map[], e) == Fresh(p, e)
  {
    hide FullIndex, Fresh;
    if Unchanged(p, Reusable(previous, root), e) {
      var earlier: seq<Entry> :| previous.value == FullIndex(p, previous.value.root, earlier);
      FullFilesCount(p, root, earlier);
      ReusableRecord(p, root, earlier, e);
    }
    FreshIsBare(p, e);
  }

  lemma FreshIsBare(p: Parsers, e: Entry)
    ensures Fresh(p, e).(resolvedImports := {}, references := []) == Fresh(p, e)
  {
  }

  lemma {:induction false} SameSymbols(a: seq<Record>, b: seq<Record>)
    requires |a| == |b| && forall i :: 0 <= i < |a| ==> a[i].symbols == b[i].symbols
    ensures SymbolsOf(a) == SymbolsOf(b)
  {
    if a != [] {
      SameSymbols(a[..|a| - 1], b[..|b| - 1]);
    }
  }

  lemma FirstPassSymbols(p: Parsers, previous: Option<Index>, root: string, kept: seq<Entry>)
    requires Injective(p) && Genuine(p, previous)
    ensures SymbolsOf(FirstPass(p, Reusable(previous, root), kept)) == SymbolsOf(FirstPass(p, map[], kept))
  {
    hide Genuine, Injective, RecordOf, Reusable, Fresh;
    var a, b := FirstPass(p, Reusable(previous, root), kept), FirstPass(p, map[], kept);
    forall i | 0 <= i < |kept| ensures a[i].symbols == b[i].symbols {
      RecordOfReusable(p, previous, root, kept[i]);
    }
    SameSymbols(a, b);
  }

  lemma FinalRecordReusable(p: Parsers, previous: Option<Index>, root: string, names: set<string>, paths: set<string>,
                            e: Entry)
    requires Injective(p) && Genuine(p, previous)
    ensures FinalRecord(p, Reusable(previous, root), names == PreviousNames(previous), names, paths, e)
            == FinalRecord(p, map[], names == {}, names, paths, e)
  {
    hide FullIndex, Fresh, Resolved, Mentions, TextOf, NamesIn;
    RecordOfReusable(p, previous, root, e);
    if names == PreviousNames(previous) && Unchanged(p, Reusable(previous, root), e) {
      var earlier: seq<Entry> :| previous.value == FullIndex(p, previous.value.root, earlier);
      FullFilesCount(p, root, earlier);
      ReusableRecord(p, root, earlier, e);
    }
  }

  /** Building on a genuine previous index, or on none, gives the index of a full rebuild. */
  lemma IncrementalIsFull(p: Parsers, previous: Option<Index>, root: string, kept: seq<Entry>)
    requires Injective(p) && Genuine(p, previous)
    ensures IndexOn(p, root, Reusable(previous, root), PreviousNames(previous), kept) == FullIndex(p, root, kept)
    ensures Genuine(p, Some(IndexOn(p, root, Reusable(previous, root), PreviousNames(previous), kept)))
  {
    hide FirstPass, SymbolsOf, NamesIn, FinalRecord, Reusable, PreviousNames, Injective;
    FirstPassSymbols(p, previous, root, kept);
    var names := NamesIn(SymbolsOf(FirstPass(p, map[], kept)));
    var a := FinalPass(p, Reusable(previous, root), PreviousNames(previous), kept);
    var b := FinalPass(p, map[], {}, kept);
    forall i | 0 <= i < |kept| ensures a[i] == b[i] {
      FinalRecordReusable(p, previous, root, names, PathsOf(kept), kept[i]);
    }
    assert a == b;
    assert FullIndex(p, root, kept).root == root;
  }

  // ---------- chains of builds ----------

  /** What can happen to a repository's cached index: a build, perhaps from scratch and perhaps
      not persisted, or the loss of the cache file. */
  datatype Event =
    | Build(root: string, entries: seq<Entry>, maxFileBytes: nat, forceFull: bool, persist: bool)
    | LoseCache

  function BuildOn(p: Parsers, cache: Option<Index>, e: Event): Option<Index>
    requires e.Build?
  {
    var previous := if e.forceFull then None else cache;
    Built(p, IndexOn(p, e.root, Reusable(previous, e.root), PreviousNames(previous),
                     Kept(e.entries, Limit(e.maxFileBytes))))
  }

  function Limit(maxFileBytes: nat): nat { if maxFileBytes < 1024 then 1024 else maxFileBytes }

  /** What the builds of a run return, nothing for one that raises, and the cache it ends with. */
  function Run(p: Parsers, cache: Option<Index>, events: seq<Event>): (seq<Option<Index>>, Option<Index>) {
    if events == [] then ([], cache)
    else
      var (results, after) := Run(p, cache, events[..|events| - 1]);
      match events[|events| - 1]
      case LoseCache => (results, None)
      case Build(_, _, _, _, persist) =>
        var index := BuildOn(p, after, events[|events| - 1]);
        (results + [index], if persist && index.Some? then index else after)
  }

  function Rebuilds(p: Parsers, events: seq<Event>): seq<Option<Index>> {
    if events == [] then []
    else
      Rebuilds(p, events[..|events| - 1]) +
      match events[|events| - 1]
      case LoseCache => []
      case Build(root, entries, maxFileBytes, _, _) =>
        [Built(p, FullIndex(p, root, Kept(entries, if maxFileBytes < 1024 then 1024 else maxFileBytes)))]
  }

  /** Over any chain of builds, every build returns what rebuilding from scratch would have returned,
      and raises where that would have raised. */
  lemma {:induction false} ChainsAreRebuilds(p: Parsers, cache: Option<Index>, events: seq<Event>)
    requires Injective(p) && Genuine(p, cache)
    ensures Run(p, cache, events).0 == Rebuilds(p, events)
    ensures Genuine(p, Run(p, cache, events).1)
  {
    hide Injective, Genuine, IndexOn, FullIndex, Kept, Reusable, PreviousNames, AnyInherits;
    GenuineNone(p);
    if events != [] {
      ChainsAreRebuilds(p, cache, events[..|events| - 1]);
      var after := Run(p, cache, events[..|events| - 1]).1;
      var last := events[|events| - 1];
      if last.Build? {
        var kept := Kept(last.entries, Limit(last.maxFileBytes));
        IncrementalIsFull(p, if last.forceFull then None else after, last.root, kept);
      }
    }
  }

  lemma GenuineNone(p: Parsers)
    ensures Genuine(p, None)
  {
  }

  // ---------- what a full index says ----------

  lemma {:induction false} ImportersExact(records: seq<Record>, to: string, from: string)
    ensures from in Importers(records, to) <==>
            exists i :: 0 <= i < |records| && records[i].path == from && to in records[i].resolvedImports
  {
    if records != [] {
      var n := |records| - 1;
      ImportersExact(records[..n], to, from);
      if exists i :: 0 <= i < |records| && records[i].path == from && to in records[i].resolvedImports {
        var i :| 0 <= i < |records| && records[i].path == from && to in records[i].resolvedImports;
        assert i < n ==> records[..n][i] == records[i];
      }
    }
  }

  lemma {:induction false} ImportedExact(records: seq<Record>, to: string)
    ensures to in Imported(records) <==> exists i :: 0 <= i < |records| && to in records[i].resolvedImports
  {
    if records != [] {
      var n := |records| - 1;
      ImportedExact(records[..n], to);
      if exists i :: 0 <= i < |records| && to in records[i].resolvedImports {
        var i :| 0 <= i < |records| && to in records[i].resolvedImports;
        assert i < n ==> records[..n][i] == records[i];
      }
    }
  }

  predicate DistinctRecords(records: seq<Record>) {
    forall i, j :: 0 <= i < j < |records| ==> records[i].path != records[j].path
  }

  lemma {:induction false} ImportGraphExact(records: seq<Record>, i: nat)
    requires DistinctRecords(records) && i < |records|
    ensures records[i].path in ImportGraph(records)
    ensures ImportGraph(records)[records[i].path] == records[i].resolvedImports
  {
    var n := |records| - 1;
    if i < n {
      ImportGraphExact(records[..n], i);
    }
  }

  lemma {:induction false} ImportGraphKeys(records: seq<Record>, path: string)
    requires path in ImportGraph(records)
    ensures exists i :: 0 <= i < |records| && records[i].path == path
  {
    var n := |records| - 1;
    if records[n].path != path {
      ImportGraphKeys(records[..n], path);
      var i :| 0 <= i < n && records[..n][i].path == path;
      assert records[i].path == path;
    }
  }

  ghost predicate Edge(graph: map<string, set<string>>, from: string, to: string) {
    from in graph && to in graph[from]
  }

  /** The reverse import graph is the transpose of the import graph, and names imported files only. */
  lemma ReverseIsTranspose(records: seq<Record>)
    requires DistinctRecords(records)
    ensures forall from, to :: Edge(ReverseGraph(records), to, from) <==> Edge(ImportGraph(records), from, to)
    ensures forall to :: to in ReverseGraph(records) ==> ReverseGraph(records)[to] != {}
  {
    hide ImportGraph, Imported, Importers, DistinctRecords;
    forall from, to ensures Edge(ReverseGraph(records), to, from) <==> Edge(ImportGraph(records), from, to) {
      ImportersExact(records, to, from);
      ImportedExact(records, to);
      if Edge(ImportGraph(records), from, to) {
        ImportGraphKeys(records, from);
        var i :| 0 <= i < |records| && records[i].path == from;
        ImportGraphExact(records, i);
      }
      if Edge(ReverseGraph(records), to, from) {
        var i :| 0 <= i < |records| && records[i].path == from && to in records[i].resolvedImports;
        ImportGraphExact(records, i);
      }
    }
    forall to | to in ReverseGraph(records) ensures ReverseGraph(records)[to] != {} {
      ImportedExact(records, to);
      var i :| 0 <= i < |records| && to in records[i].resolvedImports;
      ImportersExact(records, to, records[i].path);
      assert records[i].path in Importers(records, to);
    }
  }

  lemma {:induction false} KeptSubset(entries: seq<Entry>, maxFileBytes: nat)
    ensures forall e :: e in Kept(entries, maxFileBytes) <==> e in entries && |e.bytes| <= maxFileBytes
    ensures DistinctPaths(entries) ==> DistinctPaths(Kept(entries, maxFileBytes))
  {
    if entries != [] {
      var n := |entries| - 1;
      KeptSubset(entries[..n], maxFileBytes);
      assert entries == entries[..n] + [entries[n]];
      var kept := Kept(entries[..n], maxFileBytes);
      if DistinctPaths(entries) {
        forall i | 0 <= i < |kept| ensures kept[i].path != entries[n].path {
          assert kept[i] in entries[..n];
        }
      }
    }
  }

  /** The graphs of an index of distinct files are each other's transpose, and every edge leads
      from an indexed file to an indexed file. */
  lemma IndexGraphs(p: Parsers, root: string, kept: seq<Entry>)
    requires DistinctPaths(kept)
    ensures var full := FullIndex(p, root, kept);
            && (forall from, to :: Edge(full.reverseImportGraph, to, from) <==> Edge(full.importGraph, from, to))
            && (forall from, to :: Edge(full.importGraph, from, to) ==> from in PathsOf(kept) && to in PathsOf(kept))
  {
    hide ImportGraph, ReverseGraph, Resolved;
    var full := FullIndex(p, root, kept);
    forall i: nat | i < |kept| ensures full.files[i].path == kept[i].path {
      FullRecordIs(p, root, kept, i);
    }
    assert DistinctRecords(full.files);
    ReverseIsTranspose(full.files);
    forall from, to | Edge(full.importGraph, from, to) ensures from in PathsOf(kept) && to in PathsOf(kept) {
      ImportGraphKeys(full.files, from);
      var i :| 0 <= i < |full.files| && full.files[i].path == from;
      ImportGraphExact(full.files, i);
      ResolvedInside(p, from, full.files[i].imports, PathsOf(kept));
      assert kept[i] in kept;
    }
  }

  lemma ResolvedInside(p: Parsers, from: string, imports: seq<string>, paths: set<string>)
    ensures Resolved(p, from, imports, paths) <= paths
  {
    hide FirstIn;
    forall s | s in imports && ResolveImport(p, from, s, paths).Some?
      ensures ResolveImport(p, from, s, paths).value in paths
    {
      FirstInside(p.join(from, s), SUFFIXES, paths);
    }
  }

  lemma {:induction false} FirstInside(base: string, suffixes: seq<string>, paths: set<string>)
    ensures FirstIn(base, suffixes, paths).Some? ==> FirstIn(base, suffixes, paths).value in paths
    ensures FirstIn(base, suffixes, paths).None? <==> forall s :: s in suffixes ==> base + s !in paths
  {
    if suffixes != [] {
      FirstInside(base, suffixes[1..], paths);
      assert suffixes == [suffixes[0]] + suffixes[1..];
    }
  }

  lemma {:induction false} MentionsExact(file: string, identifiers: seq<Occurrence>, names: set<string>, r: Reference)
    ensures r in Mentions(file, identifiers, names) <==>
            r.file == file && r.symbol in names && Occurrence(r.symbol, r.line) in identifiers
  {
    if identifiers != [] {
      var n := |identifiers| - 1;
      MentionsExact(file, identifiers[..n], names, r);
      assert identifiers == identifiers[..n] + [identifiers[n]];
    }
  }

  lemma {:induction false} AllVisibleExact(records: seq<Record>, r: Reference)
    ensures r in AllVisible(records) <==> exists i :: 0 <= i < |records| && r in Visible(records[i])
  {
    hide Visible;
    if records != [] {
      var n := |records| - 1;
      AllVisibleExact(records[..n], r);
      if exists i :: 0 <= i < |records| && r in Visible(records[i]) {
        var i :| 0 <= i < |records| && r in Visible(records[i]);
        assert i < n ==> records[..n][i] == records[i];
      }
    }
  }

  /** A file's text mentions the reference's name on its line, and does not define it there. */
  ghost predicate MentionedIn(p: Parsers, e: Entry, r: Reference) {
    && e.path == r.file
    && TextOf(p, e) != ""
    && Occurrence(r.symbol, r.line) in p.identifiers(TextOf(p, e))
    && forall symbol :: symbol in p.symbols(TextOf(p, e), e.path, p.language(e.path)) ==>
         symbol.name != r.symbol || symbol.line != r.line
  }

  /** The references are exactly the mentions, off their defining lines, of names some indexed file defines. */
  lemma ReferencesExact(p: Parsers, root: string, kept: seq<Entry>, r: Reference)
    ensures r in FullIndex(p, root, kept).references <==>
            r.symbol in NamesIn(FullIndex(p, root, kept).symbols)
            && exists i :: 0 <= i < |kept| && MentionedIn(p, kept[i], r)
  {
    hide AllVisible, Mentions, NamesIn, FullIndex, TextOf, MentionedIn, Visible;
    var full := FullIndex(p, root, kept);
    FullReferences(p, root, kept);
    FullFilesCount(p, root, kept);
    AllVisibleExact(full.files, r);
    forall i | 0 <= i < |kept|
      ensures r in Visible(full.files[i]) <==> r.symbol in NamesIn(full.symbols) && MentionedIn(p, kept[i], r)
    {
      VisibleExact(p, root, kept, i, r);
    }
  }

  lemma FullReferences(p: Parsers, root: string, kept: seq<Entry>)
    ensures FullIndex(p, root, kept).references == AllVisible(FullIndex(p, root, kept).files)
  {
  }

  lemma VisibleExact(p: Parsers, root: string, kept: seq<Entry>, i: nat, r: Reference)
    requires i < |kept| == |FullIndex(p, root, kept).files|
    ensures r in Visible(FullIndex(p, root, kept).files[i]) <==>
            r.symbol in NamesIn(FullIndex(p, root, kept).symbols) && MentionedIn(p, kept[i], r)
  {
    hide Mentions, NamesIn, FullIndex, TextOf;
    FullRecordIs(p, root, kept, i);
    var e := kept[i];
    MentionsExact(e.path, p.identifiers(TextOf(p, e)), NamesIn(FullIndex(p, root, kept).symbols), r);
    var symbols := FullIndex(p, root, kept).files[i].symbols;
    assert symbols == Fresh(p, e).symbols;
    if exists symbol :: symbol in symbols && symbol.name == r.symbol && symbol.line == r.line {
      var symbol :| symbol in symbols && symbol.name == r.symbol && symbol.line == r.line;
      var j :| 0 <= j < |symbols| && symbols[j] == symbol;
      assert DefinedAt(symbols, r);
    }
  }

  /** Building an index raises exactly when some indexed file mentions, off its defining line, a name
      that some indexed file defines and every object already answers to. */
  lemma BuildRaisesIff(p: Parsers, root: string, kept: seq<Entry>)
    ensures Built(p, FullIndex(p, root, kept)).None? <==>
            exists i, r :: 0 <= i < |kept| && MentionedIn(p, kept[i], r)
                           && r.symbol in NamesIn(FullIndex(p, root, kept).symbols) && r.symbol in p.inherited
  {
    hide NamesIn, FullIndex, TextOf, MentionedIn, Visible;
    var full := FullIndex(p, root, kept);
    FullFilesCount(p, root, kept);
    forall i, r | 0 <= i < |kept|
      ensures r in Visible(full.files[i]) <==> r.symbol in NamesIn(full.symbols) && MentionedIn(p, kept[i], r)
    {
      VisibleExact(p, root, kept, i, r);
    }
    if exists i, r :: 0 <= i < |kept| && MentionedIn(p, kept[i], r) && r.symbol in NamesIn(full.symbols)
                      && r.symbol in p.inherited {
      var i, r :| 0 <= i < |kept| && MentionedIn(p, kept[i], r) && r.symbol in NamesIn(full.symbols)
                  && r.symbol in p.inherited;
      assert r in Visible(full.files[i]);
      assert Inherits(p, full.files[i]);
    }
    if AnyInherits(p, full.files) {
      var i :| 0 <= i < |full.files| && Inherits(p, full.files[i]);
      var r :| r in Visible(full.files[i]) && r.symbol in p.inherited;
      assert MentionedIn(p, kept[i], r);
    }
  }

  // ---------- what is read off the files ----------

  /** The text of an indexed file: no zero byte among its first 8192, and something to read. */
  ghost predicate Readable(p: Parsers, e: Entry) {
    (forall i :: 0 <= i < |e.bytes| && i < 8192 ==> e.bytes[i] != 0) && p.decode(e.bytes) != ""
  }

  /** The records of an index say of every file what its bytes, its path and its text say. */
  lemma FilesExact(p: Parsers, root: string, kept: seq<Entry>, i: nat)
    requires i < |kept|
    ensures var full := FullIndex(p, root, kept);
            |full.files| == |kept| &&
            var r, e := full.files[i], kept[i];
            && r.path == e.path && r.hash == p.hash(e.bytes) && r.sizeBytes == |e.bytes|
            && r.modifiedAtMs == e.modifiedAtMs && r.language == p.language(e.path)
            && (r.binary <==> exists j :: 0 <= j < |e.bytes| && j < 8192 && e.bytes[j] == 0)
            && r.imports == (if Readable(p, e) then p.imports(p.decode(e.bytes), r.language) else [])
            && r.symbols == (if Readable(p, e) then p.symbols(p.decode(e.bytes), e.path, r.language) else [])
  {
    hide Mentions, NamesIn, FullIndex;
    FullRecordIs(p, root, kept, i);
    var r := FullIndex(p, root, kept).files[i];
    assert r.(resolvedImports := {}, references := []) == Fresh(p, kept[i]);
  }

  /** The symbols of an index are exactly those of its readable files. */
  lemma SymbolsExact(p: Parsers, root: string, kept: seq<Entry>, symbol: Symbol)
    ensures symbol in FullIndex(p, root, kept).symbols <==>
            exists i :: 0 <= i < |kept| && Readable(p, kept[i])
                        && symbol in p.symbols(p.decode(kept[i].bytes), kept[i].path, p.language(kept[i].path))
  {
    hide Fresh, TextOf, Readable;
    var first := FirstPass(p, map[], kept);
    SymbolsOfExact(first, symbol);
    forall i | 0 <= i < |kept|
      ensures first[i].symbols ==
              if Readable(p, kept[i]) then p.symbols(p.decode(kept[i].bytes), kept[i].path, p.language(kept[i].path)) else []
    {
      FreshSymbols(p, kept[i]);
    }
  }

  lemma FreshSymbols(p: Parsers, e: Entry)
    ensures Fresh(p, e).symbols ==
            if Readable(p, e) then p.symbols(p.decode(e.bytes), e.path, p.language(e.path)) else []
  {
  }

  lemma {:induction false} SymbolsOfExact(records: seq<Record>, symbol: Symbol)
    ensures symbol in SymbolsOf(records) <==> exists i :: 0 <= i < |records| && symbol in records[i].symbols
  {
    if records != [] {
      var n := |records| - 1;
      SymbolsOfExact(records[..n], symbol);
      if exists i :: 0 <= i < |records| && symbol in records[i].symbols {
        var i :| 0 <= i < |records| && symbol in records[i].symbols;
        assert i < n ==> records[..n][i] == records[i];
      }
    }
  }

  /** The file's text has a relative import of which this is the first candidate that is indexed. */
  ghost predicate ImportsFrom(p: Parsers, e: Entry, paths: set<string>, specifier: string, k: nat, to: string) {
    && Readable(p, e) && specifier in p.imports(p.decode(e.bytes), p.language(e.path))
    && |specifier| > 0 && specifier[0] == '.'
    && k < |SUFFIXES| && to == p.join(e.path, specifier) + SUFFIXES[k] && to in paths
    && forall j :: 0 <= j < k ==> p.join(e.path, specifier) + SUFFIXES[j] !in paths
  }

  lemma {:induction false} FirstInIs(base: string, suffixes: seq<string>, paths: set<string>, k: nat)
    requires k < |suffixes| && base + suffixes[k] in paths
    requires forall j :: 0 <= j < k ==> base + suffixes[j] !in paths
    ensures FirstIn(base, suffixes, paths) == Some(base + suffixes[k])
  {
    if k > 0 {
      assert base + suffixes[0] !in paths;
      assert forall j :: 0 <= j < k - 1 ==> suffixes[1..][j] == suffixes[j + 1];
      FirstInIs(base, suffixes[1..], paths, k - 1);
    }
  }

  lemma {:induction false} FirstInAt(base: string, suffixes: seq<string>, paths: set<string>) returns (k: nat)
    requires FirstIn(base, suffixes, paths).Some?
    ensures k < |suffixes| && FirstIn(base, suffixes, paths) == Some(base + suffixes[k])
    ensures forall j :: 0 <= j < k ==> base + suffixes[j] !in paths
    ensures base + suffixes[k] in paths
  {
    k := 0;
    if base + suffixes[0] !in paths {
      var rest := FirstInAt(base, suffixes[1..], paths);
      k := rest + 1;
      assert forall j :: 0 < j <= rest + 1 ==> suffixes[j] == suffixes[1..][j - 1];
    }
  }

  /** The import graph has exactly the edges that relative imports make: from each readable file to
      the first candidate of each of its imports that is among the indexed files. */
  lemma ImportEdgesExact(p: Parsers, root: string, kept: seq<Entry>, from: string, to: string)
    requires DistinctPaths(kept)
    ensures Edge(FullIndex(p, root, kept).importGraph, from, to) <==>
            exists i, s, k :: 0 <= i < |kept| && kept[i].path == from && ImportsFrom(p, kept[i], PathsOf(kept), s, k, to)
  {
    hide ImportGraph, FullIndex, ImportsFrom, Readable, Resolved;
    var full := FullIndex(p, root, kept);
    forall i: nat | i < |kept|
      ensures |full.files| == |kept| && full.files[i].path == kept[i].path
      ensures to in full.files[i].resolvedImports <==> exists s, k :: ImportsFrom(p, kept[i], PathsOf(kept), s, k, to)
    {
      FilesExact(p, root, kept, i);
      ResolvedExact(p, root, kept, i, to);
    }
    FullFilesCount(p, root, kept);
    GraphOfFiles(p, root, kept);
    assert DistinctRecords(full.files);
    if Edge(full.importGraph, from, to) {
      ImportGraphKeys(full.files, from);
      var i :| 0 <= i < |full.files| && full.files[i].path == from;
      ImportGraphExact(full.files, i);
    }
    forall i | 0 <= i < |kept| && kept[i].path == from ensures Edge(full.importGraph, from, to) <==> to in full.files[i].resolvedImports {
      ImportGraphExact(full.files, i);
    }
  }

  lemma GraphOfFiles(p: Parsers, root: string, kept: seq<Entry>)
    ensures FullIndex(p, root, kept).importGraph == ImportGraph(FullIndex(p, root, kept).files)
  {
  }

  lemma ResolvedExact(p: Parsers, root: string, kept: seq<Entry>, i: nat, to: string)
    requires i < |kept| == |FullIndex(p, root, kept).files|
    ensures to in FullIndex(p, root, kept).files[i].resolvedImports <==>
            exists s, k :: ImportsFrom(p, kept[i], PathsOf(kept), s, k, to)
  {
    hide FirstIn, Readable, PathsOf;
    var e, paths := kept[i], PathsOf(kept);
    var imports := Fresh(p, e).imports;
    FreshImports(p, e);
    assert FullIndex(p, root, kept).files[i].resolvedImports == Resolved(p, e.path, imports, paths);
    if to in Resolved(p, e.path, imports, paths) {
      var s :| s in imports && ResolveImport(p, e.path, s, paths) == Some(to);
      var k := FirstInAt(p.join(e.path, s), SUFFIXES, paths);
      assert ImportsFrom(p, e, paths, s, k, to);
    }
    forall s, k: nat | ImportsFrom(p, e, paths, s, k, to) ensures to in Resolved(p, e.path, imports, paths) {
      FirstInIs(p.join(e.path, s), SUFFIXES, paths, k);
      assert ResolveImport(p, e.path, s, paths) == Some(to);
    }
  }

  lemma FreshImports(p: Parsers, e: Entry)
    ensures Fresh(p, e).imports == if Readable(p, e) then p.imports(p.decode(e.bytes), p.language(e.path)) else []
  {
  }

  // ---------- the build ----------

  datatype ParsedFile = ParsedFile(record: Record, identifiers: seq<Occurrence>, text: string)

  predicate Scanned(language: Language) { language == TypeScript || language == JavaScript || language == Python }

  function ParsedOf(p: Parsers, previous: Records, e: Entry): ParsedFile {
    var text := TextOf(p, e);
    ParsedFile(RecordOf(p, previous, e),
               if text != "" && !Unchanged(p, previous, e) && Scanned(p.language(e.path))
               then p.identifiers(text) else [],
               text)
  }

  function ReusedCount(p: Parsers, previous: Records, kept: seq<Entry>): nat {
    if kept == [] then 0
    else
      ReusedCount(p, previous, kept[..|kept| - 1]) +
      if Unchanged(p, previous, kept[|kept| - 1]) then 1 else 0
  }

  /** The files whose path and content hash were indexed before. */
  ghost function Reused(p: Parsers, previous: Records, kept: seq<Entry>): set<nat> {
    set i: nat | i < |kept| && kept[i].path in previous && previous[kept[i].path].hash == p.hash(kept[i].bytes)
  }

  /** The records reused are those of exactly these files. */
  lemma {:induction false} ReusedExact(p: Parsers, previous: Records, kept: seq<Entry>)
    ensures ReusedCount(p, previous, kept) == |Reused(p, previous, kept)|
  {
    hide Reused;
    if kept == [] {
      NoneReused(p, previous);
    } else {
      ReusedExact(p, previous, kept[..|kept| - 1]);
      ReusedLast(p, previous, kept);
    }
  }

  lemma NoneReused(p: Parsers, previous: Records)
    ensures Reused(p, previous, []) == {}
  {
  }

  lemma ReusedLast(p: Parsers, previous: Records, kept: seq<Entry>)
    requires kept != []
    ensures var n := |kept| - 1;
            && Reused(p, previous, kept) ==
                 Reused(p, previous, kept[..n]) + (if Unchanged(p, previous, kept[n]) then {n} else {})
            && n !in Reused(p, previous, kept[..n])
  {
  }

  /** What persisting is for: after a build that returned and was persisted, building the same files again
      reuses every one of them. */
  lemma NextBuildReusesAll(p: Parsers, cache: Option<Index>, events: seq<Event>, e: Event)
    requires Injective(p) && Genuine(p, cache) && e.Build? && e.persist
    requires DistinctPaths(Kept(e.entries, Limit(e.maxFileBytes)))
    requires BuildOn(p, Run(p, cache, events).1, e).Some?
    ensures var after := Run(p, cache, events + [e]).1;
            ReusedCount(p, Reusable(after, e.root), Kept(e.entries, Limit(e.maxFileBytes)))
            == |Kept(e.entries, Limit(e.maxFileBytes))|
  {
    hide Injective, Genuine, IndexOn, FullIndex, Kept, Reusable, PreviousNames, AnyInherits, ReusedCount, BuildOn;
    ChainsAreRebuilds(p, cache, events);
    assert (events + [e])[..|events|] == events;
    var kept := Kept(e.entries, Limit(e.maxFileBytes));
    BuiltIsFull(p, Run(p, cache, events).1, e);
    AllReusable(p, e.root, kept);
    AllReused(p, Reusable(Some(FullIndex(p, e.root, kept)), e.root), kept);
  }

  lemma BuiltIsFull(p: Parsers, cache: Option<Index>, e: Event)
    requires Injective(p) && Genuine(p, cache) && e.Build? && BuildOn(p, cache, e).Some?
    ensures BuildOn(p, cache, e) == Some(FullIndex(p, e.root, Kept(e.entries, Limit(e.maxFileBytes))))
  {
    hide Injective, Genuine, IndexOn, FullIndex, Kept, Reusable, PreviousNames, AnyInherits;
    GenuineNone(p);
    IncrementalIsFull(p, if e.forceFull then None else cache, e.root, Kept(e.entries, Limit(e.maxFileBytes)));
  }

  lemma AllReusable(p: Parsers, root: string, kept: seq<Entry>)
    requires DistinctPaths(kept)
    ensures forall i :: 0 <= i < |kept| ==> Unchanged(p, Reusable(Some(FullIndex(p, root, kept)), root), kept[i])
  {
    hide FullIndex, ByPath;
    var full := FullIndex(p, root, kept);
    FullFilesCount(p, root, kept);
    forall i: nat | i < |kept|
      ensures kept[i].path in ByPath(full.files) && ByPath(full.files)[kept[i].path].hash == p.hash(kept[i].bytes)
    {
      forall j: nat | j < |kept| ensures full.files[j].path == kept[j].path {
        FilesExact(p, root, kept, j);
      }
      FilesExact(p, root, kept, i);
      ByPathAt(full.files, i);
    }
  }

  lemma {:induction false} ByPathAt(records: seq<Record>, i: nat)
    requires i < |records| && DistinctRecords(records)
    ensures records[i].path in ByPath(records) && ByPath(records)[records[i].path] == records[i]
  {
    var n := |records| - 1;
    if i < n {
      ByPathAt(records[..n], i);
    }
  }

  lemma {:induction false} AllReused(p: Parsers, previous: Records, kept: seq<Entry>)
    requires forall i :: 0 <= i < |kept| ==> Unchanged(p, previous, kept[i])
    ensures ReusedCount(p, previous, kept) == |kept|
  {
    hide Unchanged;
    if kept != [] {
      AllReused(p, previous, kept[..|kept| - 1]);
    }
  }

  lemma KeptNext(entries: seq<Entry>, i: nat, maxFileBytes: nat)
    requires i < |entries|
    ensures Kept(entries[..i + 1], maxFileBytes) ==
            Kept(entries[..i], maxFileBytes) + if |entries[i].bytes| > maxFileBytes then [] else [entries[i]]
  {
    assert entries[..i + 1][..i] == entries[..i];
  }

  lemma ReusedNext(p: Parsers, previous: Records, kept: seq<Entry>, e: Entry)
    ensures ReusedCount(p, previous, kept + [e]) ==
            ReusedCount(p, previous, kept) + if Unchanged(p, previous, e) then 1 else 0
  {
    assert (kept + [e])[..|kept|] == kept;
  }

  lemma NothingKept(p: Parsers, previous: Records, maxFileBytes: nat)
    ensures Kept([], maxFileBytes) == [] && ReusedCount(p, previous, []) == 0
  {
  }

  /** The first pass: reads every file that is not too large, and reuses the unchanged ones' records. */
  method ParseFiles(p: Parsers, previous: Records, entries: seq<Entry>, maxFileBytes: nat)
    returns (parsed: seq<ParsedFile>, reused: nat, changed: nat, skipped: nat)
    ensures var kept := Kept(entries, maxFileBytes);
            && |parsed| == |kept|
            && (forall i :: 0 <= i < |kept| ==> parsed[i] == ParsedOf(p, previous, kept[i]))
            && reused == ReusedCount(p, previous, kept)
            && reused + changed == |kept|
            && skipped + |kept| == |entries|
  {
    hide RecordOf, TextOf, Scanned, Unchanged, Kept, ReusedCount;
    NothingKept(p, previous, maxFileBytes);
    assert entries[..0] == [];
    parsed, reused, changed, skipped := [], 0, 0, 0;
    var i := 0;
    while i < |entries|
      invariant i <= |entries|
      invariant |parsed| == |Kept(entries[..i], maxFileBytes)|
      invariant forall j :: 0 <= j < |parsed| ==> parsed[j] == ParsedOf(p, previous, Kept(entries[..i], maxFileBytes)[j])
      invariant reused == ReusedCount(p, previous, Kept(entries[..i], maxFileBytes))
      invariant reused + changed == |parsed| && skipped + |parsed| == i
    {
      var e := entries[i];
      ghost var before := Kept(entries[..i], maxFileBytes);
      KeptNext(entries, i, maxFileBytes);
      if |e.bytes| > maxFileBytes {
        assert before + [] == before;
        skipped := skipped + 1;
      } else {
        ReusedNext(p, previous, before, e);
        var text := TextOf(p, e);
        var same := Unchanged(p, previous, e);
        if same {
          reused := reused + 1;
        } else {
          changed := changed + 1;
        }
        var identifiers :=
          if text != "" && !same && Scanned(p.language(e.path)) then p.identifiers(text) else [];
        parsed := parsed + [ParsedFile(RecordOf(p, previous, e), identifiers, text)];
      }
      i := i + 1;
    }
    assert entries[..i] == entries;
  }

  /** The second pass: resolves imports and records every edge in both graphs. */
  method LinkImports(p: Parsers, files: seq<Record>)
    returns (linked: seq<Record>, graph: map<string, set<string>>, reverse: map<string, set<string>>)
    ensures |linked| == |files|
    ensures forall i :: 0 <= i < |files| ==>
              linked[i] == files[i].(resolvedImports :=
                             Resolved(p, files[i].path, files[i].imports, RecordPaths(files)))
    ensures graph == ImportGraph(linked) && reverse == ReverseGraph(linked)
  {
    hide Resolved, ImportGraph, ReverseGraph, WithEdges, RecordPaths;
    var fileSet := RecordPaths(files);
    linked, graph, reverse := [], map[], map[];
    NoGraphs();
    var i := 0;
    while i < |files|
      invariant i == |linked| <= |files|
      invariant forall j :: 0 <= j < i ==>
                  linked[j] == files[j].(resolvedImports := Resolved(p, files[j].path, files[j].imports, fileSet))
      invariant graph == ImportGraph(linked) && reverse == ReverseGraph(linked)
    {
      var file := files[i].(resolvedImports := Resolved(p, files[i].path, files[i].imports, fileSet));
      ghost var earlier := reverse;
      graph := graph[file.path := file.resolvedImports];
      var rest := file.resolvedImports;
      NoEdges(earlier, file.path);
      assert file.resolvedImports - rest == {};
      while rest != {}
        invariant rest <= file.resolvedImports
        invariant reverse == WithEdges(earlier, file.resolvedImports - rest, file.path)
        decreases |rest|
      {
        var imported :| imported in rest;
        var dependents := if imported in reverse then reverse[imported] else {};
        EdgeStep(earlier, file.resolvedImports - rest, file.path, imported);
        reverse := reverse[imported := dependents + {file.path}];
        assert file.resolvedImports - (rest - {imported}) == (file.resolvedImports - rest) + {imported};
        rest := rest - {imported};
      }
      assert file.resolvedImports - rest == file.resolvedImports;
      GraphsStep(linked, file);
      linked := linked + [file];
      i := i + 1;
    }
  }

  function RecordPaths(files: seq<Record>): set<string> {
    set r | r in files :: r.path
  }

  /** The reverse graph with one more importer of each of the given files. */
  function WithEdges(reverse: map<string, set<string>>, imported: set<string>, from: string): map<string, set<string>> {
    map to | to in reverse.Keys + imported ::
      (if to in reverse then reverse[to] else {}) + (if to in imported then {from} else {})
  }

  lemma NoEdges(reverse: map<string, set<string>>, from: string)
    ensures WithEdges(reverse, {}, from) == reverse
  {
    var after := WithEdges(reverse, {}, from);
    assert after.Keys == reverse.Keys;
    assert forall to :: to in reverse ==> after[to] == reverse[to] + {} == reverse[to];
  }

  lemma EdgeStep(reverse: map<string, set<string>>, imported: set<string>, from: string, next: string)
    requires next !in imported
    ensures var before := WithEdges(reverse, imported, from);
            WithEdges(reverse, imported + {next}, from) ==
            before[next := (if next in before then before[next] else {}) + {from}]
  {
    hide WithEdges;
    var before, after := WithEdges(reverse, imported, from), WithEdges(reverse, imported + {next}, from);
    var stepped := before[next := (if next in before then before[next] else {}) + {from}];
    forall to
      ensures to in after <==> to in stepped
      ensures to in after ==> after[to] == stepped[to]
    {
      EdgesAt(reverse, imported, from, to);
      EdgesAt(reverse, imported + {next}, from, to);
    }
  }

  lemma EdgesAt(reverse: map<string, set<string>>, imported: set<string>, from: string, to: string)
    ensures to in WithEdges(reverse, imported, from) <==> to in reverse || to in imported
    ensures to in WithEdges(reverse, imported, from) ==>
              WithEdges(reverse, imported, from)[to] ==
              (if to in reverse then reverse[to] else {}) + (if to in imported then {from} else {})
  {
  }

  lemma NoGraphs()
    ensures ImportGraph([]) == map[] && ReverseGraph([]) == map[]
  {
  }

  lemma GraphsStep(linked: seq<Record>, file: Record)
    ensures ImportGraph(linked + [file]) == ImportGraph(linked)[file.path := file.resolvedImports]
    ensures ReverseGraph(linked + [file]) == WithEdges(ReverseGraph(linked), file.resolvedImports, file.path)
  {
    var longer := linked + [file];
    assert longer[..|linked|] == linked;
    assert Imported(longer) == Imported(linked) + file.resolvedImports;
    forall to | to in Imported(longer)
      ensures ReverseGraph(longer)[to] == WithEdges(ReverseGraph(linked), file.resolvedImports, file.path)[to]
    {
      ImportedHasImporter(linked, to);
    }
  }

  lemma ImportedHasImporter(records: seq<Record>, to: string)
    ensures to !in Imported(records) ==> Importers(records, to) == {}
  {
    ImportedExact(records, to);
    if to !in Imported(records) {
      forall from ensures from !in Importers(records, to) {
        ImportersExact(records, to, from);
      }
    }
  }

  /** One file's references, reused where they cannot have changed. */
  method FileReferences(p: Parsers, previous: Records, sameNames: bool, names: set<string>, record: Record,
                        parsed: ParsedFile, ghost e: Entry)
    returns (fileReferences: seq<Reference>)
    requires parsed == ParsedOf(p, previous, e) && record.path == e.path && record.hash == p.hash(e.bytes)
    ensures fileReferences == ReferencesOf(p, previous, sameNames, names, e)
  {
    hide Mentions, TextOf, RecordOf, Scanned;
    var canReuse := sameNames && record.path in previous && previous[record.path].hash == record.hash;
    var identifiers :=
      if !canReuse && parsed.identifiers == [] && parsed.text != "" then p.identifiers(parsed.text)
      else parsed.identifiers;
    fileReferences := if canReuse then previous[record.path].references else Mentions(record.path, identifiers, names);
    MentionsOfNone(record.path, names);
  }

  /** The third pass: every file's references, up to the first file that makes it raise. */
  method LinkReferences(p: Parsers, previous: Records, sameNames: bool, names: set<string>, linked: seq<Record>,
                        parsed: seq<ParsedFile>, ghost kept: seq<Entry>)
    returns (files: seq<Record>, references: set<Reference>, raised: bool)
    requires |linked| == |parsed| == |kept|
    requires forall i :: 0 <= i < |kept| ==>
               && parsed[i] == ParsedOf(p, previous, kept[i])
               && linked[i].path == kept[i].path && linked[i].hash == p.hash(kept[i].bytes)
    ensures raised <==> AnyInherits(p, Referenced(p, previous, sameNames, names, linked, kept))
    ensures !raised ==> files == Referenced(p, previous, sameNames, names, linked, kept)
    ensures !raised ==> references == AllVisible(files)
  {
    hide Visible, Inherits, ReferencesOf, ParsedOf, AnyInherits, AllVisible;
    files, references, raised := [], {}, false;
    NoneInherits(p);
    ghost var final := Referenced(p, previous, sameNames, names, linked, kept);
    var i := 0;
    while i < |parsed|
      invariant i == |files| <= |parsed|
      invariant files == final[..i]
      invariant references == AllVisible(files) && !AnyInherits(p, files)
    {
      var fileReferences := FileReferences(p, previous, sameNames, names, linked[i], parsed[i], kept[i]);
      var record := linked[i].(references := fileReferences);
      assert final[i] == record && final[..i + 1] == files + [record];
      NextInherits(p, files, record);
      if Inherits(p, record) {
        OneInherits(p, final, i);
        return files, references, true;
      }
      files := files + [record];
      references := references + Visible(record);
      i := i + 1;
    }
    assert final[..i] == final;
  }

  /** The linked records with their references. */
  function Referenced(p: Parsers, previous: Records, sameNames: bool, names: set<string>, linked: seq<Record>,
                      kept: seq<Entry>): seq<Record>
    requires |linked| == |kept|
  {
    seq(|linked|, i requires 0 <= i < |linked| =>
      linked[i].(references := ReferencesOf(p, previous, sameNames, names, kept[i])))
  }

  lemma NoneInherits(p: Parsers)
    ensures !AnyInherits(p, []) && AllVisible([]) == {}
  {
  }

  lemma OneInherits(p: Parsers, records: seq<Record>, i: nat)
    requires i < |records| && Inherits(p, records[i])
    ensures AnyInherits(p, records)
  {
  }

  lemma NextInherits(p: Parsers, records: seq<Record>, next: Record)
    ensures AnyInherits(p, records + [next]) <==> AnyInherits(p, records) || Inherits(p, next)
    ensures AllVisible(records + [next]) == AllVisible(records) + Visible(next)
  {
    hide Inherits, Visible;
    var longer := records + [next];
    assert longer[..|records|] == records;
    assert longer[|records|] == next;
    assert forall i :: 0 <= i < |records| ==> longer[i] == records[i];
  }

  lemma MentionsOfNone(file: string, names: set<string>)
    ensures Mentions(file, [], names) == []
  {
  }

  lemma {:induction false} ByPathKeys(records: seq<Record>)
    ensures forall path :: path in ByPath(records) ==> ByPath(records)[path].path == path
  {
    if records != [] {
      ByPathKeys(records[..|records| - 1]);
    }
  }

  function PreviousPaths(previous: Option<Index>): set<string> {
    if previous.Some? then RecordPaths(previous.value.files) else {}
  }

  lemma FirstPassPaths(p: Parsers, previous: Records, kept: seq<Entry>)
    requires forall path :: path in previous ==> previous[path].path == path
    ensures RecordPaths(FirstPass(p, previous, kept)) == PathsOf(kept)
    ensures forall i :: 0 <= i < |kept| ==> FirstPass(p, previous, kept)[i].path == kept[i].path
                                            && FirstPass(p, previous, kept)[i].hash == p.hash(kept[i].bytes)
  {
    hide TextOf;
    var records := FirstPass(p, previous, kept);
    forall path ensures path in RecordPaths(records) <==> path in PathsOf(kept) {
      if path in PathsOf(kept) {
        var i :| 0 <= i < |kept| && kept[i].path == path;
        assert records[i] in records && records[i].path == path;
      }
      if path in RecordPaths(records) {
        var i :| 0 <= i < |records| && records[i].path == path;
        assert kept[i] in kept;
      }
    }
  }

  lemma {:induction false} NothingReused(p: Parsers, kept: seq<Entry>)
    ensures ReusedCount(p, map[], kept) == 0
  {
    if kept != [] {
      NothingReused(p, kept[..|kept| - 1]);
    }
  }

  /** Builds the index of the files found, on the cached index unless that is absent, of another
      root, or a full build was asked for. */
  method BuildRepositoryIndex(p: Parsers, root: string, forceFull: bool, maxFileBytes: nat, cached: Option<Index>,
                              entries: seq<Entry>)
    returns (index: Option<Index>, stats: Stats)
    ensures index == BuildOn(p, cached, Build(root, entries, maxFileBytes, forceFull, true))
    ensures Injective(p) && Genuine(p, cached) ==>
              index == Built(p, FullIndex(p, root, Kept(entries, if maxFileBytes < 1024 then 1024 else maxFileBytes)))
    ensures stats.scanned == |entries| == stats.parsed + stats.skippedLarge
    ensures stats.parsed == stats.reused + stats.changed && (index.Some? ==> |index.value.files| == stats.parsed)
    ensures stats.reused ==
            ReusedCount(p, Reusable(if forceFull then None else cached, root), Kept(entries, Limit(maxFileBytes)))
    ensures stats.removed ==
            |PreviousPaths(if forceFull then None else cached) - PathsOf(Kept(entries, Limit(maxFileBytes)))|
    ensures forceFull || cached == None ==> stats.reused == stats.removed == 0
  {
    hide Injective, Genuine, Resolved, RecordOf, ReferencesOf, ImportGraph, ReverseGraph, AllVisible, NamesIn,
      SymbolsOf, ReusedCount, Kept, ByPath, ParsedOf, PathsOf, RecordPaths, FullIndex,
      Inherits;
    var previous := if forceFull then None else cached;
    var previousByPath := Reusable(previous, root);
    ghost var kept := Kept(entries, Limit(maxFileBytes));
    var parsed, reused, changed, skipped := ParseFiles(p, previousByPath, entries, Limit(maxFileBytes));
    var first := seq(|parsed|, i requires 0 <= i < |parsed| => parsed[i].record);
    ParsedRecords(p, previousByPath, kept, parsed);
    assert first == FirstPass(p, previousByPath, kept);
    ReusableKeys(previous, root);
    FirstPassPaths(p, previousByPath, kept);
    var linked, graph, reverse := LinkImports(p, first);
    var symbols := SymbolsOf(first);
    var symbolNames := NamesIn(symbols);
    var sameNames := symbolNames == PreviousNames(previous);
    if previous == None {
      NothingReused(p, kept);
    }
    if Injective(p) && Genuine(p, cached) {
      GenuineNone(p);
      IncrementalIsFull(p, previous, root, kept);
    }
    stats := Stats(|entries|, |parsed|, reused, changed, |PreviousPaths(previous) - RecordPaths(first)|, skipped);
    FinalIsReferenced(p, previousByPath, PreviousNames(previous), kept, linked);
    var files, references, raised := LinkReferences(p, previousByPath, sameNames, symbolNames, linked, parsed, kept);
    if raised {
      return None, stats;
    }
    SameGraphs(linked, files);
    index := Some(Index(root, files, symbols, references, graph, reverse));
  }

  lemma FinalIsReferenced(p: Parsers, previous: Records, previousNames: set<string>, kept: seq<Entry>,
                          linked: seq<Record>)
    requires |linked| == |kept|
    requires forall i :: 0 <= i < |kept| ==>
               linked[i] == RecordOf(p, previous, kept[i]).(resolvedImports :=
                              Resolved(p, kept[i].path, RecordOf(p, previous, kept[i]).imports, PathsOf(kept)))
    ensures var names := NamesIn(SymbolsOf(FirstPass(p, previous, kept)));
            && FinalPass(p, previous, previousNames, kept)
               == Referenced(p, previous, names == previousNames, names, linked, kept)
            && SameLinks(linked, FinalPass(p, previous, previousNames, kept))
  {
    hide RecordOf, Resolved, ReferencesOf, NamesIn, SymbolsOf, PathsOf;
  }

  lemma ReusableKeys(previous: Option<Index>, root: string)
    ensures forall path :: path in Reusable(previous, root) ==> Reusable(previous, root)[path].path == path
  {
    if previous.Some? {
      ByPathKeys(previous.value.files);
    }
  }

  lemma ParsedRecords(p: Parsers, previous: Records, kept: seq<Entry>, parsed: seq<ParsedFile>)
    requires |parsed| == |kept| && forall i :: 0 <= i < |kept| ==> parsed[i] == ParsedOf(p, previous, kept[i])
    ensures forall i :: 0 <= i < |kept| ==> parsed[i].record == FirstPass(p, previous, kept)[i]
  {
    hide RecordOf, TextOf, Unchanged, Scanned;
  }

  predicate SameLinks(a: seq<Record>, b: seq<Record>) {
    && |a| == |b|
    && forall i :: 0 <= i < |a| ==> a[i].path == b[i].path && a[i].resolvedImports == b[i].resolvedImports
  }

  lemma {:induction false} SameEdges(a: seq<Record>, b: seq<Record>)
    requires SameLinks(a, b)
    ensures ImportGraph(a) == ImportGraph(b) && Imported(a) == Imported(b)
  {
    if a != [] {
      SameEdges(a[..|a| - 1], b[..|b| - 1]);
    }
  }

  lemma {:induction false} SameImporters(a: seq<Record>, b: seq<Record>, to: string)
    requires SameLinks(a, b)
    ensures Importers(a, to) == Importers(b, to)
  {
    if a != [] {
      SameImporters(a[..|a| - 1], b[..|b| - 1], to);
    }
  }

  /** The graphs depend on paths and resolved imports only. */
  lemma SameGraphs(a: seq<Record>, b: seq<Record>)
    requires SameLinks(a, b)
    ensures ImportGraph(a) == ImportGraph(b) && ReverseGraph(a) == ReverseGraph(b)
  {
    hide SameLinks, Imported, Importers, ImportGraph;
    SameEdges(a, b);
    forall to | to in Imported(a) ensures ReverseGraph(a)[to] == ReverseGraph(b)[to] {
      SameImporters(a, b, to);
    }
  }
}
