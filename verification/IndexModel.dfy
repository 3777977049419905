/** The structural index and its canonical form (src/acp/index/model.py). */
module IndexModel {
  import opened Common
  import opened Strings
  import opened Patches
  import opened Sorting

  datatype Symbol = Symbol(name: string, kind: string, language: string, filePath: Path,
                           startLine: int, endLine: int, startCol: int, endCol: int)

  datatype Reference = Reference(name: string, language: string, filePath: Path, line: int, col: int, refKind: string)

  datatype ImportEdge = ImportEdge(fromPath: Path, imported: string, toPath: Option<Path>, line: int)

  datatype FileIndex = FileIndex(path: Path, language: string, contentHash: string,
                                 symbols: seq<Symbol>, references: seq<Reference>, imports: seq<ImportEdge>)

  type Files = map<Path, FileIndex>

  function SymbolKey(s: Symbol): Key {
    Key(s.startLine, s.startCol, s.name, s.kind)
  }

  function ReferenceKey(r: Reference): Key {
    Key(r.line, r.col, r.name, r.refKind)
  }

  function ImportKey(i: ImportEdge): Key {
    Key(i.line, 0, i.imported, if i.toPath.Some? then i.toPath.value else "")
  }

  function Canonical(f: FileIndex): FileIndex {
    FileIndex(f.path, f.language, f.contentHash,
              SortBy(SymbolKey, f.symbols), SortBy(ReferenceKey, f.references), SortBy(ImportKey, f.imports))
  }

  /** The serialized payload: the canonical partitions in path order. */
  function Serialized(files: Files): seq<FileIndex> {
    var paths := SortedKeys(files.Keys);
    seq(|paths|, i requires 0 <= i < |paths| =>
      assert paths[i] in paths; Canonical(files[paths[i]]))
  }

  /** The dictionary of a payload; a repeated path keeps its last partition. */
  function Loaded(payload: seq<FileIndex>): Files {
    if payload == [] then map[]
    else Loaded(payload[..|payload| - 1])[payload[|payload| - 1].path := payload[|payload| - 1]]
  }

  class Index {
    var files: Files

    constructor (files: Files)
      ensures this.files == files
    {
      this.files := files;
    }

    method PutFile(fi: FileIndex)
      modifies this
      ensures files == old(files)[fi.path := fi]
    {
      files := files[fi.path := fi];
    }

    method DropFile(path: Path)
      modifies this
      ensures files == old(files) - {path}
    {
      files := files - {path};
    }
  }

  /** Every partition is filed under its own path: what put_file keeps. */
  ghost predicate Filed(files: Files) {
    forall p <- files :: files[p].path == p
  }

  // ---------------------------------------------------------------------------------------------
  // When two indexes serialize alike

  /** Equal up to the order of items with different sort keys. */
  ghost predicate SameContent(f: FileIndex, g: FileIndex) {
    && f.path == g.path && f.language == g.language && f.contentHash == g.contentHash
    && SameGroups(SymbolKey, f.symbols, g.symbols)
    && SameGroups(ReferenceKey, f.references, g.references)
    && SameGroups(ImportKey, f.imports, g.imports)
  }

  lemma CanonicalAlikeIff(f: FileIndex, g: FileIndex)
    ensures Canonical(f) == Canonical(g) <==> SameContent(f, g)
  {
    SortsAlikeIff(SymbolKey, f.symbols, g.symbols);
    SortsAlikeIff(ReferenceKey, f.references, g.references);
    SortsAlikeIff(ImportKey, f.imports, g.imports);
  }

  lemma CanonicalIsIdempotent(f: FileIndex)
    ensures Canonical(Canonical(f)) == Canonical(f)
  {
    SortIsIdempotent(SymbolKey, f.symbols);
    SortIsIdempotent(ReferenceKey, f.references);
    SortIsIdempotent(ImportKey, f.imports);
  }

  lemma SerializedAt(files: Files, p: Path)
    requires Filed(files)
    ensures p in files <==> exists i :: 0 <= i < |Serialized(files)| && Serialized(files)[i].path == p
    ensures forall i :: 0 <= i < |Serialized(files)| ==>
                          Serialized(files)[i].path in files
                          && Serialized(files)[i] == Canonical(files[Serialized(files)[i].path])
  {
    var paths := SortedKeys(files.Keys);
    if p in files {
      assert p in paths;
      var i :| 0 <= i < |paths| && paths[i] == p;
      assert Serialized(files)[i].path == p;
    }
    forall i | 0 <= i < |paths|
      ensures Serialized(files)[i].path == paths[i] && paths[i] in files
    {
      assert paths[i] in paths;
    }
  }

  /** Two indexes serialize to the same bytes exactly when they hold the same files with the same content. */
  lemma SerializeAlikeIff(a: Files, b: Files)
    requires Filed(a) && Filed(b)
    ensures Serialized(a) == Serialized(b)
       <==> a.Keys == b.Keys && forall p <- a :: p in b && SameContent(a[p], b[p])
  {
    forall p | p in a && p in b
      ensures Canonical(a[p]) == Canonical(b[p]) <==> SameContent(a[p], b[p])
    {
      CanonicalAlikeIff(a[p], b[p]);
    }
    if Serialized(a) == Serialized(b) {
      forall p
        ensures p in a <==> p in b
        ensures p in a && p in b ==> Canonical(a[p]) == Canonical(b[p])
      {
        SerializedAt(a, p);
        SerializedAt(b, p);
      }
    }
    if a.Keys == b.Keys && forall p <- a :: p in b && SameContent(a[p], b[p]) {
      var paths := SortedKeys(a.Keys);
      forall i | 0 <= i < |paths|
        ensures Serialized(a)[i] == Serialized(b)[i]
      {
        assert paths[i] in paths;
      }
    }
  }

  /** The promise for lists with distinct sort keys: any order of the same items serializes alike. */
  lemma PermutedListsSerializeAlike(f: FileIndex, g: FileIndex)
    requires f.path == g.path && f.language == g.language && f.contentHash == g.contentHash
    requires multiset(f.symbols) == multiset(g.symbols) && multiset(f.references) == multiset(g.references)
    requires multiset(f.imports) == multiset(g.imports)
    requires DistinctKeys(SymbolKey, f.symbols) && DistinctKeys(SymbolKey, g.symbols)
    requires DistinctKeys(ReferenceKey, f.references) && DistinctKeys(ReferenceKey, g.references)
    requires DistinctKeys(ImportKey, f.imports) && DistinctKeys(ImportKey, g.imports)
    ensures Canonical(f) == Canonical(g)
  {
    PermutationsSortAlike(SymbolKey, f.symbols, g.symbols);
    PermutationsSortAlike(ReferenceKey, f.references, g.references);
    PermutationsSortAlike(ImportKey, f.imports, g.imports);
  }

  /** Without distinct keys the order shows: two symbols that differ only outside the key, say in their end
      line, stay in the order in which they were extracted. */
  lemma EqualKeysKeepTheirOrder(s: Symbol, t: Symbol)
    requires s != t && SymbolKey(s) == SymbolKey(t)
    ensures SortBy(SymbolKey, [s, t]) != SortBy(SymbolKey, [t, s])
  {
    KeyLeqIsOrder(SymbolKey(s), SymbolKey(t));
    SortOfTwo(SymbolKey, s, t);
    SortOfTwo(SymbolKey, t, s);
    assert [s, t][0] != [t, s][0];
  }

  lemma SortOfTwo<T>(key: T -> Key, x: T, y: T)
    requires KeyLeq(key(x), key(y))
    ensures SortBy(key, [x, y]) == [x, y]
  {
    assert [x, y][..1] == [x] && [x][..0] == [];
    assert SortBy(key, [x]) == [x];
  }

  /** Two pairs of texts in order: by the first, then by the second. */
  predicate PairLeq(a: string, b: string, c: string, d: string) {
    if a != b then Leq(a, b) else Leq(c, d)
  }

  /** Two places in order, and what stands there where they are one. */
  predicate PlaceLeq(line: int, line': int, col: int, col': int, texts: bool) {
    line < line' || (line == line' && (col < col' || (col == col' && texts)))
  }

  /** The canonical form lists what a file defines and uses by line, column, name and kind, and what it imports by
      line, text and target, an unresolved one counting as empty. */
  lemma ListedByPosition(f: FileIndex, i: nat, j: nat)
    requires i < j
    ensures var s := Canonical(f).symbols;
            j < |s| ==> PlaceLeq(s[i].startLine, s[j].startLine, s[i].startCol, s[j].startCol,
                                 PairLeq(s[i].name, s[j].name, s[i].kind, s[j].kind))
    ensures var r := Canonical(f).references;
            j < |r| ==> PlaceLeq(r[i].line, r[j].line, r[i].col, r[j].col,
                                 PairLeq(r[i].name, r[j].name, r[i].refKind, r[j].refKind))
    ensures var e := Canonical(f).imports;
            j < |e| ==>
              var to := if e[i].toPath.Some? then e[i].toPath.value else "";
              var to' := if e[j].toPath.Some? then e[j].toPath.value else "";
              e[i].line < e[j].line || (e[i].line == e[j].line && PairLeq(e[i].imported, e[j].imported, to, to'))
  {
    SortIsSorted(SymbolKey, f.symbols);
    SortIsSorted(ReferenceKey, f.references);
    SortIsSorted(ImportKey, f.imports);
    if j < |Canonical(f).symbols| {
      SortedPairwise(SymbolKey, Canonical(f).symbols, i, j);
    }
    if j < |Canonical(f).references| {
      SortedPairwise(ReferenceKey, Canonical(f).references, i, j);
    }
    if j < |Canonical(f).imports| {
      SortedPairwise(ImportKey, Canonical(f).imports, i, j);
    }
  }

  /** It holds what the partition held, with every multiplicity, under the same path, language and hash. */
  lemma CanonicalHoldsTheSame(f: FileIndex)
    ensures var c := Canonical(f);
            && c.path == f.path && c.language == f.language && c.contentHash == f.contentHash
            && multiset(c.symbols) == multiset(f.symbols) && multiset(c.references) == multiset(f.references)
            && multiset(c.imports) == multiset(f.imports)
  {
    SortIsPermutation(SymbolKey, f.symbols);
    SortIsPermutation(ReferenceKey, f.references);
    SortIsPermutation(ImportKey, f.imports);
  }

  /** The payload lists every file once, in ascending path order. */
  lemma SerializedInPathOrder(files: Files)
    requires Filed(files)
    ensures forall i, j :: 0 <= i < j < |Serialized(files)| ==>
                             Leq(Serialized(files)[i].path, Serialized(files)[j].path)
                             && Serialized(files)[i].path != Serialized(files)[j].path
  {
    var paths := SortedKeys(files.Keys);
    SortedKeysAscend(files.Keys);
    forall i | 0 <= i < |paths|
      ensures Serialized(files)[i].path == paths[i]
    {
      assert paths[i] in paths;
    }
  }

  // ---------------------------------------------------------------------------------------------
  // Loading what was serialized

  lemma {:induction false} LoadedKeys(payload: seq<FileIndex>, p: Path)
    ensures p in Loaded(payload) <==> exists i :: 0 <= i < |payload| && payload[i].path == p
    ensures p in Loaded(payload) ==> Loaded(payload)[p] in payload && Loaded(payload)[p].path == p
  {
    if payload != [] {
      var front := payload[..|payload| - 1];
      LoadedKeys(front, p);
      if i :| 0 <= i < |front| && front[i].path == p {
        assert payload[i].path == p;
      }
    }
  }

  lemma LoadedIsCanonical(files: Files)
    requires Filed(files)
    ensures Loaded(Serialized(files)) == map p <- files :: Canonical(files[p])
  {
    var loaded := Loaded(Serialized(files));
    forall p
      ensures p in loaded <==> p in files
      ensures p in loaded && p in files ==> loaded[p] == Canonical(files[p])
    {
      LoadedKeys(Serialized(files), p);
      SerializedAt(files, p);
    }
  }

  /** Loading a serialized index and serializing it again gives the same bytes. */
  lemma SerializeRoundTrip(files: Files)
    requires Filed(files)
    ensures Filed(Loaded(Serialized(files)))
    ensures Serialized(Loaded(Serialized(files))) == Serialized(files)
  {
    LoadedIsCanonical(files);
    var loaded := Loaded(Serialized(files));
    assert loaded.Keys == files.Keys;
    var paths := SortedKeys(files.Keys);
    forall i | 0 <= i < |paths|
      ensures Serialized(loaded)[i] == Serialized(files)[i]
    {
      assert paths[i] in paths;
      CanonicalIsIdempotent(files[paths[i]]);
    }
  }
}
