/**
 Building and updating the structural index (src/acp/index/builder.py).

 `Built` is the full build of a tree, `Reindexed` the in-place update of one file. They agree for every sequence
 of content edits; for an added or a removed file they agree exactly when no other file's imports resolve to it.
 */
module IndexBuilder {
  import opened Common
  import opened Strings
  import opened Patches
  import opened ImportResolution
  import opened IndexModel

  datatype RawImport = RawImport(imported: string, line: int)

  datatype Extracted = Extracted(symbols: seq<Symbol>, references: seq<Reference>, rawImports: seq<RawImport>)

  /** Language detection, the ignored directories, the grammars and the content hash. */
  datatype Languages = Languages(detect: Path -> Option<string>, ignored: Path -> bool,
                                 extract: (Path, string) -> Extracted, digest: string -> string)

  function Discovered(l: Languages, tree: Tree): set<Path> {
    set p <- tree.Keys | !l.ignored(p) && l.detect(p).Some?
  }

  function Edges(language: string, from: Path, raw: seq<RawImport>, known: set<Path>): seq<ImportEdge> {
    seq(|raw|, i requires 0 <= i < |raw| =>
      ImportEdge(from, raw[i].imported, Resolve(language, raw[i].imported, from, known), raw[i].line))
  }

  function Partition(l: Languages, p: Path, content: string, known: set<Path>): FileIndex
    requires l.detect(p).Some?
  {
    var e := l.extract(p, content);
    FileIndex(p, l.detect(p).value, l.digest(content), e.symbols, e.references,
              Edges(l.detect(p).value, p, e.rawImports, known))
  }

  /** The full build. */
  function Built(l: Languages, tree: Tree): Files {
    map p <- Discovered(l, tree) :: Partition(l, p, tree[p], Discovered(l, tree))
  }

  /** The partition of a file: its path, language and hash, what the grammar extracted, and for each of its imports, in
      order, one edge with the file, the text, the line and the resolution. */
  ghost predicate Shows(l: Languages, p: Path, content: string, known: set<Path>, fi: FileIndex) {
    var raw := l.extract(p, content).rawImports;
    && fi.path == p && Some(fi.language) == l.detect(p) && fi.contentHash == l.digest(content)
    && fi.symbols == l.extract(p, content).symbols && fi.references == l.extract(p, content).references
    && |fi.imports| == |raw|
    && forall i :: 0 <= i < |raw| ==>
                     && fi.imports[i].fromPath == p && fi.imports[i].imported == raw[i].imported
                     && fi.imports[i].line == raw[i].line
                     && fi.imports[i].toPath == Resolve(fi.language, raw[i].imported, p, known)
  }

  /** A partition for every file of a known language outside the ignored directories, resolved among those files. */
  ghost predicate ShowsAll(l: Languages, tree: Tree, files: Files) {
    && (forall p :: p in files <==> p in tree && !l.ignored(p) && l.detect(p).Some?)
    && forall p <- files :: Shows(l, p, tree[p], files.Keys, files[p])
  }

  lemma BuiltShows(l: Languages, tree: Tree)
    ensures ShowsAll(l, tree, Built(l, tree))
  {
    assert Built(l, tree).Keys == Discovered(l, tree);
  }

  /** A build shows the tree, and nothing else does. */
  lemma BuiltIff(l: Languages, tree: Tree, files: Files)
    ensures files == Built(l, tree) <==> ShowsAll(l, tree, files)
  {
    var known := Discovered(l, tree);
    BuiltShows(l, tree);
    if ShowsAll(l, tree, files) {
      assert files.Keys == known;
      forall p | p in known
        ensures files[p] == Built(l, tree)[p]
      {
        assert Shows(l, p, tree[p], known, files[p]);
        assert files[p].imports == Built(l, tree)[p].imports;
      }
    }
  }

  /** The in-place update of one path; None stands for the ValueError on a file of no known language. */
  function Reindexed(l: Languages, files: Files, tree: Tree, p: Path): Option<Files> {
    if p !in tree then Some(files - {p})
    else if l.detect(p).None? then None
    else Some(files[p := Partition(l, p, tree[p], files.Keys + {p})])
  }

  function Partitions(l: Languages, tree: Tree, paths: seq<Path>, known: set<Path>): Files
    requires known == Discovered(l, tree)
  {
    map p <- known | p in paths :: Partition(l, p, tree[p], known)
  }

  lemma PartitionsUpTo(l: Languages, tree: Tree, paths: seq<Path>, known: set<Path>, i: nat)
    requires known == Discovered(l, tree) && i < |paths| && paths[i] in known
    ensures var p := paths[i];
            Partitions(l, tree, paths[..i + 1], known)
            == Partitions(l, tree, paths[..i], known)[p := Partition(l, p, tree[p], known)]
  {
    assert paths[..i + 1] == paths[..i] + [paths[i]];
  }

  class Builder {
    var filesParsed: nat
    const l: Languages

    constructor (l: Languages)
      ensures this.l == l && filesParsed == 0
    {
      this.l, filesParsed := l, 0;
    }

    method IndexFile(tree: Tree, p: Path, known: set<Path>) returns (fi: FileIndex)
      requires p in tree && l.detect(p).Some?
      modifies this`filesParsed
      ensures fi == Partition(l, p, tree[p], known) && filesParsed == old(filesParsed) + 1
      ensures Shows(l, p, tree[p], known, fi)
    {
      filesParsed := filesParsed + 1;
      var extracted := l.extract(p, tree[p]);
      var language := l.detect(p).value;
      fi := FileIndex(p, language, l.digest(tree[p]), extracted.symbols, extracted.references,
                      Edges(language, p, extracted.rawImports, known));
    }

    /** Parses every discovered file once. */
    method Build(tree: Tree) returns (index: Index)
      modifies this`filesParsed
      ensures fresh(index) && index.files == Built(l, tree) && ShowsAll(l, tree, index.files)
      ensures filesParsed == old(filesParsed) + |SortedKeys(Discovered(l, tree))|
    {
      var known := Discovered(l, tree);
      var paths := SortedKeys(known);
      index := new Index(map[]);
      for i := 0 to |paths|
        invariant filesParsed == old(filesParsed) + i && fresh(index)
        invariant index.files == Partitions(l, tree, paths[..i], known)
      {
        assert paths[i] in paths;
        var fi := IndexFile(tree, paths[i], known);
        index.PutFile(fi);
        PartitionsUpTo(l, tree, paths, known, i);
      }
      assert paths[..|paths|] == paths && Partitions(l, tree, paths, known) == Built(l, tree);
      BuiltIff(l, tree, index.files);
    }

    /** Parses at most one file, whatever the size of the index. */
    method ReindexFile(index: Index, tree: Tree, p: Path) returns (ok: bool)
      modifies index, this`filesParsed
      ensures ok == Reindexed(l, old(index.files), tree, p).Some?
      ensures index.files == if ok then Reindexed(l, old(index.files), tree, p).value else old(index.files)
      ensures ok <==> p !in tree || l.detect(p).Some?
      ensures ok && p !in tree ==> index.files == old(index.files) - {p}
      ensures ok && p in tree ==>
                && p in index.files && index.files - {p} == old(index.files) - {p}
                && Shows(l, p, tree[p], index.files.Keys, index.files[p])
      ensures filesParsed == old(filesParsed) + (if p in tree && ok then 1 else 0)
    {
      var known := index.files.Keys + {p};
      if p !in tree {
        index.DropFile(p);
        return true;
      }
      if l.detect(p).None? {
        return false;
      }
      var fi := IndexFile(tree, p, known);
      index.PutFile(fi);
      assert index.files.Keys == known;
      return true;
    }
  }

  lemma BuiltIsFiled(l: Languages, tree: Tree)
    ensures Filed(Built(l, tree)) && Built(l, tree).Keys == Discovered(l, tree)
  {
  }

  // ---------------------------------------------------------------------------------------------
  // Content edits

  /** Editing an indexed file and re-indexing just that file gives the index of the edited tree. */
  lemma EditKeepsUp(l: Languages, tree: Tree, p: Path, content: string)
    requires p in Discovered(l, tree)
    ensures Discovered(l, tree[p := content]) == Discovered(l, tree)
    ensures Reindexed(l, Built(l, tree), tree[p := content], p) == Some(Built(l, tree[p := content]))
  {
    var edited := tree[p := content];
    assert Discovered(l, edited) == Discovered(l, tree);
    BuiltIsFiled(l, tree);
    assert Built(l, tree).Keys + {p} == Discovered(l, tree);
    var updated := Reindexed(l, Built(l, tree), edited, p).value;
    assert updated.Keys == Built(l, edited).Keys;
    assert forall q <- updated :: updated[q] == Built(l, edited)[q];
    assert updated == Built(l, edited);
  }

  datatype Edit = Edit(path: Path, content: string)

  function Edited(tree: Tree, edits: seq<Edit>): Tree {
    if edits == [] then tree
    else Edited(tree, edits[..|edits| - 1])[edits[|edits| - 1].path := edits[|edits| - 1].content]
  }

  /** The index maintained file by file over a sequence of edits. */
  function Maintained(l: Languages, tree: Tree, edits: seq<Edit>): Option<Files> {
    if edits == [] then Some(Built(l, tree))
    else match Maintained(l, tree, edits[..|edits| - 1])
         case None => None
         case Some(files) => Reindexed(l, files, Edited(tree, edits), edits[|edits| - 1].path)
  }

  /** However many edits of indexed files: incremental maintenance and a full rebuild agree. */
  lemma {:induction false} EditsKeepUp(l: Languages, tree: Tree, edits: seq<Edit>)
    requires forall i :: 0 <= i < |edits| ==> edits[i].path in Discovered(l, tree)
    ensures Discovered(l, Edited(tree, edits)) == Discovered(l, tree)
    ensures Maintained(l, tree, edits) == Some(Built(l, Edited(tree, edits)))
  {
    if edits != [] {
      var front, last := edits[..|edits| - 1], edits[|edits| - 1];
      EditsKeepUp(l, tree, front);
      EditKeepsUp(l, Edited(tree, front), last.path, last.content);
    }
  }

  // ---------------------------------------------------------------------------------------------
  // Added and removed files

  /** Some import of file q resolves to p. */
  ghost predicate PointsTo(l: Languages, tree: Tree, q: Path, known: set<Path>, p: Path)
    requires q in tree && l.detect(q).Some?
  {
    exists e <- Partition(l, q, tree[q], known).imports :: e.toPath == Some(p)
  }

  /** A newly known path leaves a file's imports alone exactly when none of them resolves to it. */
  lemma ImportsAreKeptIff(language: string, from: Path, raw: seq<RawImport>, known: set<Path>, p: Path)
    requires p !in known
    ensures Edges(language, from, raw, known + {p}) == Edges(language, from, raw, known)
       <==> !(exists e <- Edges(language, from, raw, known + {p}) :: e.toPath == Some(p))
  {
    var before, after := Edges(language, from, raw, known), Edges(language, from, raw, known + {p});
    forall i | 0 <= i < |raw|
      ensures after[i] == before[i] <==> after[i].toPath != Some(p)
    {
      ResolveGrows(language, raw[i].imported, from, known, p);
      ResolvedIsKnown(language, raw[i].imported, from, known);
    }
    if after == before {
      forall e | e in after
        ensures e.toPath != Some(p)
      {
        var i :| 0 <= i < |raw| && after[i] == e;
      }
    } else {
      var i :| 0 <= i < |raw| && after[i] != before[i];
      assert after[i] in after && after[i].toPath == Some(p);
    }
  }

  lemma PartitionIsKeptIff(l: Languages, tree: Tree, q: Path, known: set<Path>, p: Path)
    requires q in tree && l.detect(q).Some? && p !in known
    ensures Partition(l, q, tree[q], known + {p}) == Partition(l, q, tree[q], known)
       <==> !PointsTo(l, tree, q, known + {p}, p)
  {
    ImportsAreKeptIff(l.detect(q).value, q, l.extract(q, tree[q]).rawImports, known, p);
  }

  /** Adding a file and indexing only it equals a rebuild if and only if no other file's import resolves to it. */
  lemma AddedFileIff(l: Languages, tree: Tree, p: Path, content: string)
    requires p !in tree && !l.ignored(p) && l.detect(p).Some?
    ensures Reindexed(l, Built(l, tree), tree[p := content], p) == Some(Built(l, tree[p := content]))
       <==> forall q <- Discovered(l, tree) :: !PointsTo(l, tree, q, Discovered(l, tree) + {p}, p)
  {
    var known, grown := Discovered(l, tree), tree[p := content];
    assert Discovered(l, grown) == known + {p};
    BuiltIsFiled(l, tree);
    var updated, rebuilt := Reindexed(l, Built(l, tree), grown, p).value, Built(l, grown);
    assert updated.Keys == rebuilt.Keys == known + {p};
    assert updated[p] == rebuilt[p];
    forall q | q in known
      ensures updated[q] == rebuilt[q] <==> !PointsTo(l, tree, q, known + {p}, p)
    {
      PartitionIsKeptIff(l, tree, q, known, p);
    }
    if forall q <- known :: !PointsTo(l, tree, q, known + {p}, p) {
      assert forall q <- updated :: updated[q] == rebuilt[q];
      assert updated == rebuilt;
    }
  }

  /** Removing a file and dropping only its partition equals a rebuild if and only if no other file imports it. */
  lemma RemovedFileIff(l: Languages, tree: Tree, p: Path)
    requires p in Discovered(l, tree)
    ensures Reindexed(l, Built(l, tree), tree - {p}, p) == Some(Built(l, tree - {p}))
       <==> forall q <- Discovered(l, tree) :: q == p || !PointsTo(l, tree, q, Discovered(l, tree), p)
  {
    var shrunk := tree - {p};
    var known := Discovered(l, shrunk);
    assert Discovered(l, tree) == known + {p} && p !in known;
    BuiltIsFiled(l, tree);
    var updated, rebuilt := Reindexed(l, Built(l, tree), shrunk, p).value, Built(l, shrunk);
    assert updated.Keys == rebuilt.Keys == known;
    forall q | q in known
      ensures updated[q] == rebuilt[q] <==> !PointsTo(l, tree, q, known + {p}, p)
    {
      PartitionIsKeptIff(l, tree, q, known, p);
    }
    if forall q <- Discovered(l, tree) :: q == p || !PointsTo(l, tree, q, known + {p}, p) {
      assert forall q <- updated :: updated[q] == rebuilt[q];
      assert updated == rebuilt;
    }
  }

  /** The update does not consult the ignored directories that discovery skips: a file there enters the index. */
  lemma IgnoredFileIsIndexed(l: Languages, tree: Tree, p: Path)
    requires p in tree && l.ignored(p) && l.detect(p).Some?
    ensures Reindexed(l, Built(l, tree), tree, p).Some? && Reindexed(l, Built(l, tree), tree, p) != Some(Built(l, tree))
  {
    BuiltIsFiled(l, tree);
    assert p in Reindexed(l, Built(l, tree), tree, p).value;
  }
}
