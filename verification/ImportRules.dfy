/**
 Which file an import means, said of the components of the importer's path and of the import's own text
 (src/acp/index/builder.py `_resolve_python`, `_resolve_typescript`).

 A path or a dotted name is written as its components with a separator between them; SplitOfWritten and
 WrittenOfSplit say that this is one to one, so the rules below cover every import of every file.
 */
module ImportRules {
  import opened Common
  import opened Strings
  import opened Patches
  import opened ImportResolution

  // ---------------------------------------------------------------------------------------------
  // Components and how they are written

  predicate Free(parts: seq<string>, sep: char) {
    forall i :: 0 <= i < |parts| ==> sep !in parts[i]
  }

  function Slashed(parts: seq<string>): string {
    Join(parts, "/")
  }

  function Dotted(parts: seq<string>): string {
    Join(parts, ".")
  }

  function Dots(n: nat): string {
    seq(n, i => '.')
  }

  lemma {:induction false} SplitPiece(piece: string, sep: char, rest: string)
    requires sep !in piece
    ensures Split(piece, sep) == [piece]
    ensures Split(piece + [sep] + rest, sep) == [piece] + Split(rest, sep)
  {
    if piece == "" {
      assert ([sep] + rest)[1..] == rest && piece + [sep] + rest == [sep] + rest;
    } else {
      SplitPiece(piece[1..], sep, rest);
      assert (piece + [sep] + rest)[1..] == piece[1..] + [sep] + rest;
      assert [piece[0]] + piece[1..] == piece;
    }
  }

  /** Splitting a written list gives its components back. */
  lemma {:induction false} SplitOfWritten(parts: seq<string>, sep: char)
    requires parts != [] && Free(parts, sep)
    ensures Split(Join(parts, [sep]), sep) == parts
  {
    hide Split;
    if |parts| > 1 {
      SplitPiece(parts[0], sep, Join(parts[1..], [sep]));
      assert Free(parts[1..], sep) by {
        assert forall i :: 0 <= i < |parts| - 1 ==> parts[1..][i] == parts[i + 1];
      }
      SplitOfWritten(parts[1..], sep);
      assert parts == [parts[0]] + parts[1..];
    } else {
      SplitPiece(parts[0], sep, "");
      assert parts == [parts[0]];
    }
  }

  /** Every text is the writing of some components. */
  lemma {:induction false} WrittenOfSplit(s: string, sep: char)
    ensures Split(s, sep) != [] && Free(Split(s, sep), sep)
    ensures Join(Split(s, sep), [sep]) == s
  {
    if s != "" {
      var rest := Split(s[1..], sep);
      WrittenOfSplit(s[1..], sep);
      assert s == [s[0]] + s[1..];
      if s[0] == sep {
        assert ([""] + rest)[1..] == rest;
      } else {
        assert ([[s[0]] + rest[0]] + rest[1..])[1..] == rest[1..];
      }
    }
  }

  /** The components of the directory and of the file name. */
  lemma ParentOfWritten(dirs: seq<string>, file: string)
    requires Free(dirs + [file], '/')
    ensures ParentParts(Slashed(dirs + [file])) == dirs
  {
    SplitOfWritten(dirs + [file], '/');
    assert (dirs + [file])[..|dirs|] == dirs;
  }

  lemma EveryPathIsWritten(path: Path) returns (dirs: seq<string>, file: string)
    ensures path == Slashed(dirs + [file]) && Free(dirs + [file], '/')
  {
    var parts := Split(path, '/');
    WrittenOfSplit(path, '/');
    dirs, file := parts[..|parts| - 1], parts[|parts| - 1];
    assert parts == dirs + [file];
  }

  // ---------------------------------------------------------------------------------------------
  // Python

  /** The import's text behind its leading dots does not start with a dot itself. */
  predicate IsName(rest: seq<string>) {
    Free(rest, '.') && (rest != [] ==> rest[0] != "")
  }

  lemma {:induction false} WrittenStartsWith(parts: seq<string>, sep: string)
    requires parts != [] && parts[0] != ""
    ensures Join(parts, sep) != "" && Join(parts, sep)[0] == parts[0][0]
  {
  }

  lemma RelativeParts(n: nat, rest: seq<string>)
    requires n >= 1 && IsName(rest)
    ensures Span(c => c == '.', Dots(n) + Dotted(rest)) == (Dots(n), Dotted(rest))
    ensures (if Dotted(rest) == "" then [] else Split(Dotted(rest), '.')) == rest
  {
    if rest != [] {
      WrittenStartsWith(rest, ".");
      assert rest[0][0] in rest[0];
      SplitOfWritten(rest, '.');
    }
    SpanOf(c => c == '.', Dots(n), Dotted(rest));
  }

  /** n dots and a dotted rest: the importer's directory with its last n - 1 components removed, then the rest, as a
      module if that is known, else as a package; nothing when there are not that many components. */
  lemma RelativePythonImport(dirs: seq<string>, file: string, n: nat, rest: seq<string>, known: set<Path>)
    requires Free(dirs + [file], '/') && n >= 1 && IsName(rest)
    ensures var r := Resolve("python", Dots(n) + Dotted(rest), Slashed(dirs + [file]), known);
            if n - 1 > |dirs| then r == None
            else
              var stem := Slashed(dirs[..|dirs| - (n - 1)] + rest);
              if stem + ".py" in known then r == Some(stem + ".py")
              else if stem + "/__init__.py" in known then r == Some(stem + "/__init__.py")
              else r == None
  {
    hide Split, Span, Join, Dots;
    ParentOfWritten(dirs, file);
    RelativeParts(n, rest);
    DotsAreThere(n);
    if n - 1 <= |dirs| {
      var stem := Slashed(dirs[..|dirs| - (n - 1)] + rest);
      FirstOfTwo(stem + ".py", stem + "/__init__.py", known);
    }
  }

  lemma DotsAreThere(n: nat)
    ensures |Dots(n)| == n
  {
  }

  lemma FirstOfTwo(a: Path, b: Path, known: set<Path>)
    ensures FirstMatch([a, b], known) == if a in known then Some(a) else if b in known then Some(b) else None
  {
    assert [a, b][1..] == [b] && [b][1..] == [];
    assert FirstMatch([b], known) == if b in known then Some(b) else FirstMatch([b][1..], known);
  }

  /** The path is the suffix, or ends in it behind a slash. */
  predicate EndsIn(p: Path, suffix: string) {
    p == suffix || (|p| > |suffix| && p[|p| - |suffix| - 1] == '/' && p[|p| - |suffix|..] == suffix)
  }

  /** The path is the module of that name, or its package, under any directory. */
  predicate IsModule(p: Path, name: seq<string>) {
    EndsIn(p, Slashed(name) + ".py") || EndsIn(p, Slashed(name) + "/__init__.py")
  }

  lemma EndsInIs(p: Path, suffix: string)
    ensures EndsIn(p, suffix) <==> p == suffix || EndsWith(p, "/" + suffix)
  {
    if |p| > |suffix| {
      var k := |p| - |suffix| - 1;
      assert p[k..] == [p[k]] + p[k + 1..];
      assert p[k..] == "/" + suffix <==> p[k] == '/' && p[k + 1..] == suffix by {
        if p[k..] == "/" + suffix {
          assert p[k..][0] == '/' && p[k..][1..] == suffix;
        }
      }
    }
  }

  /** An absolute import: the least of the known paths that are the module or the package under any directory. */
  lemma AbsolutePythonImport(name: seq<string>, from: Path, known: set<Path>)
    requires name != [] && Free(name, '.') && (name[0] != "" || |name| == 1)
    ensures var r := Resolve("python", Dotted(name), from, known);
            && (r.None? <==> forall p <- known :: !IsModule(p, name))
            && (r.Some? ==> r.value in known && IsModule(r.value, name)
                            && forall p <- known :: IsModule(p, name) ==> Leq(r.value, p))
  {
    hide Split, Span, Join, Leq;
    var suffixes := [Slashed(name) + ".py", Slashed(name) + "/__init__.py"];
    NoLeadingDot(name);
    forall p
      ensures SuffixMatch(p, suffixes) <==> IsModule(p, name)
    {
      EndsInIs(p, suffixes[0]);
      EndsInIs(p, suffixes[1]);
    }
    LeastMatchIs(suffixes, known);
    var matches := Matches(suffixes, known);
    assert forall p :: p in matches <==> p in known && IsModule(p, name);
  }

  lemma NoLeadingDot(name: seq<string>)
    requires name != [] && Free(name, '.') && (name[0] != "" || |name| == 1)
    ensures Span(c => c == '.', Dotted(name)) == ("", Dotted(name)) && Split(Dotted(name), '.') == name
  {
    SplitOfWritten(name, '.');
    if name[0] != "" {
      WrittenStartsWith(name, ".");
      assert name[0][0] in name[0];
    }
  }

  /** Every Python import is of one of the two forms. */
  lemma EveryPythonImportIsWritten(imported: string) returns (n: nat, name: seq<string>)
    ensures imported == Dots(n) + Dotted(name)
    ensures n >= 1 ==> IsName(name)
    ensures n == 0 ==> name != [] && Free(name, '.') && (name[0] != "" || |name| == 1)
  {
    var (dots, rest) := Span(c => c == '.', imported);
    SpanSplits(c => c == '.', imported);
    n := |dots|;
    assert dots == Dots(n);
    WrittenOfSplit(rest, '.');
    name := if n >= 1 && rest == "" then [] else Split(rest, '.');
    if rest != "" {
      SplitHead(rest, '.');
    }
  }

  lemma SplitHead(s: string, sep: char)
    requires s != "" && s[0] != sep
    ensures Split(s, sep)[0] != ""
  {
  }

  // ---------------------------------------------------------------------------------------------
  // TypeScript

  predicate IsPlain(part: string) {
    part != "" && part != "." && part != ".."
  }

  /** The first known one of a stem's five readings. */
  predicate IsFirstReading(stem: string, known: set<Path>, r: Option<Path>) {
    if stem in known then r == Some(stem)
    else if stem + ".ts" in known then r == Some(stem + ".ts")
    else if stem + ".tsx" in known then r == Some(stem + ".tsx")
    else if stem + "/index.ts" in known then r == Some(stem + "/index.ts")
    else if stem + "/index.tsx" in known then r == Some(stem + "/index.tsx")
    else r == None
  }

  lemma FirstReadingIs(stem: string, known: set<Path>)
    ensures IsFirstReading(stem, known, FirstMatch([stem, stem + ".ts", stem + ".tsx", stem + "/index.ts",
                                                    stem + "/index.tsx"], known))
  {
    var c := [stem, stem + ".ts", stem + ".tsx", stem + "/index.ts", stem + "/index.tsx"];
    assert c[1..] == [stem + ".ts", stem + ".tsx", stem + "/index.ts", stem + "/index.tsx"];
    assert c[1..][1..] == [stem + ".tsx", stem + "/index.ts", stem + "/index.tsx"];
    assert c[1..][1..][1..] == [stem + "/index.ts", stem + "/index.tsx"];
    FirstOfTwo(stem + "/index.ts", stem + "/index.tsx", known);
    assert FirstMatch(c, known) == if stem in known then Some(stem) else FirstMatch(c[1..], known);
    assert FirstMatch(c[1..], known) == if c[1] in known then Some(c[1]) else FirstMatch(c[1..][1..], known);
    assert FirstMatch(c[1..][1..], known) == if c[2] in known then Some(c[2]) else FirstMatch(c[1..][1..][1..], known);
  }

  lemma {:induction false} DescendApart(target: seq<string>, a: seq<string>, b: seq<string>)
    ensures DescendAll(target, a + b) == DescendAll(DescendAll(target, a), b)
  {
    if b == [] {
      assert a + b == a;
    } else {
      assert (a + b)[..|a + b| - 1] == a + b[..|b| - 1];
      DescendApart(target, a, b[..|b| - 1]);
    }
  }

  lemma {:induction false} DescendNames(target: seq<string>, names: seq<string>)
    requires forall i :: 0 <= i < |names| ==> IsPlain(names[i])
    ensures DescendAll(target, names) == target + names
  {
    if names != [] {
      DescendNames(target, names[..|names| - 1]);
      assert names == names[..|names| - 1] + [names[|names| - 1]];
    }
  }

  /** Components that stay or go up. */
  predicate IsLead(lead: seq<string>) {
    forall i :: 0 <= i < |lead| ==> lead[i] in {"", ".", ".."}
  }

  lemma {:induction false} DescendLead(target: seq<string>, lead: seq<string>)
    requires IsLead(lead)
    ensures var k := multiset(lead)[".."];
            DescendAll(target, lead) == if k <= |target| then target[..|target| - k] else []
  {
    if lead != [] {
      var front, last := lead[..|lead| - 1], lead[|lead| - 1];
      DescendLead(target, front);
      assert lead == front + [last];
      assert multiset(lead)[".."] == multiset(front)[".."] + multiset([last])[".."];
    } else {
      assert target[..|target|] == target;
    }
  }

  predicate StartsWithDot(parts: seq<string>) {
    parts != [] && parts[0] != "" && parts[0][0] == '.'
  }

  /** Dots and double dots first, then the components of a name: the importer's directory with one component removed
      for each "..", none being left when there are fewer, then the name; "." when nothing is left at all. */
  lemma RelativeTypeScriptImport(dirs: seq<string>, file: string, lead: seq<string>, names: seq<string>,
                                 known: set<Path>, language: string)
    requires language != "python" && Free(dirs + [file], '/') && Free(names, '/') && IsLead(lead)
    requires StartsWithDot(lead + names) && forall i :: 0 <= i < |names| ==> IsPlain(names[i])
    ensures var k := multiset(lead)[".."];
            var target := (if k <= |dirs| then dirs[..|dirs| - k] else []) + names;
            IsFirstReading(if target == [] then "." else Slashed(target), known,
                           Resolve(language, Slashed(lead + names), Slashed(dirs + [file]), known))
  {
    var parts, k := lead + names, multiset(lead)[".."];
    ParentOfWritten(dirs, file);
    SplitOfWritten(parts, '/');
    WrittenStartsWith(parts, "/");
    DescendApart(dirs, lead, names);
    DescendLead(dirs, lead);
    var target := if k <= |dirs| then dirs[..|dirs| - k] else [];
    DescendNames(target, names);
    FirstReadingIs(AsPosix(target + names), known);
  }

  /** Components that lead nowhere: an empty one, a dot, a name taken back. */
  predicate LeadsNowhere(mid: seq<string>) {
    mid == [""] || mid == ["."] || (|mid| == 2 && IsPlain(mid[0]) && mid[1] == "..")
  }

  lemma NowhereIsNowhere(target: seq<string>, mid: seq<string>)
    requires LeadsNowhere(mid)
    ensures DescendAll(target, mid) == target
  {
    if |mid| == 2 {
      DescendApart(target, mid[..1], mid[1..]);
      DescendNames(target, mid[..1]);
      assert mid == mid[..1] + mid[1..] && mid[1..][..0] == [];
      assert (target + mid[..1])[..|target|] == target;
    } else {
      assert mid[..0] == [];
    }
  }

  /** Such components change no resolution, wherever they stand. Taking them out one by one brings every relative import
      into the form of RelativeTypeScriptImport. */
  lemma NowhereChangesNothing(head: seq<string>, mid: seq<string>, tail: seq<string>, from: Path, known: set<Path>,
                              language: string)
    requires language != "python" && Free(head, '/') && Free(mid, '/') && Free(tail, '/') && LeadsNowhere(mid)
    requires StartsWithDot(head + mid + tail)
    ensures Resolve(language, Slashed(head + mid + tail), from, known)
         == Resolve(language, Slashed(["."] + head + tail), from, known)
  {
    var base := ParentParts(from);
    SplitOfWritten(head + mid + tail, '/');
    SplitOfWritten(["."] + head + tail, '/');
    WrittenStartsWith(head + mid + tail, "/");
    WrittenStartsWith(["."] + head + tail, "/");
    DescendApart(base, head + mid, tail);
    DescendApart(base, head, mid);
    NowhereIsNowhere(DescendAll(base, head), mid);
    DescendApart(base, ["."] + head, tail);
    DescendApart(base, ["."], head);
    NowhereIsNowhere(base, ["."]);
  }

  /** An import that does not start with a dot is a package of somebody else's. */
  lemma BareTypeScriptImport(imported: string, from: Path, known: set<Path>, language: string)
    requires language != "python" && (imported == "" || imported[0] != '.')
    ensures Resolve(language, imported, from, known) == None
  {
  }
}
