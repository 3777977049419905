/** Resolving an import to a file of the repository (src/acp/index/builder.py `_resolve_import`). */
module ImportResolution {
  import opened Common
  import opened Strings
  import opened Patches

  // ---------------------------------------------------------------------------------------------
  // Splitting and joining

  function Split(s: string, sep: char): (parts: seq<string>)
    ensures parts != []
  {
    if s == "" then [""]
    else
      var rest := Split(s[1..], sep);
      if s[0] == sep then [""] + rest else [[s[0]] + rest[0]] + rest[1..]
  }

  function Join(parts: seq<string>, sep: string): string {
    if parts == [] then ""
    else if |parts| == 1 then parts[0]
    else parts[0] + sep + Join(parts[1..], sep)
  }

  predicate EndsWith(s: string, suffix: string) {
    |suffix| <= |s| && s[|s| - |suffix|..] == suffix
  }

  /** The directory components of a repository path. */
  function ParentParts(path: Path): seq<string> {
    var parts := Split(path, '/');
    parts[..|parts| - 1]
  }

  // ---------------------------------------------------------------------------------------------
  // The two ways of choosing

  function FirstMatch(candidates: seq<Path>, known: set<Path>): Option<Path> {
    if candidates == [] then None
    else if candidates[0] in known then Some(candidates[0])
    else FirstMatch(candidates[1..], known)
  }

  predicate SuffixMatch(p: Path, suffixes: seq<string>) {
    exists i :: 0 <= i < |suffixes| && (p == suffixes[i] || EndsWith(p, "/" + suffixes[i]))
  }

  function Matches(suffixes: seq<string>, known: set<Path>): set<Path> {
    set p <- known | SuffixMatch(p, suffixes)
  }

  /** sorted(matches)[0] */
  function LeastMatch(suffixes: seq<string>, known: set<Path>): Option<Path> {
    var sorted := SortedKeys(Matches(suffixes, known));
    if sorted == [] then None else Some(sorted[0])
  }

  // ---------------------------------------------------------------------------------------------
  // Languages

  function ResolvePython(imported: string, from: Path, known: set<Path>): Option<Path> {
    var (dots, rest) := Span(c => c == '.', imported);
    if dots != "" then
      var parts := if rest == "" then [] else Split(rest, '.');
      var base := ParentParts(from);
      var keep := |base| - (|dots| - 1);
      if keep < 0 then None
      else
        var stem := Join(base[..keep] + parts, "/");
        FirstMatch([stem + ".py", stem + "/__init__.py"], known)
    else
      var joined := Join(Split(imported, '.'), "/");
      LeastMatch([joined + ".py", joined + "/__init__.py"], known)
  }

  /** One component of a relative TypeScript import. */
  function Descend(target: seq<string>, part: string): seq<string> {
    if part == "" || part == "." then target
    else if part == ".." then (if target == [] then [] else target[..|target| - 1])
    else target + [part]
  }

  function DescendAll(target: seq<string>, parts: seq<string>): seq<string> {
    if parts == [] then target else Descend(DescendAll(target, parts[..|parts| - 1]), parts[|parts| - 1])
  }

  function AsPosix(target: seq<string>): string {
    if target == [] then "." else Join(target, "/")
  }

  function TypeScriptCandidates(imported: string, from: Path): seq<Path> {
    var stem := AsPosix(DescendAll(ParentParts(from), Split(imported, '/')));
    [stem, stem + ".ts", stem + ".tsx", stem + "/index.ts", stem + "/index.tsx"]
  }

  function ResolveTypeScript(imported: string, from: Path, known: set<Path>): Option<Path> {
    if imported == "" || imported[0] != '.' then None else FirstMatch(TypeScriptCandidates(imported, from), known)
  }

  method ResolveTypeScriptImport(imported: string, from: Path, known: set<Path>) returns (r: Option<Path>)
    ensures r == ResolveTypeScript(imported, from, known)
  {
    if imported == "" || imported[0] != '.' {
      return None;
    }
    var target, parts := ParentParts(from), Split(imported, '/');
    for i := 0 to |parts|
      invariant target == DescendAll(ParentParts(from), parts[..i])
    {
      assert parts[..i + 1][..i] == parts[..i];
      var part := parts[i];
      if part == "" || part == "." {
        continue;
      }
      if part == ".." {
        target := if target == [] then [] else target[..|target| - 1];
      } else {
        target := target + [part];
      }
    }
    assert parts[..|parts|] == parts;
    var stem := AsPosix(target);
    r := FirstMatch([stem, stem + ".ts", stem + ".tsx", stem + "/index.ts", stem + "/index.tsx"], known);
  }

  function Resolve(language: string, imported: string, from: Path, known: set<Path>): Option<Path> {
    if language == "python" then ResolvePython(imported, from, known) else ResolveTypeScript(imported, from, known)
  }

  // ---------------------------------------------------------------------------------------------
  // What one more or one less known path can change

  lemma {:induction false} FirstMatchIsKnown(candidates: seq<Path>, known: set<Path>)
    ensures FirstMatch(candidates, known).Some? ==> FirstMatch(candidates, known).value in known
  {
    if candidates != [] {
      FirstMatchIsKnown(candidates[1..], known);
    }
  }

  lemma {:induction false} FirstMatchGrows(candidates: seq<Path>, known: set<Path>, q: Path)
    ensures FirstMatch(candidates, known + {q}) == FirstMatch(candidates, known)
            || FirstMatch(candidates, known + {q}) == Some(q)
  {
    if candidates != [] {
      FirstMatchGrows(candidates[1..], known, q);
    }
  }

  lemma LeastMatchIs(suffixes: seq<string>, known: set<Path>)
    ensures var r := LeastMatch(suffixes, known);
            if Matches(suffixes, known) == {} then r.None? else r.Some? && IsLeast(r.value, Matches(suffixes, known))
  {
    var keys := Matches(suffixes, known);
    if keys != {} {
      LeastIsUnique(keys);
      assert SortedKeys(keys) != [];
    }
  }

  lemma LeastMatchGrows(suffixes: seq<string>, known: set<Path>, q: Path)
    ensures LeastMatch(suffixes, known + {q}) == LeastMatch(suffixes, known)
            || LeastMatch(suffixes, known + {q}) == Some(q)
  {
    var before, after := Matches(suffixes, known), Matches(suffixes, known + {q});
    LeastMatchIs(suffixes, known);
    LeastMatchIs(suffixes, known + {q});
    if SuffixMatch(q, suffixes) {
      assert after == before + {q};
      var r := LeastMatch(suffixes, known + {q});
      if r != Some(q) {
        assert IsLeast(r.value, before);
        LeastIsUnique(before);
      }
    } else {
      assert after == before;
    }
  }

  lemma ResolvedIsKnown(language: string, imported: string, from: Path, known: set<Path>)
    ensures var r := Resolve(language, imported, from, known); r.Some? ==> r.value in known
  {
    if language == "python" {
      var (dots, rest) := Span(c => c == '.', imported);
      if dots != "" {
        var parts := if rest == "" then [] else Split(rest, '.');
        var keep := |ParentParts(from)| - (|dots| - 1);
        if keep >= 0 {
          var stem := Join(ParentParts(from)[..keep] + parts, "/");
          FirstMatchIsKnown([stem + ".py", stem + "/__init__.py"], known);
        }
      } else {
        var joined := Join(Split(imported, '.'), "/");
        LeastMatchIs([joined + ".py", joined + "/__init__.py"], known);
      }
    } else {
      FirstMatchIsKnown(TypeScriptCandidates(imported, from), known);
    }
  }

  /** Adding a path changes a resolution only to that path; read backwards, removing one changes only the
      resolutions that pointed to it. */
  lemma ResolveGrows(language: string, imported: string, from: Path, known: set<Path>, q: Path)
    ensures Resolve(language, imported, from, known + {q}) == Resolve(language, imported, from, known)
            || Resolve(language, imported, from, known + {q}) == Some(q)
  {
    if language == "python" {
      var (dots, rest) := Span(c => c == '.', imported);
      if dots != "" {
        var parts := if rest == "" then [] else Split(rest, '.');
        var keep := |ParentParts(from)| - (|dots| - 1);
        if keep >= 0 {
          var stem := Join(ParentParts(from)[..keep] + parts, "/");
          FirstMatchGrows([stem + ".py", stem + "/__init__.py"], known, q);
        }
      } else {
        var joined := Join(Split(imported, '.'), "/");
        LeastMatchGrows([joined + ".py", joined + "/__init__.py"], known, q);
      }
    } else {
      FirstMatchGrows(TypeScriptCandidates(imported, from), known, q);
    }
  }
}
