/**
 Whole-identifier rename (src/acp/orchestrator/loop.py `_rename_identifier_tokens`).

 `RenameTokens` is the left-to-right substitution of a word-boundary-anchored pattern; `Runs` splits a text into
 its maximal word runs and the characters between them. The scan is proved to be the map over runs, and from
 that the laws a rename needs follow. `w` says which characters are word characters.
 */
module Rename {
  import opened Strings

  /** A name that is one word run by itself. */
  predicate Identifier(w: CharTest, s: string) {
    s != "" && Every(w, s)
  }

  // ---------------------------------------------------------------------------------------------
  // The substitution as the regular expression engine performs it

  /** `\b`: exactly one side of position i is a word character. */
  predicate Boundary(w: CharTest, text: string, i: nat)
    requires i <= |text|
  {
    (i > 0 && w(text[i - 1])) != (i < |text| && w(text[i]))
  }

  predicate MatchesAt(w: CharTest, text: string, i: nat, name: string)
    requires i <= |text|
  {
    && i + |name| <= |text|
    && text[i..i + |name|] == name
    && Boundary(w, text, i)
    && Boundary(w, text, i + |name|)
  }

  function Substitute(w: CharTest, text: string, i: nat, oldName: string, newName: string): string
    requires i <= |text| && oldName != ""
    decreases |text| - i
  {
    if i == |text| then ""
    else if MatchesAt(w, text, i, oldName) then newName + Substitute(w, text, i + |oldName|, oldName, newName)
    else [text[i]] + Substitute(w, text, i + 1, oldName, newName)
  }

  function RenameTokens(w: CharTest, text: string, oldName: string, newName: string): string
    requires oldName != ""
  {
    Substitute(w, text, 0, oldName, newName)
  }

  // ---------------------------------------------------------------------------------------------
  // Word runs

  datatype Piece = Word(name: string) | Gap(c: char)

  function RunsFrom(w: CharTest, text: string, i: nat): seq<Piece>
    requires i <= |text|
    decreases |text| - i
  {
    if i == |text| then []
    else if w(text[i]) then
      var end := RunEnd(w, text, i + 1);
      [Word(text[i..end])] + RunsFrom(w, text, end)
    else [Gap(text[i])] + RunsFrom(w, text, i + 1)
  }

  function Runs(w: CharTest, text: string): seq<Piece> {
    RunsFrom(w, text, 0)
  }

  function Spell(p: Piece): string {
    match p
    case Word(name) => name
    case Gap(c) => [c]
  }

  function Join(pieces: seq<Piece>): string {
    if pieces == [] then "" else Spell(pieces[0]) + Join(pieces[1..])
  }

  /** Exactly the words equal to oldName change. */
  function Swap(pieces: seq<Piece>, oldName: string, newName: string): seq<Piece> {
    seq(|pieces|, i requires 0 <= i < |pieces| => if pieces[i] == Word(oldName) then Word(newName) else pieces[i])
  }

  predicate PieceOk(w: CharTest, p: Piece) {
    if p.Word? then Identifier(w, p.name) else !w(p.c)
  }

  ghost predicate WellFormed(w: CharTest, pieces: seq<Piece>) {
    && (forall i :: 0 <= i < |pieces| ==> PieceOk(w, pieces[i]))
    && (forall i :: 0 <= i < |pieces| - 1 ==> !(pieces[i].Word? && pieces[i + 1].Word?))
  }

  lemma WellFormedCons(w: CharTest, p: Piece, rest: seq<Piece>)
    ensures WellFormed(w, [p] + rest)
       <==> PieceOk(w, p) && WellFormed(w, rest) && (rest != [] ==> !(p.Word? && rest[0].Word?))
  {
    var pieces := [p] + rest;
    assert forall i :: 0 <= i < |rest| ==> rest[i] == pieces[i + 1];
    if WellFormed(w, pieces) {
      forall i | 0 <= i < |rest|
        ensures PieceOk(w, rest[i]) && (i < |rest| - 1 ==> !(rest[i].Word? && rest[i + 1].Word?))
      {
        assert PieceOk(w, pieces[i + 1]);
        assert rest[i] == pieces[i + 1] && (i < |rest| - 1 ==> rest[i + 1] == pieces[i + 2]);
      }
      assert PieceOk(w, pieces[0]);
    }
  }

  lemma JoinCons(p: Piece, rest: seq<Piece>)
    ensures Join([p] + rest) == Spell(p) + Join(rest)
  {
    assert ([p] + rest)[1..] == rest;
  }

  lemma TailSplits(text: string, i: nat, end: nat)
    requires i <= end <= |text|
    ensures text[i..] == text[i..end] + text[end..]
  {
  }

  lemma TailIsUnique(text: string, i: nat, first: string, rest: string)
    requires i <= |text| && text[i..] == first + rest
    ensures i + |first| <= |text| && text[i..i + |first|] == first && text[i + |first|..] == rest
  {
    var tail := text[i..];
    assert tail[..|first|] == first && tail[|first|..] == rest;
    assert tail[..|first|] == text[i..i + |first|] && tail[|first|..] == text[i + |first|..];
  }

  /** Splitting loses nothing. */
  lemma {:induction false} JoinRuns(w: CharTest, text: string, i: nat)
    requires i <= |text|
    ensures Join(RunsFrom(w, text, i)) == text[i..]
    decreases |text| - i
  {
    if i < |text| && w(text[i]) {
      var end := RunEnd(w, text, i + 1);
      JoinRuns(w, text, end);
      JoinCons(Word(text[i..end]), RunsFrom(w, text, end));
      TailSplits(text, i, end);
    } else if i < |text| {
      JoinRuns(w, text, i + 1);
      JoinCons(Gap(text[i]), RunsFrom(w, text, i + 1));
      TailSplits(text, i, i + 1);
    }
  }

  /** A run is never followed by another run. */
  lemma {:induction false} RunsAreWellFormed(w: CharTest, text: string, i: nat)
    requires i <= |text|
    ensures WellFormed(w, RunsFrom(w, text, i))
    decreases |text| - i
  {
    if i < |text| && w(text[i]) {
      var end := RunEnd(w, text, i + 1);
      RunEndIsMaximal(w, text, i + 1);
      RunsAreWellFormed(w, text, end);
      WellFormedCons(w, Word(text[i..end]), RunsFrom(w, text, end));
    } else if i < |text| {
      RunsAreWellFormed(w, text, i + 1);
      WellFormedCons(w, Gap(text[i]), RunsFrom(w, text, i + 1));
    }
  }

  lemma WordEndsWhereItStops(w: CharTest, text: string, i: nat, name: string, rest: seq<Piece>)
    requires i + |name| <= |text| && text[i..i + |name|] == name && text[i + |name|..] == Join(rest)
    requires Identifier(w, name) && WellFormed(w, rest) && (rest != [] ==> rest[0].Gap?)
    ensures w(text[i]) && RunEnd(w, text, i + 1) == i + |name|
  {
    var end := i + |name|;
    assert forall n :: i <= n < end ==> text[n] == text[i..end][n - i];
    if end < |text| {
      assert text[end] == Join(rest)[0] == rest[0].c;
      assert PieceOk(w, rest[0]);
    }
    RunEndIsUnique(w, text, i + 1, end);
  }

  lemma SplitsOffPiece(w: CharTest, text: string, i: nat, p: Piece, rest: seq<Piece>)
    requires i <= |text| && text[i..] == Spell(p) + Join(rest)
    requires PieceOk(w, p) && WellFormed(w, rest) && (rest != [] ==> !(p.Word? && rest[0].Word?))
    ensures var end := i + |Spell(p)|;
            end <= |text| && text[end..] == Join(rest)
            && RunsFrom(w, text, i) == [p] + RunsFrom(w, text, end)
  {
    TailIsUnique(text, i, Spell(p), Join(rest));
    if p.Word? {
      WordEndsWhereItStops(w, text, i, p.name, rest);
    }
  }

  /** A well-formed list of pieces is the split of its own text. */
  lemma {:induction false} RunsOfJoin(w: CharTest, text: string, i: nat, pieces: seq<Piece>)
    requires WellFormed(w, pieces) && i <= |text| && text[i..] == Join(pieces)
    ensures RunsFrom(w, text, i) == pieces
    decreases |pieces|
  {
    if pieces != [] {
      var p, rest := pieces[0], pieces[1..];
      assert pieces == [p] + rest;
      WellFormedCons(w, p, rest);
      SplitsOffPiece(w, text, i, p, rest);
      RunsOfJoin(w, text, i + |Spell(p)|, rest);
    }
  }

  // ---------------------------------------------------------------------------------------------
  // The scan is the map over runs

  lemma NoMatchCopiesOne(w: CharTest, text: string, i: nat, oldName: string, newName: string)
    requires oldName != "" && i < |text| && !MatchesAt(w, text, i, oldName)
    ensures Substitute(w, text, i, oldName, newName) == [text[i]] + Substitute(w, text, i + 1, oldName, newName)
  {
  }

  lemma ConcatSlices(text: string, i: nat, end: nat, rest: string)
    requires i < end <= |text|
    ensures [text[i]] + (text[i + 1..end] + rest) == text[i..end] + rest
  {
    assert text[i..end] == [text[i]] + text[i + 1..end];
  }

  /** Inside a run there is no boundary, so the scan copies to the end of the run. */
  lemma {:induction false} CopiesRestOfRun(w: CharTest, text: string, j: nat, oldName: string, newName: string)
    requires oldName != "" && 0 < j <= |text| && w(text[j - 1])
    ensures var end := RunEnd(w, text, j);
            Substitute(w, text, j, oldName, newName) == text[j..end] + Substitute(w, text, end, oldName, newName)
    decreases |text| - j
  {
    if j < |text| && w(text[j]) {
      var end := RunEnd(w, text, j + 1);
      NoMatchCopiesOne(w, text, j, oldName, newName);
      CopiesRestOfRun(w, text, j + 1, oldName, newName);
      ConcatSlices(text, j, end, Substitute(w, text, end, oldName, newName));
    }
  }

  /** Whether the scan replaces something at the start of a run depends on the whole run only. */
  lemma MatchIsWholeRun(w: CharTest, text: string, i: nat, name: string)
    requires Identifier(w, name) && i < |text| && w(text[i]) && (i > 0 ==> !w(text[i - 1]))
    ensures MatchesAt(w, text, i, name) <==> text[i..RunEnd(w, text, i + 1)] == name
  {
    var end, m := RunEnd(w, text, i + 1), |name|;
    RunEndIsMaximal(w, text, i + 1);
    if MatchesAt(w, text, i, name) {
      assert forall n :: i <= n < i + m ==> text[n] == text[i..i + m][n - i];
      assert w(text[i + m - 1]);
      RunEndIsUnique(w, text, i + 1, i + m);
    }
  }

  lemma ScanOneRun(w: CharTest, text: string, i: nat, oldName: string, newName: string)
    requires Identifier(w, oldName) && i < |text| && w(text[i]) && (i > 0 ==> !w(text[i - 1]))
    ensures var end := RunEnd(w, text, i + 1);
            Substitute(w, text, i, oldName, newName)
            == (if text[i..end] == oldName then newName else text[i..end]) + Substitute(w, text, end, oldName, newName)
  {
    var end := RunEnd(w, text, i + 1);
    MatchIsWholeRun(w, text, i, oldName);
    if text[i..end] != oldName {
      NoMatchCopiesOne(w, text, i, oldName, newName);
      CopiesRestOfRun(w, text, i + 1, oldName, newName);
      ConcatSlices(text, i, end, Substitute(w, text, end, oldName, newName));
    }
  }

  lemma ScanOneGap(w: CharTest, text: string, i: nat, oldName: string, newName: string)
    requires Identifier(w, oldName) && i < |text| && !w(text[i])
    ensures Substitute(w, text, i, oldName, newName) == [text[i]] + Substitute(w, text, i + 1, oldName, newName)
  {
    if i + |oldName| <= |text| {
      assert text[i..i + |oldName|][0] == text[i];
    }
    NoMatchCopiesOne(w, text, i, oldName, newName);
  }

  lemma JoinSwapCons(p: Piece, rest: seq<Piece>, oldName: string, newName: string)
    ensures Join(Swap([p] + rest, oldName, newName))
         == (if p == Word(oldName) then newName else Spell(p)) + Join(Swap(rest, oldName, newName))
  {
    assert Swap([p] + rest, oldName, newName)[1..] == Swap(rest, oldName, newName);
  }

  lemma {:induction false} ScanFromRunStart(w: CharTest, text: string, i: nat, oldName: string, newName: string)
    requires Identifier(w, oldName) && i <= |text|
    requires 0 < i < |text| && w(text[i]) ==> !w(text[i - 1])
    ensures Substitute(w, text, i, oldName, newName) == Join(Swap(RunsFrom(w, text, i), oldName, newName))
    decreases |text| - i
  {
    if i < |text| && w(text[i]) {
      var end := RunEnd(w, text, i + 1);
      RunEndIsMaximal(w, text, i + 1);
      ScanFromRunStart(w, text, end, oldName, newName);
      ScanOneRun(w, text, i, oldName, newName);
      JoinSwapCons(Word(text[i..end]), RunsFrom(w, text, end), oldName, newName);
    } else if i < |text| {
      ScanFromRunStart(w, text, i + 1, oldName, newName);
      ScanOneGap(w, text, i, oldName, newName);
      JoinSwapCons(Gap(text[i]), RunsFrom(w, text, i + 1), oldName, newName);
    }
  }

  /** The substitution replaces exactly the maximal word runs equal to oldName. */
  lemma RenameIsMapOverRuns(w: CharTest, text: string, oldName: string, newName: string)
    requires Identifier(w, oldName)
    ensures RenameTokens(w, text, oldName, newName) == Join(Swap(Runs(w, text), oldName, newName))
  {
    ScanFromRunStart(w, text, 0, oldName, newName);
  }

  /** Token by token: the renamed text has the same runs, with oldName replaced. */
  lemma RunsOfRenamed(w: CharTest, text: string, oldName: string, newName: string)
    requires Identifier(w, oldName) && Identifier(w, newName)
    ensures Runs(w, RenameTokens(w, text, oldName, newName)) == Swap(Runs(w, text), oldName, newName)
  {
    RenameIsMapOverRuns(w, text, oldName, newName);
    RunsAreWellFormed(w, text, 0);
    SwapKeepsWellFormed(w, Runs(w, text), oldName, newName);
    var renamed := RenameTokens(w, text, oldName, newName);
    assert renamed[0..] == renamed;
    RunsOfJoin(w, renamed, 0, Swap(Runs(w, text), oldName, newName));
  }

  lemma SwapKeepsWellFormed(w: CharTest, pieces: seq<Piece>, oldName: string, newName: string)
    requires WellFormed(w, pieces) && Identifier(w, newName)
    ensures WellFormed(w, Swap(pieces, oldName, newName))
  {
    var swapped := Swap(pieces, oldName, newName);
    assert forall i :: 0 <= i < |pieces| ==> PieceOk(w, pieces[i]) && (swapped[i].Word? <==> pieces[i].Word?);
  }

  // ---------------------------------------------------------------------------------------------
  // Laws

  /** No standalone oldName is left, so renaming again changes nothing. */
  lemma RenameIsCompleteAndIdempotent(w: CharTest, text: string, oldName: string, newName: string)
    requires Identifier(w, oldName) && Identifier(w, newName) && oldName != newName
    ensures var renamed := RenameTokens(w, text, oldName, newName);
            && Word(oldName) !in Runs(w, renamed)
            && RenameTokens(w, renamed, oldName, newName) == renamed
  {
    var renamed := RenameTokens(w, text, oldName, newName);
    RunsOfRenamed(w, text, oldName, newName);
    assert Word(oldName) !in Runs(w, renamed);
    RenameIsMapOverRuns(w, renamed, oldName, newName);
    assert Swap(Runs(w, renamed), oldName, newName) == Runs(w, renamed);
    JoinRuns(w, renamed, 0);
    assert renamed[0..] == renamed;
  }

  /** Renaming back restores the text if and only if the new name was not already a token of it. */
  lemma RenameBackIff(w: CharTest, text: string, oldName: string, newName: string)
    requires Identifier(w, oldName) && Identifier(w, newName) && oldName != newName
    ensures RenameTokens(w, RenameTokens(w, text, oldName, newName), newName, oldName) == text
       <==> Word(newName) !in Runs(w, text)
  {
    var renamed := RenameTokens(w, text, oldName, newName);
    RunsOfRenamed(w, text, oldName, newName);
    RunsOfRenamed(w, renamed, newName, oldName);
    RenameIsMapOverRuns(w, renamed, newName, oldName);
    var before, after := Runs(w, text), Swap(Runs(w, renamed), newName, oldName);
    assert text[0..] == text;
    JoinRuns(w, text, 0);
    if Word(newName) in before {
      var i :| 0 <= i < |before| && before[i] == Word(newName);
      assert after[i] == Word(oldName);
      assert after != before;
    } else {
      assert after == before;
    }
  }
}
