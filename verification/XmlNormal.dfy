/** What reading changes: end-of-line handling inside the texts, and the refusal of illegal characters. */
module XmlNormal {
  import opened Common
  import opened Strings
  import opened Xml
  import opened XmlPrint

  // ---------------------------------------------------------------------------------------------
  // Illegal characters survive escaping, so a document is legal exactly when its texts are

  lemma {:induction false} EscapeIsLegalIff(s: string, quotes: bool)
    ensures Every(Legal, EscapeEach(s, quotes)) <==> Every(Legal, s)
  {
    if s != "" {
      EscapeIsLegalIff(s[1..], quotes);
      EveryConcat(Legal, EscapeChar(s[0], quotes), EscapeEach(s[1..], quotes));
      EveryConcat(Legal, [s[0]], s[1..]);
      assert s == [s[0]] + s[1..];
      assert Every(Legal, EscapeChar(s[0], quotes)) <==> Legal(EscapeChar(s[0], quotes)[0]);
    }
  }

  lemma EveryConcat(p: CharTest, a: string, b: string)
    ensures Every(p, a + b) <==> Every(p, a) && Every(p, b)
  {
    if Every(p, a + b) {
      assert forall i :: 0 <= i < |a| ==> a[i] == (a + b)[i];
      assert forall i :: 0 <= i < |b| ==> b[i] == (a + b)[|a| + i];
    }
  }

  predicate AttrsLegal(attrs: seq<Attr>) {
    attrs != [] ==> Every(Legal, attrs[0].value) && AttrsLegal(attrs[1..])
  }

  predicate TokenLegal(t: Token) {
    match t
    case Open(_, attrs) => AttrsLegal(attrs)
    case Close(_) => true
    case Text(content) => Every(Legal, content)
  }

  predicate TokensLegal(tokens: seq<Token>) {
    tokens != [] ==> TokenLegal(tokens[0]) && TokensLegal(tokens[1..])
  }

  lemma AttrIsLegalIff(a: Attr)
    requires IsName(a.name)
    ensures Every(Legal, SpellAttr(a)) <==> Every(Legal, a.value)
  {
    EscapeIsPerCharacter(a.value);
    EscapeIsLegalIff(a.value, true);
    EveryConcat(Legal, a.name + "=\"" + EscapeAttr(a.value), "\"");
    EveryConcat(Legal, a.name + "=\"", EscapeAttr(a.value));
    assert Every(Legal, a.name + "=\"");
  }

  lemma {:induction false} AttrsAreLegalIff(attrs: seq<Attr>)
    requires AttrsOk(attrs)
    ensures Every(Legal, SpellAttrs(attrs)) <==> AttrsLegal(attrs)
  {
    if attrs != [] {
      AttrIsLegalIff(attrs[0]);
      AttrsAreLegalIff(attrs[1..]);
      EveryConcat(Legal, " " + SpellAttr(attrs[0]), SpellAttrs(attrs[1..]));
      EveryConcat(Legal, " ", SpellAttr(attrs[0]));
    }
  }

  lemma TokenIsLegalIff(t: Token)
    requires TokenOk(t)
    ensures Every(Legal, Spell(t)) <==> TokenLegal(t)
  {
    match t
    case Open(tag, attrs) =>
      AttrsAreLegalIff(attrs);
      EveryConcat(Legal, "<" + tag + SpellAttrs(attrs), ">");
      EveryConcat(Legal, "<" + tag, SpellAttrs(attrs));
      assert Every(Legal, "<" + tag);
    case Close(tag) =>
      assert Every(Legal, Spell(t));
    case Text(content) =>
      EscapeIsPerCharacter(content);
      EscapeIsLegalIff(content, false);
  }

  lemma {:induction false} SpelledIsLegalIff(tokens: seq<Token>)
    requires Printable(tokens)
    ensures Every(Legal, SpellAll(tokens)) <==> TokensLegal(tokens)
  {
    if tokens != [] {
      TokenIsLegalIff(tokens[0]);
      SpelledIsLegalIff(tokens[1..]);
      EveryConcat(Legal, Spell(tokens[0]), SpellAll(tokens[1..]));
    }
  }

  // ---------------------------------------------------------------------------------------------
  // End-of-line handling acts inside the texts only

  predicate Joinable(a: string, b: string) {
    a == "" || b == "" || a[|a| - 1] != '\r' || b[0] != '\n'
  }

  lemma {:induction false} LinesOfConcat(a: string, b: string)
    requires Joinable(a, b)
    ensures EndOfLines(a + b) == EndOfLines(a) + EndOfLines(b)
    decreases |a|
  {
    if a == "" {
      assert a + b == b;
    } else {
      var n := if a[0] == '\r' && |a| > 1 && a[1] == '\n' then 2 else 1;
      assert (a + b)[n..] == a[n..] + b;
      LinesOfConcat(a[n..], b);
    }
  }

  lemma {:induction false} LinesOfPlain(s: string)
    requires forall i :: 0 <= i < |s| ==> s[i] != '\r'
    ensures EndOfLines(s) == s
  {
    if s != "" {
      LinesOfPlain(s[1..]);
    }
  }

  /** What a carriage return leaves to be read. */
  function AfterReturn(s: string): string {
    if s != "" && s[0] == '\n' then s[1..] else s
  }

  lemma LinesOfReturn(s: string)
    ensures EndOfLines("\r" + s) == "\n" + EndOfLines(AfterReturn(s))
  {
    var all := "\r" + s;
    assert all[1..] == s;
    if s != "" {
      assert all[2..] == s[1..];
    }
  }

  lemma EscapedAfterReturn(s: string, quotes: bool)
    ensures AfterReturn(EscapeEach(s, quotes)) == EscapeEach(AfterReturn(s), quotes)
  {
  }

  lemma EscapedCons(c: char, s: string, quotes: bool)
    ensures EscapeEach([c] + s, quotes) == EscapeChar(c, quotes) + EscapeEach(s, quotes)
  {
    assert ([c] + s)[1..] == s;
  }

  lemma LinesOfOther(c: char, s: string)
    requires c != '\r'
    ensures EndOfLines([c] + s) == [c] + EndOfLines(s)
  {
    assert ([c] + s)[1..] == s;
  }

  predicate LinesCommute(s: string, quotes: bool) {
    EndOfLines(EscapeEach(s, quotes)) == EscapeEach(EndOfLines(s), quotes)
  }

  lemma CommuteAtReturn(rest: string, quotes: bool)
    requires LinesCommute(AfterReturn(rest), quotes)
    ensures LinesCommute("\r" + rest, quotes)
  {
    var after := AfterReturn(rest);
    calc {
      EndOfLines(EscapeEach("\r" + rest, quotes));
    == { EscapedCons('\r', rest, quotes); }
      EndOfLines("\r" + EscapeEach(rest, quotes));
    == { LinesOfReturn(EscapeEach(rest, quotes)); EscapedAfterReturn(rest, quotes); }
      "\n" + EscapeEach(EndOfLines(after), quotes);
    == { EscapedCons('\n', EndOfLines(after), quotes); }
      EscapeEach("\n" + EndOfLines(after), quotes);
    == { LinesOfReturn(rest); }
      EscapeEach(EndOfLines("\r" + rest), quotes);
    }
  }

  lemma EscapedCharIsPlain(c: char, quotes: bool)
    requires c != '\r'
    ensures EndOfLines(EscapeChar(c, quotes)) == EscapeChar(c, quotes)
    ensures EscapeChar(c, quotes) != "" && EscapeChar(c, quotes)[|EscapeChar(c, quotes)| - 1] != '\r'
  {
    LinesOfPlain(EscapeChar(c, quotes));
  }

  lemma CommuteAtOther(c: char, rest: string, quotes: bool)
    requires c != '\r' && LinesCommute(rest, quotes)
    ensures LinesCommute([c] + rest, quotes)
  {
    var first := EscapeChar(c, quotes);
    calc {
      EndOfLines(EscapeEach([c] + rest, quotes));
    == { EscapedCons(c, rest, quotes); }
      EndOfLines(first + EscapeEach(rest, quotes));
    == { EscapedCharIsPlain(c, quotes); LinesOfConcat(first, EscapeEach(rest, quotes)); }
      first + EscapeEach(EndOfLines(rest), quotes);
    == { EscapedCons(c, EndOfLines(rest), quotes); }
      EscapeEach([c] + EndOfLines(rest), quotes);
    == { LinesOfOther(c, rest); }
      EscapeEach(EndOfLines([c] + rest), quotes);
    }
  }

  /** Escaping touches no line ending. */
  lemma {:induction false} LinesOfEscaped(s: string, quotes: bool)
    ensures LinesCommute(s, quotes)
    decreases |s|
  {
    if s != "" {
      assert s == [s[0]] + s[1..];
      if s[0] == '\r' {
        LinesOfEscaped(AfterReturn(s[1..]), quotes);
        CommuteAtReturn(s[1..], quotes);
      } else {
        LinesOfEscaped(s[1..], quotes);
        CommuteAtOther(s[0], s[1..], quotes);
      }
    }
  }

  function LinesAttr(a: Attr): Attr {
    Attr(a.name, EndOfLines(a.value))
  }

  function LinesAttrs(attrs: seq<Attr>): seq<Attr> {
    if attrs == [] then [] else [LinesAttr(attrs[0])] + LinesAttrs(attrs[1..])
  }

  function LinesToken(t: Token): Token {
    match t
    case Open(tag, attrs) => Open(tag, LinesAttrs(attrs))
    case Close(tag) => t
    case Text(content) => Text(EndOfLines(content))
  }

  function LinesAll(tokens: seq<Token>): seq<Token> {
    if tokens == [] then [] else [LinesToken(tokens[0])] + LinesAll(tokens[1..])
  }

  lemma LinesOfFramed(before: string, middle: string, after: string)
    requires Every(Not('\r'), before) && Every(Not('\r'), after) && before != "" && after != "" && after[0] != '\n'
    ensures EndOfLines(before + middle + after) == before + EndOfLines(middle) + after
  {
    LinesOfPlain(before);
    LinesOfPlain(after);
    LinesOfConcat(before, middle);
    LinesOfConcat(before + middle, after);
  }

  lemma LinesOfAttr(a: Attr)
    requires IsName(a.name)
    ensures EndOfLines(SpellAttr(a)) == SpellAttr(LinesAttr(a))
  {
    EscapeIsPerCharacter(a.value);
    EscapeIsPerCharacter(EndOfLines(a.value));
    LinesOfEscaped(a.value, true);
    assert Every(Not('\r'), a.name + "=\"");
    LinesOfFramed(a.name + "=\"", EscapeAttr(a.value), "\"");
  }

  lemma {:induction false} LinesOfAttrs(attrs: seq<Attr>)
    requires AttrsOk(attrs)
    ensures EndOfLines(SpellAttrs(attrs)) == SpellAttrs(LinesAttrs(attrs))
  {
    if attrs != [] {
      LinesOfAttr(attrs[0]);
      LinesOfAttrs(attrs[1..]);
      LinesOfPlain(" ");
      LinesOfConcat(" ", SpellAttr(attrs[0]));
      LinesOfConcat(" " + SpellAttr(attrs[0]), SpellAttrs(attrs[1..]));
    }
  }

  lemma LinesOfToken(t: Token)
    requires TokenOk(t)
    ensures EndOfLines(Spell(t)) == Spell(LinesToken(t))
  {
    match t
    case Open(tag, attrs) =>
      LinesOfAttrs(attrs);
      assert Every(Not('\r'), "<" + tag);
      LinesOfFramed("<" + tag, SpellAttrs(attrs), ">");
    case Close(tag) =>
      LinesOfPlain(Spell(t));
    case Text(content) =>
      EscapeIsPerCharacter(content);
      EscapeIsPerCharacter(EndOfLines(content));
      LinesOfEscaped(content, false);
  }

  lemma {:induction false} LinesKeepNames(attrs: seq<Attr>, name: string)
    ensures HasAttr(LinesAttrs(attrs), name) == HasAttr(attrs, name)
  {
    if attrs != [] {
      LinesKeepNames(attrs[1..], name);
    }
  }

  lemma {:induction false} LinesKeepAttrsOk(attrs: seq<Attr>)
    requires AttrsOk(attrs)
    ensures AttrsOk(LinesAttrs(attrs))
  {
    if attrs != [] {
      LinesKeepNames(attrs[1..], attrs[0].name);
      LinesKeepAttrsOk(attrs[1..]);
    }
  }

  /** End-of-line handling of a printed document is end-of-line handling of its texts and values. */
  lemma {:induction false} LinesOfSpelled(tokens: seq<Token>)
    requires Printable(tokens)
    ensures EndOfLines(SpellAll(tokens)) == SpellAll(LinesAll(tokens)) && Printable(LinesAll(tokens))
  {
    if tokens != [] {
      var t, rest := tokens[0], SpellAll(tokens[1..]);
      LinesOfToken(t);
      LinesOfSpelled(tokens[1..]);
      if t.Text? && rest != "" {
        TextEndsAtTag(tokens);
      }
      LinesOfConcat(Spell(t), rest);
      if t.Open? {
        LinesKeepAttrsOk(t.attrs);
      }
    }
  }

  /** The document as a whole: refused, or every token delivered in its normal form. */
  lemma PrintedIsRead(tokens: seq<Token>)
    requires Printable(tokens)
    ensures Every(Legal, SpellAll(tokens)) <==> TokensLegal(tokens)
    ensures Lex(EndOfLines(SpellAll(tokens))) == Some(ReadAll(LinesAll(tokens)))
  {
    SpelledIsLegalIff(tokens);
    LinesOfSpelled(tokens);
    LexSpelled(LinesAll(tokens));
  }
}
