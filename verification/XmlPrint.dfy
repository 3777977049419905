/** Printing documents token by token, and the proof that the lexer reads back what was printed. */
module XmlPrint {
  import opened Common
  import opened Strings
  import opened Xml

  // ---------------------------------------------------------------------------------------------
  // Sequential replacement is a character-by-character map

  function EscapeChar(c: char, quotes: bool): string {
    if c == '&' then "&amp;"
    else if c == '>' then "&gt;"
    else if c == '<' then "&lt;"
    else if c == '"' && quotes then "&quot;"
    else [c]
  }

  function EscapeEach(s: string, quotes: bool): string {
    if s == "" then "" else EscapeChar(s[0], quotes) + EscapeEach(s[1..], quotes)
  }

  lemma {:induction false} ReplaceConcat(a: string, b: string, c: char, sub: string)
    ensures Replace(a + b, c, sub) == Replace(a, c, sub) + Replace(b, c, sub)
  {
    if a == "" {
      assert a + b == b;
    } else {
      assert (a + b)[1..] == a[1..] + b;
      ReplaceConcat(a[1..], b, c, sub);
    }
  }

  lemma {:induction false} ReplaceAbsent(s: string, c: char, sub: string)
    requires forall i :: 0 <= i < |s| ==> s[i] != c
    ensures Replace(s, c, sub) == s
  {
    if s != "" {
      ReplaceAbsent(s[1..], c, sub);
    }
  }

  lemma ReplaceSingle(c: char, d: char, sub: string)
    ensures Replace([c], d, sub) == if c == d then sub else [c]
  {
    assert [c][1..] == "";
  }

  lemma EscapeOne(c: char)
    ensures Escape([c]) == EscapeChar(c, false)
    ensures EscapeAttr([c]) == EscapeChar(c, true)
  {
    ReplaceSingle(c, '&', "&amp;");
    if c == '&' {
      ReplaceAbsent("&amp;", '>', "&gt;");
      ReplaceAbsent("&amp;", '<', "&lt;");
      ReplaceAbsent("&amp;", '"', "&quot;");
    } else {
      ReplaceSingle(c, '>', "&gt;");
      if c == '>' {
        ReplaceAbsent("&gt;", '<', "&lt;");
        ReplaceAbsent("&gt;", '"', "&quot;");
      } else {
        ReplaceSingle(c, '<', "&lt;");
        ReplaceSingle(c, '"', "&quot;");
        ReplaceAbsent("&lt;", '"', "&quot;");
      }
    }
  }

  lemma EscapeConcat(a: string, b: string)
    ensures Escape(a + b) == Escape(a) + Escape(b)
    ensures EscapeAttr(a + b) == EscapeAttr(a) + EscapeAttr(b)
  {
    var a1, b1 := Replace(a, '&', "&amp;"), Replace(b, '&', "&amp;");
    var a2, b2 := Replace(a1, '>', "&gt;"), Replace(b1, '>', "&gt;");
    ReplaceConcat(a, b, '&', "&amp;");
    ReplaceConcat(a1, b1, '>', "&gt;");
    ReplaceConcat(a2, b2, '<', "&lt;");
    ReplaceConcat(Escape(a), Escape(b), '"', "&quot;");
  }

  /** Replacing & first and < last never touches a character that an earlier pass produced. */
  lemma {:induction false} EscapeIsPerCharacter(s: string)
    ensures Escape(s) == EscapeEach(s, false)
    ensures EscapeAttr(s) == EscapeEach(s, true)
  {
    if s != "" {
      assert s == [s[0]] + s[1..];
      EscapeOne(s[0]);
      EscapeConcat([s[0]], s[1..]);
      EscapeIsPerCharacter(s[1..]);
    }
  }

  // ---------------------------------------------------------------------------------------------
  // Decoding undoes it

  predicate Markup(c: char, quotes: bool) {
    c == '&' || c == '<' || c == '>' || (c == '"' && quotes)
  }

  lemma DecodeEntity(c: char, quotes: bool, rest: string, plain: char -> Option<char>)
    requires Markup(c, quotes) && Decode(rest, plain).Some?
    ensures Decode(EscapeChar(c, quotes) + rest, plain) == Some([c] + Decode(rest, plain).value)
  {
    var e := EscapeChar(c, quotes);
    var s := e + rest;
    assert s[0] == '&' && s[1] == e[1] && s[|e|..] == rest && e <= s;
    assert "&lt;"[1] == 'l' && "&gt;"[1] == 'g' && "&amp;"[1] == 'a' && "&quot;"[1] == 'q';
    assert EntityAt(s) == Some((c, |e|));
  }

  /** Markup comes back as itself, every other character as `plain` delivers it. */
  lemma {:induction false} DecodeEscaped(s: string, quotes: bool, plain: char -> Option<char>, out: string)
    requires |out| == |s|
    requires forall i :: 0 <= i < |s| ==> if Markup(s[i], quotes) then out[i] == s[i] else plain(s[i]) == Some(out[i])
    ensures Decode(EscapeEach(s, quotes), plain) == Some(out)
  {
    if s != "" {
      DecodeEscaped(s[1..], quotes, plain, out[1..]);
      assert out == [out[0]] + out[1..];
      var rest := EscapeEach(s[1..], quotes);
      if Markup(s[0], quotes) {
        DecodeEntity(s[0], quotes, rest, plain);
      } else {
        assert ([s[0]] + rest)[1..] == rest;
      }
    }
  }

  lemma {:induction false} EscapedHasNoMarkup(s: string, quotes: bool)
    ensures var e := EscapeEach(s, quotes);
            forall i :: 0 <= i < |e| ==> e[i] != '<' && e[i] != '>' && (quotes ==> e[i] != '"')
    ensures s != "" ==> EscapeEach(s, quotes) != ""
  {
    if s != "" {
      EscapedHasNoMarkup(s[1..], quotes);
    }
  }

  /** Element text comes back as it went in. */
  lemma TextRoundTrip(s: string)
    ensures DecodeText(Escape(s)) == Some(s)
  {
    EscapeIsPerCharacter(s);
    EscapedHasNoMarkup(s, false);
    var raw := Escape(s);
    forall i | 0 <= i < |raw|
      ensures !("]]>" <= raw[i..])
    {
      if i + 2 < |raw| {
        assert raw[i..][2] == raw[i + 2] != '>';
      }
    }
    DecodeEscaped(s, false, TextChar, s);
  }

  /** Attribute-value normalization: every white space character becomes a space. */
  function Spaced(s: string): string {
    seq(|s|, i requires 0 <= i < |s| => if XmlSpace(s[i]) then ' ' else s[i])
  }

  lemma AttrRoundTrip(s: string)
    ensures DecodeAttr(EscapeAttr(s)) == Some(Spaced(s))
  {
    EscapeIsPerCharacter(s);
    DecodeEscaped(s, true, AttrValueChar, Spaced(s));
  }

  // ---------------------------------------------------------------------------------------------
  // Printing tokens

  function SpellAttr(a: Attr): string {
    a.name + "=\"" + EscapeAttr(a.value) + "\""
  }

  function SpellAttrs(attrs: seq<Attr>): string {
    if attrs == [] then "" else " " + SpellAttr(attrs[0]) + SpellAttrs(attrs[1..])
  }

  function Spell(t: Token): string {
    match t
    case Open(tag, attrs) => "<" + tag + SpellAttrs(attrs) + ">"
    case Close(tag) => "</" + tag + ">"
    case Text(content) => Escape(content)
  }

  function SpellAll(tokens: seq<Token>): string {
    if tokens == [] then "" else Spell(tokens[0]) + SpellAll(tokens[1..])
  }

  predicate AttrsOk(attrs: seq<Attr>) {
    attrs != [] ==> IsAttrName(attrs[0].name) && !HasAttr(attrs[1..], attrs[0].name) && AttrsOk(attrs[1..])
  }

  predicate TokenOk(t: Token) {
    match t
    case Open(tag, attrs) => IsName(tag) && AttrsOk(attrs)
    case Close(tag) => IsName(tag)
    case Text(content) => content != ""
  }

  /** Every token can be printed, and character data is never split in two. */
  predicate Printable(tokens: seq<Token>) {
    tokens != [] ==>
      && TokenOk(tokens[0])
      && (tokens[0].Text? && |tokens| > 1 ==> !tokens[1].Text?)
      && Printable(tokens[1..])
  }

  // ---------------------------------------------------------------------------------------------
  // The lexer reads a printed token back

  lemma Regroup(a: string, b: string, c: string, d: string)
    ensures a + b + c + d == a + (b + (c + d))
  {
  }

  lemma QuotedValue(value: string)
    ensures Every(Not('"'), EscapeAttr(value)) && DecodeAttr(EscapeAttr(value)) == Some(Spaced(value))
  {
    EscapeIsPerCharacter(value);
    EscapedHasNoMarkup(value, true);
    AttrRoundTrip(value);
  }

  lemma LexQuotedRaw(raw: string, value: string, rest: string)
    requires Every(Not('"'), raw) && DecodeAttr(raw) == Some(value)
    ensures LexQuoted("\"" + raw + "\"" + rest) == Some((value, rest))
  {
    SpanOf(Not('"'), raw, "\"" + rest);
    assert ("\"" + raw + "\"" + rest)[1..] == raw + ("\"" + rest);
    assert ("\"" + rest)[1..] == rest;
  }

  function SpacedAttr(a: Attr): Attr {
    Attr(a.name, Spaced(a.value))
  }

  function SpacedAttrs(attrs: seq<Attr>): seq<Attr> {
    if attrs == [] then [] else [SpacedAttr(attrs[0])] + SpacedAttrs(attrs[1..])
  }

  lemma {:induction false} SpacedKeepsNames(attrs: seq<Attr>, name: string)
    ensures HasAttr(SpacedAttrs(attrs), name) == HasAttr(attrs, name)
  {
    if attrs != [] {
      SpacedKeepsNames(attrs[1..], name);
    }
  }

  lemma LexAttrSpelled(a: Attr, rest: string)
    requires IsAttrName(a.name)
    ensures LexAttr(SpellAttr(a) + rest) == Some((SpacedAttr(a), rest))
  {
    var quoted := "\"" + EscapeAttr(a.value) + "\"" + rest;
    QuotedValue(a.value);
    LexQuotedRaw(EscapeAttr(a.value), Spaced(a.value), rest);
    LexEquals(a.name, quoted);
    assert SpellAttr(a) + rest == a.name + ("=" + quoted);
  }

  lemma LexEquals(name: string, quoted: string)
    requires IsAttrName(name) && quoted != "" && quoted[0] == '"' && LexQuoted(quoted).Some?
    ensures LexAttr(name + ("=" + quoted))
         == Some((Attr(name, LexQuoted(quoted).value.0), LexQuoted(quoted).value.1))
  {
    SpanOf(NameChar, name, "=" + quoted);
    assert ("=" + quoted)[1..] == quoted;
    assert DropSpace("=" + quoted) == "=" + quoted && DropSpace(quoted) == quoted;
  }

  lemma LexAttrsCons(a: Attr, s: string, next: string)
    requires s != "" && NameChar(s[0]) && LexAttr(s) == Some((a, next)) && LexAttrs(next).Some?
    requires !HasAttr(LexAttrs(next).value.attrs, a.name)
    ensures LexAttrs(" " + s)
         == Some(LexAttrs(next).value.(attrs := [a] + LexAttrs(next).value.attrs))
  {
    SpanOf(XmlSpace, " ", s);
    assert DropSpace(" " + s) == s;
  }

  lemma AttrStarts(a: Attr, tail: string)
    requires IsAttrName(a.name)
    ensures SpellAttr(a) + tail != "" && NameChar((SpellAttr(a) + tail)[0])
  {
    assert (SpellAttr(a) + tail)[0] == a.name[0];
  }

  function Prepended(a: Attr, more: AttrList): AttrList {
    AttrList([a] + more.attrs, more.selfClosing, more.rest)
  }

  lemma LexAttrsStep(a: Attr, tail: string, more: AttrList)
    requires IsAttrName(a.name) && LexAttrs(tail) == Some(more) && !HasAttr(more.attrs, a.name)
    ensures LexAttrs(" " + (SpellAttr(a) + tail)) == Some(Prepended(SpacedAttr(a), more))
  {
    LexAttrSpelled(a, tail);
    AttrStarts(a, tail);
    LexAttrsCons(SpacedAttr(a), SpellAttr(a) + tail, tail);
  }

  lemma SpellAttrsSplit(attrs: seq<Attr>, end: string)
    requires attrs != []
    ensures SpellAttrs(attrs) + end == " " + (SpellAttr(attrs[0]) + (SpellAttrs(attrs[1..]) + end))
  {
    Regroup(" ", SpellAttr(attrs[0]), SpellAttrs(attrs[1..]), end);
  }

  lemma {:induction false} LexAttrsSpelled(attrs: seq<Attr>, rest: string)
    requires AttrsOk(attrs)
    ensures LexAttrs(SpellAttrs(attrs) + (">" + rest)) == Some(AttrList(SpacedAttrs(attrs), false, rest))
    decreases attrs
  {
    if attrs == [] {
      LexNoAttrs(rest);
      assert SpellAttrs(attrs) + (">" + rest) == ">" + rest;
    } else {
      LexAttrsSpelled(attrs[1..], rest);
      SpacedKeepsNames(attrs[1..], attrs[0].name);
      LexAttrsStep(attrs[0], SpellAttrs(attrs[1..]) + (">" + rest), AttrList(SpacedAttrs(attrs[1..]), false, rest));
      SpellAttrsSplit(attrs, ">" + rest);
    }
  }

  lemma LexNoAttrs(rest: string)
    ensures LexAttrs(">" + rest) == Some(AttrList([], false, rest))
  {
    assert (">" + rest)[1..] == rest;
  }

  // ---------------------------------------------------------------------------------------------

  lemma LexOpenTail(tag: string, tail: string)
    requires IsName(tag) && tail != "" && !NameChar(tail[0])
    requires LexAttrs(tail).Some?
    ensures LexTag(tag + tail) == Some(OpenLexeme(tag, LexAttrs(tail).value))
  {
    SpanOf(NameChar, tag, tail);
    assert (tag + tail)[0] == tag[0];
  }

  lemma LexOpenSpelled(tag: string, attrs: seq<Attr>, rest: string)
    requires IsName(tag) && AttrsOk(attrs)
    ensures LexTag((Spell(Open(tag, attrs)) + rest)[1..]) == Some(Lexeme([Open(tag, SpacedAttrs(attrs))], rest))
  {
    var tail := SpellAttrs(attrs) + (">" + rest);
    LexAttrsSpelled(attrs, rest);
    assert tail[0] == if attrs == [] then '>' else ' ';
    LexOpenTail(tag, tail);
    OpenAfterBracket(tag, SpellAttrs(attrs), rest);
  }

  lemma OpenAfterBracket(tag: string, attrs: string, rest: string)
    ensures ("<" + tag + attrs + ">" + rest)[1..] == tag + (attrs + (">" + rest))
  {
  }

  lemma LexCloseSpelled(tag: string, rest: string)
    requires IsName(tag)
    ensures LexTag((Spell(Close(tag)) + rest)[1..]) == Some(Lexeme([Close(tag)], rest))
  {
    assert (Spell(Close(tag)) + rest)[1..] == "/" + (tag + (">" + rest));
    assert ("/" + (tag + (">" + rest)))[1..] == tag + (">" + rest);
    SpanOf(NameChar, tag, ">" + rest);
    assert (">" + rest)[1..] == rest;
  }

  lemma LexTextSpelled(content: string, rest: string)
    requires content != "" && (rest != "" ==> rest[0] == '<')
    ensures var s := Escape(content) + rest;
            s != "" && s[0] != '<' && LexText(s) == Some(Lexeme([Text(content)], rest))
  {
    EscapeIsPerCharacter(content);
    EscapedHasNoMarkup(content, false);
    SpanOf(Not('<'), Escape(content), rest);
    TextRoundTrip(content);
  }

  /** A token as it is read: attribute values are normalized. */
  function Read(t: Token): Token {
    if t.Open? then Open(t.tag, SpacedAttrs(t.attrs)) else t
  }

  function ReadAll(tokens: seq<Token>): seq<Token> {
    if tokens == [] then [] else [Read(tokens[0])] + ReadAll(tokens[1..])
  }

  lemma LexStep(t: Token, rest: string, more: seq<Token>)
    requires TokenOk(t) && Lex(rest) == Some(more)
    requires t.Text? && rest != "" ==> rest[0] == '<'
    ensures Lex(Spell(t) + rest) == Some([Read(t)] + more)
  {
    match t
    case Open(tag, attrs) =>
      LexOpenSpelled(tag, attrs, rest);
      assert (Spell(t) + rest)[0] == '<';
    case Close(tag) =>
      LexCloseSpelled(tag, rest);
      assert (Spell(t) + rest)[0] == '<';
    case Text(content) =>
      LexTextSpelled(content, rest);
  }

  lemma TextEndsAtTag(tokens: seq<Token>)
    requires Printable(tokens) && tokens != [] && tokens[0].Text? && SpellAll(tokens[1..]) != ""
    ensures SpellAll(tokens[1..])[0] == '<'
  {
    var next := tokens[1];
    assert Spell(next) != "" && Spell(next)[0] == '<';
  }

  lemma {:induction false} LexSpelled(tokens: seq<Token>)
    requires Printable(tokens)
    ensures Lex(SpellAll(tokens)) == Some(ReadAll(tokens))
  {
    if tokens != [] {
      LexSpelled(tokens[1..]);
      if tokens[0].Text? && SpellAll(tokens[1..]) != "" {
        TextEndsAtTag(tokens);
      }
      LexStep(tokens[0], SpellAll(tokens[1..]), ReadAll(tokens[1..]));
    }
  }
}
