/**
 What a document can deliver, whatever it looks like: legal characters only; and without character references
 none that reading would change again, no carriage return and no line structure inside an attribute.
 */
module XmlLegal {
  import opened Common
  import opened Strings
  import opened Xml

  // ---------------------------------------------------------------------------------------------
  // Documents with references and documents without

  predicate NoRefs(s: string) {
    forall i :: 0 <= i < |s| ==> !("&#" <= s[i..])
  }

  /** What can stand in a text and in an attribute value. */
  function TextTest(refs: bool): CharTest {
    if refs then Legal else CleanChar
  }

  function ValueTest(refs: bool): CharTest {
    if refs then Legal else AttrChar
  }

  /** A piece of a document after end-of-line handling. */
  predicate Source(s: string, refs: bool) {
    Every(CleanChar, s) && (refs || NoRefs(s))
  }

  predicate AttrsHold(attrs: seq<Attr>, refs: bool) {
    attrs != [] ==> Every(ValueTest(refs), attrs[0].value) && AttrsHold(attrs[1..], refs)
  }

  predicate TokenHolds(t: Token, refs: bool) {
    match t
    case Open(_, attrs) => AttrsHold(attrs, refs)
    case Close(_) => true
    case Text(content) => Every(TextTest(refs), content)
  }

  predicate TokensHold(tokens: seq<Token>, refs: bool) {
    forall i :: 0 <= i < |tokens| ==> TokenHolds(tokens[i], refs)
  }

  predicate TreeHolds(e: Element, refs: bool) {
    && Every(TextTest(refs), e.text)
    && (forall k <- e.attrib :: Every(ValueTest(refs), e.attrib[k]))
    && (forall i :: 0 <= i < |e.children| ==> TreeHolds(e.children[i], refs))
  }

  // ---------------------------------------------------------------------------------------------

  lemma {:induction false} LineEndingsAreClean(doc: string)
    requires Every(Legal, doc)
    ensures Every(CleanChar, EndOfLines(doc))
    decreases |doc|
  {
    if doc != "" {
      var rest := if doc[0] == '\r' && |doc| > 1 && doc[1] == '\n' then doc[2..] else doc[1..];
      LineEndingsAreClean(rest);
    }
  }

  lemma TailHasNoRefs(s: string, n: nat)
    requires NoRefs(s) && n <= |s|
    ensures NoRefs(s[n..])
  {
    forall i | 0 <= i < |s[n..]|
      ensures !("&#" <= s[n..][i..])
    {
      assert s[n..][i..] == s[n + i..];
    }
  }

  lemma RefStart(s: string)
    ensures "&#" <= s <==> |s| >= 2 && s[0] == '&' && s[1] == '#'
  {
  }

  lemma LinesKeepFirst(s: string, c: char)
    requires c != '\n'
    ensures EndOfLines(s) != "" && EndOfLines(s)[0] == c ==> s != "" && s[0] == c
  {
  }

  lemma {:induction false} LinesMakeNoRefs(doc: string)
    requires NoRefs(doc)
    ensures NoRefs(EndOfLines(doc))
    decreases |doc|
  {
    if doc != "" {
      var n := if doc[0] == '\r' && |doc| > 1 && doc[1] == '\n' then 2 else 1;
      var lines, more := EndOfLines(doc), EndOfLines(doc[n..]);
      TailHasNoRefs(doc, n);
      LinesMakeNoRefs(doc[n..]);
      LinesKeepFirst(doc[n..], '#');
      assert lines[1..] == more;
      forall i | 0 <= i < |lines|
        ensures !("&#" <= lines[i..])
      {
        if i > 0 {
          assert lines[i..] == more[i - 1..];
        } else {
          RefStart(lines);
          RefStart(doc);
          assert doc[0..] == doc && lines[0..] == lines && !("&#" <= doc[0..]);
        }
      }
    }
  }

  lemma PieceOfSource(a: string, b: string, refs: bool)
    requires Source(a + b, refs)
    ensures Source(a, refs) && Source(b, refs)
  {
    var s := a + b;
    assert forall i :: 0 <= i < |b| ==> b[i] == s[i + |a|];
    assert forall i :: 0 <= i < |a| ==> a[i] == s[i];
    if !refs {
      TailHasNoRefs(s, |a|);
      assert s[|a|..] == b;
      forall i | 0 <= i < |a|
        ensures !("&#" <= a[i..])
      {
        assert s[i..] == a[i..] + b;
      }
    }
  }

  lemma TailOfSource(s: string, n: nat, refs: bool)
    requires Source(s, refs) && n <= |s|
    ensures Source(s[n..], refs)
  {
    assert s == s[..n] + s[n..];
    PieceOfSource(s[..n], s[n..], refs);
  }

  lemma SpanOfSource(p: CharTest, s: string, refs: bool)
    requires Source(s, refs)
    ensures Source(Span(p, s).0, refs) && Source(Span(p, s).1, refs)
  {
    SpanSplits(p, s);
    PieceOfSource(Span(p, s).0, Span(p, s).1, refs);
  }

  lemma ReferenceYields(s: string, refs: bool)
    requires Source(s, refs) && EntityAt(s).Some?
    ensures TextTest(refs)(EntityAt(s).value.0) && ValueTest(refs)(EntityAt(s).value.0)
  {
    assert s[0..] == s;
  }

  /** Decoding a piece gives what references and plain characters may give. */
  lemma {:induction false} DecodeYields(s: string, plain: char -> Option<char>, ok: CharTest, refs: bool)
    requires Source(s, refs) && Decode(s, plain).Some?
    requires ok == TextTest(refs) || ok == ValueTest(refs)
    requires forall i :: 0 <= i < |s| && plain(s[i]).Some? ==> ok(plain(s[i]).value)
    ensures Every(ok, Decode(s, plain).value)
    decreases |s|
  {
    if s != "" {
      var n := 1;
      if s[0] == '&' {
        ReferenceYields(s, refs);
        n := EntityAt(s).value.1;
      }
      assert forall i :: 0 <= i < |s[n..]| ==> s[n..][i] == s[i + n];
      TailOfSource(s, n, refs);
      DecodeYields(s[n..], plain, ok, refs);
    }
  }

  lemma QuotedYields(s: string, refs: bool)
    requires Source(s, refs) && LexQuoted(s).Some?
    ensures Every(ValueTest(refs), LexQuoted(s).value.0) && Source(LexQuoted(s).value.1, refs)
  {
    TailOfSource(s, 1, refs);
    SpanOfSource(Not(s[0]), s[1..], refs);
    var (raw, rest) := Span(Not(s[0]), s[1..]);
    DecodeYields(raw, AttrValueChar, ValueTest(refs), refs);
    TailOfSource(rest, 1, refs);
  }

  lemma AttrYields(s: string, refs: bool)
    requires Source(s, refs) && LexAttr(s).Some?
    ensures Every(ValueTest(refs), LexAttr(s).value.0.value) && Source(LexAttr(s).value.1, refs)
  {
    var afterName := Span(NameChar, s).1;
    var eq := DropSpace(afterName);
    SpanOfSource(NameChar, s, refs);
    SpanOfSource(XmlSpace, afterName, refs);
    TailOfSource(eq, 1, refs);
    SpanOfSource(XmlSpace, eq[1..], refs);
    QuotedYields(DropSpace(eq[1..]), refs);
  }

  lemma {:induction false} AttrListYields(s: string, refs: bool)
    requires Source(s, refs) && LexAttrs(s).Some?
    ensures AttrsHold(LexAttrs(s).value.attrs, refs) && Source(LexAttrs(s).value.rest, refs)
    decreases |s|
  {
    var t := DropSpace(s);
    SpanOfSource(XmlSpace, s, refs);
    if ">" <= t {
      TailOfSource(t, 1, refs);
    } else if "/>" <= t {
      TailOfSource(t, 2, refs);
    } else {
      AttrYields(t, refs);
      AttrListYields(LexAttr(t).value.1, refs);
    }
  }

  lemma TagYields(s: string, refs: bool)
    requires Source(s, refs) && LexTag(s).Some?
    ensures TokensHold(LexTag(s).value.tokens, refs) && Source(LexTag(s).value.rest, refs)
  {
    if "/" <= s {
      var afterName := Span(NameChar, s[1..]).1;
      TailOfSource(s, 1, refs);
      SpanOfSource(NameChar, s[1..], refs);
      SpanOfSource(XmlSpace, afterName, refs);
      TailOfSource(DropSpace(afterName), 1, refs);
    } else {
      SpanOfSource(NameChar, s, refs);
      AttrListYields(Span(NameChar, s).1, refs);
    }
  }

  lemma TextYields(s: string, refs: bool)
    requires Source(s, refs) && s != "" && s[0] != '<' && LexText(s).Some?
    ensures TokensHold(LexText(s).value.tokens, refs) && Source(LexText(s).value.rest, refs)
  {
    SpanOfSource(Not('<'), s, refs);
    DecodeYields(Span(Not('<'), s).0, TextChar, TextTest(refs), refs);
  }

  lemma {:induction false} LexYields(s: string, refs: bool)
    requires Source(s, refs) && Lex(s).Some?
    ensures TokensHold(Lex(s).value, refs)
    decreases |s|
  {
    if s != "" {
      if s[0] == '<' {
        TailOfSource(s, 1, refs);
        TagYields(s[1..], refs);
        LexYields(LexTag(s[1..]).value.rest, refs);
      } else {
        TextYields(s, refs);
        LexYields(LexText(s).value.rest, refs);
      }
    }
  }

  // ---------------------------------------------------------------------------------------------

  predicate BuilderHolds(b: Builder, refs: bool) {
    && (forall i :: 0 <= i < |b.stack| ==> TreeHolds(b.stack[i], refs))
    && (b.root.Some? ==> TreeHolds(b.root.value, refs))
  }

  lemma {:induction false} AttrMapHolds(attrs: seq<Attr>, refs: bool)
    requires AttrsHold(attrs, refs)
    ensures forall k <- AttrMap(attrs) :: Every(ValueTest(refs), AttrMap(attrs)[k])
  {
    if attrs != [] {
      AttrMapHolds(attrs[1..], refs);
    }
  }

  lemma FeedKeeps(b: Builder, t: Token, refs: bool)
    requires BuilderHolds(b, refs) && TokenHolds(t, refs) && Feed(b, t).Some?
    ensures BuilderHolds(Feed(b, t).value, refs)
  {
    match t
    case Open(_, attrs) => AttrMapHolds(attrs, refs);
    case Text(_) =>
    case Close(_) =>
  }

  lemma {:induction false} FeedAllKeeps(b: Builder, tokens: seq<Token>, refs: bool)
    requires BuilderHolds(b, refs) && TokensHold(tokens, refs) && FeedAll(b, tokens).Some?
    ensures BuilderHolds(FeedAll(b, tokens).value, refs)
    decreases |tokens|
  {
    if tokens != [] {
      assert TokenHolds(tokens[0], refs);
      FeedKeeps(b, tokens[0], refs);
      FeedAllKeeps(Feed(b, tokens[0]).value, tokens[1..], refs);
    }
  }

  /** Every document that is read delivers legal characters only. One without character references delivers no
      carriage return either, nor line structure inside an attribute. */
  lemma ParsedIsLegal(doc: string)
    requires ParseXml(doc).Some?
    ensures TreeHolds(ParseXml(doc).value, true)
    ensures NoRefs(doc) ==> TreeHolds(ParseXml(doc).value, false)
  {
    ParsedHolds(doc, true);
    if NoRefs(doc) {
      ParsedHolds(doc, false);
    }
  }

  lemma ParsedHolds(doc: string, refs: bool)
    requires ParseXml(doc).Some? && (refs || NoRefs(doc))
    ensures TreeHolds(ParseXml(doc).value, refs)
  {
    LineEndingsAreClean(doc);
    if !refs {
      LinesMakeNoRefs(doc);
    }
    LexYields(EndOfLines(doc), refs);
    FeedAllKeeps(NOTHING_READ, Lex(EndOfLines(doc)).value, refs);
  }
}
