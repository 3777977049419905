/**
 Replies that spell carriage returns as character references. With them every legal value can arrive, so what an
 accepted action can carry is known exactly, and some accepted actions do not survive being rendered again.
 */
module PromptReferences {
  import opened Common
  import opened Strings
  import opened Actions
  import opened Xml
  import opened XmlPrint
  import opened XmlNormal
  import opened XmlDocuments
  import opened Prompt
  import opened PromptTheorems

  function ReferenceChar(c: char): string {
    if c == '\r' then "&#13;" else EscapeChar(c, false)
  }

  function Referenced(s: string): string {
    if s == "" then "" else ReferenceChar(s[0]) + Referenced(s[1..])
  }

  lemma ReturnReference(rest: string)
    ensures EntityAt("&#13;" + rest) == Some(('\r', 5))
  {
    var s := "&#13;" + rest;
    assert s[1] == '#' && s[2] == '1';
    assert s[2..] == "13" + (";" + rest);
    SpanOf(DecDigit, "13", ";" + rest);
    assert NumberOf("1", 10) == 1 by {
      assert "1"[..0] == "";
    }
    assert "13"[..1] == "1";
  }

  lemma {:induction false} ReferencedDecodes(s: string)
    ensures Decode(Referenced(s), TextChar) == Some(s)
  {
    if s != "" {
      var rest := Referenced(s[1..]);
      ReferencedDecodes(s[1..]);
      assert s == [s[0]] + s[1..];
      if s[0] == '\r' {
        ReturnReference(rest);
        assert ("&#13;" + rest)[5..] == rest && ("&#13;" + rest)[0] == '&';
      } else if Markup(s[0], false) {
        DecodeEntity(s[0], false, rest, TextChar);
      } else {
        assert ([s[0]] + rest)[1..] == rest;
      }
    }
  }

  predicate BodyChar(c: char) {
    CleanChar(c) && c != '<' && c != '>'
  }

  lemma {:induction false} ReferencedIsBody(s: string)
    requires Every(Legal, s)
    ensures Every(BodyChar, Referenced(s)) && (s != "" ==> Referenced(s) != "")
  {
    if s != "" {
      ReferencedIsBody(s[1..]);
      assert Every(BodyChar, "&#13;") && Every(BodyChar, "&amp;") && Every(BodyChar, "&lt;") && Every(BodyChar, "&gt;");
      assert Every(BodyChar, ReferenceChar(s[0]));
      EveryConcat(BodyChar, ReferenceChar(s[0]), Referenced(s[1..]));
    }
  }

  lemma ReferencedIsText(s: string)
    requires Every(Legal, s)
    ensures DecodeText(Referenced(s)) == Some(s)
  {
    var raw := Referenced(s);
    ReferencedDecodes(s);
    ReferencedIsBody(s);
    forall i | 0 <= i < |raw|
      ensures !("]]>" <= raw[i..])
    {
      if i + 2 < |raw| {
        assert raw[i..][2] == raw[i + 2] != '>';
      }
    }
  }

  // ---------------------------------------------------------------------------------------------
  // The reply

  function FieldReply(name: string, value: string): string {
    Spell(Open("field", [Attr("name", name)])) + (Referenced(value) + Spell(Close("field")))
  }

  function FieldsReply(fields: map<string, string>, names: seq<string>): string
    requires forall k <- names :: k in fields
  {
    if names == [] then "" else FieldReply(names[0], fields[names[0]]) + FieldsReply(fields, names[1..])
  }

  function ActionReply(kind: ActionKind, fields: map<string, string>, names: seq<string>): string
    requires forall k <- names :: k in fields
  {
    Spell(Open("action", [Attr("kind", KindName(kind))])) + (FieldsReply(fields, names) + Spell(Close("action")))
  }

  lemma LexReferenced(value: string, rest: string, more: seq<Token>)
    requires Every(Legal, value) && value != "" && rest != "" && rest[0] == '<' && Lex(rest) == Some(more)
    ensures Lex(Referenced(value) + rest) == Some([Text(value)] + more)
  {
    var raw := Referenced(value);
    ReferencedIsBody(value);
    ReferencedIsText(value);
    SpanOf(Not('<'), raw, rest);
    assert (raw + rest)[0] == raw[0];
  }

  lemma ReadIsPlain(tag: string, name: string, value: string)
    requires Every(AttrChar, value)
    ensures Read(Open(tag, [Attr(name, value)])) == Open(tag, [Attr(name, value)])
  {
    SpellOneAttr(tag, Attr(name, value));
    assert Spaced(value) == value;
  }

  lemma LexBody(leaf: Leaf, rest: string, more: seq<Token>)
    requires Every(Legal, leaf.text) && Lex(rest) == Some(more) && rest != "" && rest[0] == '<'
    ensures Lex(Referenced(leaf.text) + rest) == Some(TextTokens(leaf) + more)
  {
    if leaf.text == "" {
      assert Referenced(leaf.text) + rest == rest && TextTokens(leaf) + more == more;
    } else {
      LexReferenced(leaf.text, rest, more);
    }
  }

  lemma FieldReplyLexes(name: string, value: string, rest: string, more: seq<Token>)
    requires Every(AttrChar, name) && Every(Legal, value) && Lex(rest) == Some(more)
    ensures Lex(FieldReply(name, value) + rest) == Some(LeafTokens(FieldLeaf(name, value)) + more)
  {
    NamesOk();
    SpellOneAttr("field", Attr("name", name));
    ReadIsPlain("field", "name", name);
    LeafLexes(FieldLeaf(name, value), rest, more);
  }

  lemma LeafLexes(leaf: Leaf, rest: string, more: seq<Token>)
    requires LeafOk(leaf) && Read(Open(leaf.tag, leaf.attrs)) == Open(leaf.tag, leaf.attrs)
    requires Every(Legal, leaf.text) && Lex(rest) == Some(more)
    ensures Lex(Spell(Open(leaf.tag, leaf.attrs)) + (Referenced(leaf.text) + Spell(Close(leaf.tag))) + rest)
         == Some(LeafTokens(leaf) + more)
  {
    var start, end := Open(leaf.tag, leaf.attrs), Close(leaf.tag);
    var body, tail := Referenced(leaf.text), Spell(end) + rest;
    LexClosing(leaf.tag, rest, more);
    LexBody(leaf, tail, [end] + more);
    LexOpening(start, body + tail, TextTokens(leaf) + ([end] + more));
    Gather(Spell(start), body, Spell(end), rest);
    LeafTokensGather(leaf, more);
  }

  lemma LexClosing(tag: string, rest: string, more: seq<Token>)
    requires IsName(tag) && Lex(rest) == Some(more)
    ensures Lex(Spell(Close(tag)) + rest) == Some([Close(tag)] + more)
    ensures Spell(Close(tag)) + rest != "" && (Spell(Close(tag)) + rest)[0] == '<'
  {
    LexStep(Close(tag), rest, more);
  }

  lemma LeafTokensGather(leaf: Leaf, more: seq<Token>)
    ensures [Open(leaf.tag, leaf.attrs)] + (TextTokens(leaf) + ([Close(leaf.tag)] + more)) == LeafTokens(leaf) + more
  {
  }

  lemma LexOpening(start: Token, inside: string, tokens: seq<Token>)
    requires start.Open? && TokenOk(start) && Read(start) == start && Lex(inside) == Some(tokens)
    ensures Lex(Spell(start) + inside) == Some([start] + tokens)
  {
    LexStep(start, inside, tokens);
  }

  lemma Gather(a: string, b: string, c: string, d: string)
    ensures a + (b + c) + d == a + (b + (c + d))
  {
  }

  lemma {:induction false} FieldsReplyLexes(fields: map<string, string>, names: seq<string>, rest: string,
                                            more: seq<Token>)
    requires forall k <- names :: k in fields && Every(AttrChar, k) && Every(Legal, fields[k])
    requires Lex(rest) == Some(more)
    ensures Lex(FieldsReply(fields, names) + rest) == Some(LeavesTokens(FieldLeaves(fields, names)) + more)
  {
    if names == [] {
      assert FieldsReply(fields, names) + rest == rest && LeavesTokens([]) + more == more;
    } else {
      var first, others := FieldReply(names[0], fields[names[0]]), FieldsReply(fields, names[1..]);
      FieldsReplyLexes(fields, names[1..], rest, more);
      FieldReplyLexes(names[0], fields[names[0]], others + rest, LeavesTokens(FieldLeaves(fields, names[1..])) + more);
      assert first + others + rest == first + (others + rest);
      LeavesSplit(FieldLeaves(fields, names), more);
      assert FieldLeaves(fields, names)[1..] == FieldLeaves(fields, names[1..]);
    }
  }

  lemma ActionReplyLexes(kind: ActionKind, fields: map<string, string>, names: seq<string>)
    requires forall k <- names :: k in fields && Every(AttrChar, k) && Every(Legal, fields[k])
    ensures Lex(ActionReply(kind, fields, names)) == Some(FlatTokens(ActionLeaf(kind), FieldLeaves(fields, names)))
  {
    var root := ActionLeaf(kind);
    NamesOk();
    KindNameIsPlain(kind);
    SpellOneAttr("action", Attr("kind", KindName(kind)));
    ReadIsPlain("action", "kind", KindName(kind));
    EndLexes(root.tag);
    FieldsReplyLexes(fields, names, Spell(Close(root.tag)), [Close(root.tag)]);
    LexFramed(root, FieldsReply(fields, names), FieldLeaves(fields, names));
  }

  lemma EndLexes(tag: string)
    requires IsName(tag)
    ensures Lex(Spell(Close(tag))) == Some([Close(tag)])
  {
    LexStep(Close(tag), "", []);
    assert Spell(Close(tag)) + "" == Spell(Close(tag)) && [Close(tag)] + [] == [Close(tag)];
  }

  lemma LexFramed(root: Leaf, body: string, leaves: seq<Leaf>)
    requires LeafOk(root) && Read(Open(root.tag, root.attrs)) == Open(root.tag, root.attrs)
    requires Lex(body + Spell(Close(root.tag))) == Some(LeavesTokens(leaves) + [Close(root.tag)])
    ensures Lex(Spell(Open(root.tag, root.attrs)) + (body + Spell(Close(root.tag)))) == Some(FlatTokens(root, leaves))
  {
    var start, end := Open(root.tag, root.attrs), Close(root.tag);
    LexStep(start, body + Spell(end), LeavesTokens(leaves) + [end]);
    assert [start] + (LeavesTokens(leaves) + [end]) == FlatTokens(root, leaves);
  }

  // ---------------------------------------------------------------------------------------------
  // It is made of characters that reading leaves alone

  lemma TagIsClean(tag: string, name: string, value: string)
    requires IsName(tag) && IsName(name) && Every(NameChar, value)
    ensures Every(CleanChar, Spell(Open(tag, [Attr(name, value)]))) && Every(CleanChar, Spell(Close(tag)))
  {
    SpellOneAttr(tag, Attr(name, value));
    NameIsPlain(value);
    assert Every(CleanChar, SpellAttr(Attr(name, value)));
  }

  lemma FieldReplyIsClean(name: string, value: string)
    requires Every(NameChar, name) && Every(Legal, value)
    ensures Every(CleanChar, FieldReply(name, value))
  {
    NamesOk();
    TagIsClean("field", "name", name);
    ReferencedIsBody(value);
    EveryConcat(CleanChar, Referenced(value), Spell(Close("field")));
    EveryConcat(CleanChar, Spell(Open("field", [Attr("name", name)])), Referenced(value) + Spell(Close("field")));
  }

  lemma {:induction false} FieldsReplyIsClean(fields: map<string, string>, names: seq<string>)
    requires forall k <- names :: k in fields && Every(NameChar, k) && Every(Legal, fields[k])
    ensures Every(CleanChar, FieldsReply(fields, names))
  {
    if names != [] {
      FieldReplyIsClean(names[0], fields[names[0]]);
      FieldsReplyIsClean(fields, names[1..]);
      EveryConcat(CleanChar, FieldReply(names[0], fields[names[0]]), FieldsReply(fields, names[1..]));
    }
  }

  lemma ActionReplyIsClean(kind: ActionKind, fields: map<string, string>, names: seq<string>)
    requires forall k <- names :: k in fields && Every(NameChar, k) && Every(Legal, fields[k])
    ensures Every(CleanChar, ActionReply(kind, fields, names))
  {
    var body, end := FieldsReply(fields, names), Spell(Close("action"));
    NamesOk();
    KindNameIsName(kind);
    TagIsClean("action", "kind", KindName(kind));
    FieldsReplyIsClean(fields, names);
    EveryConcat(CleanChar, body, end);
    EveryConcat(CleanChar, Spell(Open("action", [Attr("kind", KindName(kind))])), body + end);
  }

  lemma ReplyIsStripped(kind: ActionKind, fields: map<string, string>, names: seq<string>)
    requires forall k <- names :: k in fields
    ensures Strip(ActionReply(kind, fields, names)) == ActionReply(kind, fields, names)
  {
    var r := ActionReply(kind, fields, names);
    assert r[0] == '<' && r[|r| - 1] == '>';
    StripIsIdentityIff(r);
  }

  // ---------------------------------------------------------------------------------------------

  /** A reply written with references is accepted and delivers every legal value as it is, its fields in any order. */
  lemma ReferencedReplyIsRead(kind: ActionKind, fields: map<string, string>, names: seq<string>)
    requires fields.Keys <= AllowedFields(kind) && FieldsLegal(fields) && forall k :: k in names <==> k in fields
    ensures ActionOf(ActionReply(kind, fields, names)) == Success(AgentAction(kind, fields))
  {
    var reply := ActionReply(kind, fields, names);
    forall k | k in names
      ensures Every(NameChar, k) && Every(AttrChar, k)
    {
      AllowedNamesAreNames(kind, k);
      NameIsPlain(k);
    }
    ReplyIsStripped(kind, fields, names);
    ActionReplyIsClean(kind, fields, names);
    ActionReplyLexes(kind, fields, names);
    CleanDocumentIsRead(reply, ActionLeaf(kind), FieldLeaves(fields, names));
    ActionOfElement(kind, fields, names, reply);
  }

  lemma CleanDocumentIsRead(doc: string, root: Leaf, leaves: seq<Leaf>)
    requires Every(CleanChar, doc) && Lex(doc) == Some(FlatTokens(root, leaves))
    ensures ParseXml(doc) == Some(FlatElement(root, leaves))
  {
    LinesOfPlain(doc);
    FeedFlat(root, leaves);
  }

  /** Exactly which actions some reply is accepted as: those with fields of their kind and legal values. */
  lemma AcceptableIff(a: AgentAction)
    ensures (exists content :: ActionOf(content) == Success(a))
       <==> a.fields.Keys <= AllowedFields(a.kind) && FieldsLegal(a.fields)
  {
    if content :| ActionOf(content) == Success(a) {
      AcceptedIsSendable(content);
    }
    if a.fields.Keys <= AllowedFields(a.kind) && FieldsLegal(a.fields) {
      ReferencedReplyIsRead(a.kind, a.fields, SortedKeys(a.fields.Keys));
    }
  }

  // ---------------------------------------------------------------------------------------------
  // One such reply

  const RETURN_REPLY := "<action kind=\"edit\">"
                        + "<field name=\"file_path\">f</field>"
                        + "<field name=\"content\">a&#13;b</field>"
                        + "</action>"

  const RETURN_FIELDS: map<string, string> := map["file_path" := "f", "content" := "a\rb"]

  function FieldText(name: string, raw: string): string {
    "<field name=\"" + name + "\">" + raw + "</field>"
  }

  lemma FieldReplySpelled(name: string, value: string, raw: string)
    requires Every(NameChar, name) && Referenced(value) == raw
    ensures FieldReply(name, value) == FieldText(name, raw)
  {
    SpellOneAttr("field", Attr("name", name));
    NameIsPlain(name);
    FieldFrame(name, raw);
  }

  lemma ReferencedOne(c: char)
    ensures Referenced([c]) == ReferenceChar(c)
  {
    assert [c][1..] == "";
  }

  lemma ReferencedThree(a: char, b: char, c: char)
    ensures Referenced([a, b, c]) == ReferenceChar(a) + ReferenceChar(b) + ReferenceChar(c)
  {
    ReferencedOne(c);
    assert [a, b, c][1..] == [b, c] && [b, c][1..] == [c];
  }

  lemma TwoFieldsReply(fields: map<string, string>, a: string, b: string)
    requires a in fields && b in fields
    ensures FieldsReply(fields, [a, b]) == FieldReply(a, fields[a]) + FieldReply(b, fields[b])
  {
    assert [a, b][1..] == [b] && [b][1..] == [];
    assert FieldsReply(fields, [b]) == FieldReply(b, fields[b]) + "" == FieldReply(b, fields[b]);
  }

  function ReplyText(kind: string, fields: string): string {
    "<action kind=\"" + kind + "\">" + fields + "</action>"
  }

  lemma ReplyFrame(kind: string, fields: string)
    requires Every(NameChar, kind)
    ensures Spell(Open("action", [Attr("kind", kind)])) + (fields + Spell(Close("action"))) == ReplyText(kind, fields)
  {
    SpellOneAttr("action", Attr("kind", kind));
    NameIsPlain(kind);
    ActionFrame(kind, fields);
  }

  lemma TwoFieldsReplySpelled(kind: ActionKind, fields: map<string, string>, a: string, b: string,
                              rawA: string, rawB: string)
    requires a in fields && b in fields && Every(NameChar, a) && Every(NameChar, b)
    requires Referenced(fields[a]) == rawA && Referenced(fields[b]) == rawB
    ensures ActionReply(kind, fields, [a, b]) == ReplyText(KindName(kind), FieldText(a, rawA) + FieldText(b, rawB))
  {
    FieldReplySpelled(a, fields[a], rawA);
    FieldReplySpelled(b, fields[b], rawB);
    TwoFieldsReply(fields, a, b);
    KindNameIsName(kind);
    ReplyFrame(KindName(kind), FieldText(a, rawA) + FieldText(b, rawB));
  }

  lemma ReplyTextIs(kind: string, start: string, one: string, two: string)
    requires "<action kind=\"" + kind + "\">" == start
    ensures ReplyText(kind, one + two) == start + one + two + "</action>"
  {
  }

  lemma FieldTextsAre()
    ensures FieldText("file_path", "f") == "<field name=\"file_path\">f</field>"
    ensures FieldText("content", "a&#13;b") == "<field name=\"content\">a&#13;b</field>"
  {
  }

  lemma ReturnReplyText()
    ensures RETURN_REPLY == ReplyText("edit", FieldText("file_path", "f") + FieldText("content", "a&#13;b"))
  {
    var one, two := FieldText("file_path", "f"), FieldText("content", "a&#13;b");
    FieldTextsAre();
    ReplyTextIs("edit", "<action kind=\"edit\">", one, two);
  }

  lemma ReturnReplySpelled()
    ensures RETURN_REPLY == ActionReply(Edit, RETURN_FIELDS, ["file_path", "content"])
  {
    ReferencedOne('f');
    ReferencedThree('a', '\r', 'b');
    ReturnReplyText();
    TwoFieldsReplySpelled(Edit, RETURN_FIELDS, "file_path", "content", "f", "a&#13;b");
  }

  lemma ReturnNormalized()
    ensures LinesOf(RETURN_FIELDS) == map["file_path" := "f", "content" := "a\nb"]
  {
    var lines := LinesOf(RETURN_FIELDS);
    LinesOfPlain("f");
    ReturnLine();
    assert lines.Keys == {"file_path", "content"};
    assert lines["file_path"] == "f" && lines["content"] == "a\nb";
  }

  lemma ReturnLine()
    ensures EndOfLines("a\rb") == "a\nb"
  {
    LinesOfReturn("b");
    LinesOfOther('a', "\rb");
    LinesOfPlain("b");
    assert "a\rb" == ['a'] + "\rb" && "\rb" == "\r" + "b";
  }

  lemma ReturnFieldsAreAllowed()
    ensures RETURN_FIELDS.Keys <= AllowedFields(Edit) && FieldsLegal(RETURN_FIELDS)
    ensures forall k :: k in ["file_path", "content"] <==> k in RETURN_FIELDS
  {
  }

  lemma ReturnReplyIsRead(reply: string, fields: map<string, string>)
    requires reply == RETURN_REPLY && fields == RETURN_FIELDS
    ensures ActionOf(reply) == Success(AgentAction(Edit, fields))
  {
    ReturnReplySpelled();
    ReturnFieldsAreAllowed();
    ReferencedReplyIsRead(Edit, fields, ["file_path", "content"]);
  }

  /** This reply is accepted, and what it delivers changes when it is rendered and read again. */
  lemma ReturnDoesNotSurvive()
    ensures ActionOf(RETURN_REPLY) == Success(AgentAction(Edit, RETURN_FIELDS))
    ensures ActionOf(RenderAction(AgentAction(Edit, RETURN_FIELDS)))
         == Success(AgentAction(Edit, map["file_path" := "f", "content" := "a\nb"]))
  {
    ReturnReplyIsRead(RETURN_REPLY, RETURN_FIELDS);
    ReturnFieldsAreAllowed();
    RenderedActionIsRead(AgentAction(Edit, RETURN_FIELDS));
    ReturnNormalized();
  }
}
