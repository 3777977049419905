/** What the two channels and the action format guarantee, for every content. */
module PromptTheorems {
  import opened Common
  import opened Strings
  import opened Actions
  import opened Xml
  import opened XmlPrint
  import opened XmlNormal
  import opened XmlDocuments
  import opened XmlLegal
  import opened Prompt

  lemma {:induction false} SpellConcat(a: seq<Token>, b: seq<Token>)
    ensures SpellAll(a + b) == SpellAll(a) + SpellAll(b)
  {
    if a == [] {
      assert a + b == b;
    } else {
      assert (a + b)[1..] == a[1..] + b;
      SpellConcat(a[1..], b);
    }
  }

  lemma SpellOne(t: Token)
    ensures SpellAll([t]) == Spell(t)
  {
    assert [t][1..] == [];
  }

  lemma SpellLeaf(leaf: Leaf)
    ensures SpellAll(LeafTokens(leaf))
         == Spell(Open(leaf.tag, leaf.attrs)) + Escape(leaf.text) + Spell(Close(leaf.tag))
  {
    var start, end := [Open(leaf.tag, leaf.attrs)], [Close(leaf.tag)];
    SpellConcat(start + TextTokens(leaf), end);
    SpellConcat(start, TextTokens(leaf));
    SpellOne(start[0]);
    SpellOne(end[0]);
    SpellOne(Text(leaf.text));
    EscapeIsPerCharacter("");
  }

  lemma SpellFlat(root: Leaf, leaves: seq<Leaf>)
    ensures SpellAll(FlatTokens(root, leaves))
         == Spell(Open(root.tag, root.attrs)) + SpellAll(LeavesTokens(leaves)) + Spell(Close(root.tag))
  {
    var start, end := [Open(root.tag, root.attrs)], [Close(root.tag)];
    SpellConcat(start + LeavesTokens(leaves), end);
    SpellConcat(start, LeavesTokens(leaves));
    SpellOne(start[0]);
    SpellOne(end[0]);
  }

  lemma SpellOneAttr(tag: string, a: Attr)
    ensures Spell(Open(tag, [a])) == "<" + tag + " " + SpellAttr(a) + ">"
    ensures AttrMap([a]) == map[a.name := a.value]
    ensures LinesAttrs([a]) == [LinesAttr(a)] && SpacedAttrs([a]) == [SpacedAttr(a)]
    ensures IsAttrName(a.name) ==> AttrsOk([a])
    ensures AttrsLegal([a]) <==> Every(Legal, a.value)
  {
    assert [a][1..] == [];
    assert SpellAttrs([a]) == " " + SpellAttr(a);
    Regroup("<" + tag, " ", SpellAttr(a), ">");
  }

  // ---------------------------------------------------------------------------------------------
  // The instruction channel

  lemma InstructionFrame(text: string)
    ensures "<" + "instruction" + "" + ">" + text + ("</" + "instruction" + ">")
         == "<instruction>" + text + "</instruction>"
  {
    assert "<" + "instruction" + "" + ">" == "<instruction>";
    assert "</" + "instruction" + ">" == "</instruction>";
  }

  /** The instruction arrives as the text of one element, whatever it contains. */
  lemma InstructionIsRead(instruction: string)
    ensures ParseXml(InstructionXml(instruction))
         == if Every(Legal, instruction) then Some(Element("instruction", map[], EndOfLines(instruction), [])) else None
  {
    var leaf := Leaf("instruction", [], instruction);
    SpellLeaf(leaf);
    InstructionFrame(Escape(instruction));
    assert InstructionXml(instruction) == SpellAll(LeafTokens(leaf));
    NamesOk();
    LeafDocumentIsRead(leaf);
  }

  /** The element and attribute names of the grammar. */
  lemma NamesOk()
    ensures IsName("instruction") && IsName("data") && IsName("span") && IsAttrName("origin")
    ensures IsName("action") && IsAttrName("kind") && IsName("field") && IsAttrName("name")
  {
  }

  // ---------------------------------------------------------------------------------------------
  // The data channel

  function SpanLeaf(span: DataSpan): Leaf {
    Leaf("span", [Attr("origin", span.origin)], span.content)
  }

  function SpanLeaves(spans: seq<DataSpan>): seq<Leaf> {
    if spans == [] then [] else [SpanLeaf(spans[0])] + SpanLeaves(spans[1..])
  }

  /** One element per span, in order. */
  function DataElement(spans: seq<DataSpan>): Element {
    Element("data", map[], "",
            seq(|spans|, i requires 0 <= i < |spans| =>
              Element("span", map["origin" := spans[i].origin], spans[i].content, [])))
  }

  predicate SpansLegal(spans: seq<DataSpan>) {
    forall i :: 0 <= i < |spans| ==> Every(Legal, spans[i].origin) && Every(Legal, spans[i].content)
  }

  function DeliveredSpan(span: DataSpan): DataSpan {
    DataSpan(Spaced(EndOfLines(span.origin)), EndOfLines(span.content))
  }

  function DeliveredSpans(spans: seq<DataSpan>): seq<DataSpan> {
    seq(|spans|, i requires 0 <= i < |spans| => DeliveredSpan(spans[i]))
  }

  lemma SpanFrame(origin: string, content: string)
    ensures "<" + "span" + " " + ("origin" + "=\"" + origin + "\"") + ">" + content + ("</" + "span" + ">")
         == "<span origin=\"" + origin + "\">" + content + "</span>"
  {
    assert "<" + "span" + " " + ("origin" + "=\"") == "<span origin=\"";
    assert "\"" + ">" == "\">" && "</" + "span" + ">" == "</span>";
  }

  lemma SpanIsSpelled(span: DataSpan)
    ensures SpanXml(span) == SpellAll(LeafTokens(SpanLeaf(span))) && LeafOk(SpanLeaf(span))
  {
    SpellLeaf(SpanLeaf(span));
    SpellOneAttr("span", Attr("origin", span.origin));
    SpanFrame(EscapeAttr(span.origin), Escape(span.content));
    NamesOk();
  }

  lemma {:induction false} SpansAreSpelled(spans: seq<DataSpan>)
    ensures SpansXml(spans) == SpellAll(LeavesTokens(SpanLeaves(spans))) && LeavesOk(SpanLeaves(spans))
  {
    if spans != [] {
      SpansAreSpelled(spans[1..]);
      SpanIsSpelled(spans[0]);
      SpellConcat(LeafTokens(SpanLeaf(spans[0])), LeavesTokens(SpanLeaves(spans[1..])));
      assert SpanLeaves(spans)[1..] == SpanLeaves(spans[1..]);
    }
  }

  lemma {:induction false} SpanLeavesAt(spans: seq<DataSpan>)
    ensures |SpanLeaves(spans)| == |spans| && |DeliveredAll(SpanLeaves(spans))| == |spans|
    ensures forall i :: 0 <= i < |spans| ==>
                          && SpanLeaves(spans)[i] == SpanLeaf(spans[i])
                          && DeliveredAll(SpanLeaves(spans))[i] == SpanLeaf(DeliveredSpan(spans[i]))
  {
    if spans != [] {
      SpanLeavesAt(spans[1..]);
      SpellOneAttr("span", Attr("origin", spans[0].origin));
      SpellOneAttr("span", Attr("origin", EndOfLines(spans[0].origin)));
    }
  }

  lemma LexEmptyData()
    ensures Lex("<data/>") == Some(LeafTokens(Leaf("data", [], "")))
  {
    NamesOk();
    SpanOf(NameChar, "data", "/>");
    assert LexAttrs("/>") == Some(AttrList([], true, "")) by {
      assert DropSpace("/>") == "/>" && "/>"[2..] == "";
    }
    assert LexTag("data" + "/>") == Some(Lexeme([Open("data", []), Close("data")], ""));
    assert "<data/>"[1..] == "data" + "/>";
    assert [Open("data", []), Close("data")] + [] == LeafTokens(Leaf("data", [], ""));
  }

  lemma EmptyDataIsPlain()
    ensures Every(Legal, "<data/>") && EndOfLines("<data/>") == "<data/>"
  {
    LinesOfPlain("<data/>");
  }

  lemma EmptyDataIsRead()
    ensures ParseXml("<data/>") == Some(DataElement([]))
  {
    EmptyDataIsPlain();
    LexEmptyData();
    FeedRootLeaf(Leaf("data", [], ""));
    assert LeafElement(Leaf("data", [], "")) == DataElement([]);
  }

  lemma DataIsSpelled(spans: seq<DataSpan>)
    requires spans != []
    ensures DataXml(spans) == SpellAll(FlatTokens(Leaf("data", [], ""), SpanLeaves(spans)))
  {
    hide SpansXml, SpellAll, LeavesTokens, FlatTokens, SpanLeaves;
    SpansAreSpelled(spans);
    SpellFlat(Leaf("data", [], ""), SpanLeaves(spans));
    DataTags();
  }

  lemma DataTags()
    ensures Spell(Open("data", [])) == "<data>" && Spell(Close("data")) == "</data>"
  {
  }

  lemma DeliveredDataElement(spans: seq<DataSpan>)
    ensures FlatElement(Delivered(Leaf("data", [], "")), DeliveredAll(SpanLeaves(spans)))
         == DataElement(DeliveredSpans(spans))
  {
    SpanLeavesAt(spans);
    var delivered := DeliveredAll(SpanLeaves(spans));
    forall i | 0 <= i < |spans|
      ensures LeafElements(delivered)[i] == DataElement(DeliveredSpans(spans)).children[i]
    {
      SpellOneAttr("span", Attr("origin", DeliveredSpan(spans[i]).origin));
    }
    assert LeafElements(delivered) == DataElement(DeliveredSpans(spans)).children;
  }

  /** Whatever the spans contain, the data channel is refused or is one <data> element with exactly one child
      per span, in order, carrying that span's own origin and content in normal form: retrieved bytes cannot
      open or close an element or leave their channel. */
  lemma DataChannelIsRead(spans: seq<DataSpan>)
    ensures ParseXml(DataXml(spans)) == if SpansLegal(spans) then Some(DataElement(DeliveredSpans(spans))) else None
  {
    if spans == [] {
      EmptyDataIsRead();
      assert DeliveredSpans(spans) == [];
    } else {
      NamesOk();
      DataIsSpelled(spans);
      SpansAreSpelled(spans);
      FlatDocumentIsRead(Leaf("data", [], ""), SpanLeaves(spans));
      SpansLegalIff(spans);
      DeliveredDataElement(spans);
    }
  }

  lemma SpansLegalIff(spans: seq<DataSpan>)
    ensures LeavesLegal(SpanLeaves(spans)) <==> SpansLegal(spans)
  {
    SpanLeavesAt(spans);
    forall i | 0 <= i < |spans|
      ensures LeafLegal(SpanLeaves(spans)[i]) <==> Every(Legal, spans[i].origin) && Every(Legal, spans[i].content)
    {
      SpellOneAttr("span", Attr("origin", spans[i].origin));
    }
  }

  predicate SpansClean(spans: seq<DataSpan>) {
    forall i :: 0 <= i < |spans| ==> Every(AttrChar, spans[i].origin) && Every(CleanChar, spans[i].content)
  }

  /** Which texts arrive unchanged. */
  lemma {:induction false} LinesAreKeptIff(s: string)
    ensures EndOfLines(s) == s <==> Every(Not('\r'), s)
  {
    LinesHaveNoReturn(s);
    if Every(Not('\r'), s) {
      LinesOfPlain(s);
    }
  }

  lemma {:induction false} LinesHaveNoReturn(s: string)
    ensures Every(Not('\r'), EndOfLines(s))
    decreases |s|
  {
    if s != "" {
      LinesHaveNoReturn(s[1..]);
      if |s| > 1 {
        LinesHaveNoReturn(s[2..]);
      }
    }
  }

  lemma TextArrivesIff(s: string)
    ensures Every(Legal, s) && EndOfLines(s) == s <==> Every(CleanChar, s)
  {
    LinesAreKeptIff(s);
  }

  lemma OriginArrivesIff(s: string)
    ensures Every(Legal, s) && Spaced(EndOfLines(s)) == s <==> Every(AttrChar, s)
  {
    LinesAreKeptIff(s);
    if Spaced(EndOfLines(s)) == s {
      assert forall i :: 0 <= i < |s| ==> s[i] == Spaced(EndOfLines(s))[i];
    }
  }

  /** The span list decodes exactly if and only if every content is free of carriage returns and every origin
      of tabs and line ends too (XML 1.0, sections 2.11 and 3.3.3). */
  lemma DataChannelIsExactIff(spans: seq<DataSpan>)
    ensures ParseXml(DataXml(spans)) == Some(DataElement(spans)) <==> SpansClean(spans)
  {
    DataChannelIsRead(spans);
    var a, b := DataElement(DeliveredSpans(spans)), DataElement(spans);
    forall i | 0 <= i < |spans|
      ensures Every(Legal, spans[i].origin) && Every(Legal, spans[i].content) && a.children[i] == b.children[i]
         <==> Every(AttrChar, spans[i].origin) && Every(CleanChar, spans[i].content)
    {
      TextArrivesIff(spans[i].content);
      OriginArrivesIff(spans[i].origin);
      assert a.children[i].attrib["origin"] == Spaced(EndOfLines(spans[i].origin));
      assert b.children[i].attrib["origin"] == spans[i].origin;
    }
    if SpansClean(spans) {
      assert a.children == b.children;
    }
  }

  // ---------------------------------------------------------------------------------------------
  // Actions

  /** What the wire format can carry: only the kind's own fields, and no character that XML would change. */
  predicate Sendable(a: AgentAction) {
    a.fields.Keys <= AllowedFields(a.kind) && forall k <- a.fields :: Every(CleanChar, a.fields[k])
  }

  function FieldLeaf(name: string, value: string): Leaf {
    Leaf("field", [Attr("name", name)], value)
  }

  function FieldLeaves(fields: map<string, string>, names: seq<string>): seq<Leaf>
    requires forall k <- names :: k in fields
  {
    if names == [] then [] else [FieldLeaf(names[0], fields[names[0]])] + FieldLeaves(fields, names[1..])
  }

  function ActionLeaf(kind: ActionKind): Leaf {
    Leaf("action", [Attr("kind", KindName(kind))], "")
  }

  lemma FieldFrame(name: string, value: string)
    ensures "<" + "field" + " " + ("name" + "=\"" + name + "\"") + ">" + value + ("</" + "field" + ">")
         == "<field name=\"" + name + "\">" + value + "</field>"
  {
    assert "<" + "field" + " " + ("name" + "=\"") == "<field name=\"";
    assert "\"" + ">" == "\">" && "</" + "field" + ">" == "</field>";
  }

  lemma FieldIsSpelled(name: string, value: string)
    ensures FieldXml(name, value) == SpellAll(LeafTokens(FieldLeaf(name, value))) && LeafOk(FieldLeaf(name, value))
  {
    SpellLeaf(FieldLeaf(name, value));
    SpellOneAttr("field", Attr("name", name));
    FieldFrame(EscapeAttr(name), Escape(value));
    NamesOk();
  }

  lemma {:induction false} FieldsAreSpelled(fields: map<string, string>, names: seq<string>)
    requires forall k <- names :: k in fields
    ensures FieldsXml(fields, names) == SpellAll(LeavesTokens(FieldLeaves(fields, names)))
    ensures LeavesOk(FieldLeaves(fields, names))
  {
    if names != [] {
      FieldsAreSpelled(fields, names[1..]);
      FieldIsSpelled(names[0], fields[names[0]]);
      SpellConcat(LeafTokens(FieldLeaf(names[0], fields[names[0]])), LeavesTokens(FieldLeaves(fields, names[1..])));
      assert FieldLeaves(fields, names)[1..] == FieldLeaves(fields, names[1..]);
    }
  }

  lemma {:induction false} PlainIsNotEscaped(s: string, quotes: bool)
    requires forall i :: 0 <= i < |s| ==> !Markup(s[i], quotes)
    ensures EscapeEach(s, quotes) == s
  {
    if s != "" {
      PlainIsNotEscaped(s[1..], quotes);
      assert s == [s[0]] + s[1..];
    }
  }

  lemma KindNameIsName(kind: ActionKind)
    ensures Every(NameChar, KindName(kind))
  {
  }

  lemma KindNameIsPlain(kind: ActionKind)
    ensures EscapeAttr(KindName(kind)) == KindName(kind) && Every(AttrChar, KindName(kind))
  {
    KindNameIsName(kind);
    NameIsPlain(KindName(kind));
  }

  lemma NameIsPlain(s: string)
    requires Every(NameChar, s)
    ensures EscapeAttr(s) == s && Every(AttrChar, s)
  {
    EscapeIsPerCharacter(s);
    PlainIsNotEscaped(s, true);
  }

  lemma ActionFrame(kind: string, fields: string)
    ensures "<" + "action" + " " + ("kind" + "=\"" + kind + "\"") + ">" + fields + ("</" + "action" + ">")
         == "<action kind=\"" + kind + "\">" + fields + "</action>"
  {
    assert "<" + "action" + " " + ("kind" + "=\"") == "<action kind=\"";
    assert "\"" + ">" == "\">" && "</" + "action" + ">" == "</action>";
  }

  function Leaves(a: AgentAction): seq<Leaf> {
    FieldLeaves(a.fields, SortedKeys(a.fields.Keys))
  }

  lemma ActionIsSpelled(a: AgentAction)
    ensures RenderAction(a) == SpellAll(FlatTokens(ActionLeaf(a.kind), Leaves(a)))
    ensures LeafOk(ActionLeaf(a.kind)) && LeavesOk(Leaves(a))
  {
    FieldsAreSpelled(a.fields, SortedKeys(a.fields.Keys));
    SpellFlat(ActionLeaf(a.kind), Leaves(a));
    SpellOneAttr("action", Attr("kind", KindName(a.kind)));
    KindNameIsPlain(a.kind);
    ActionFrame(KindName(a.kind), SpellAll(LeavesTokens(Leaves(a))));
    NamesOk();
  }

  lemma RenderedIsStripped(a: AgentAction)
    ensures Strip(RenderAction(a)) == RenderAction(a)
  {
    var r := RenderAction(a);
    assert r[0] == '<' && r[|r| - 1] == '>';
    StripIsIdentityIff(r);
  }

  // Reading it back

  /** The fields with their line endings normalized. */
  function LinesOf(fields: map<string, string>): map<string, string> {
    map k | k in fields :: EndOfLines(fields[k])
  }

  lemma FieldLeafArrives(name: string, value: string)
    requires Every(AttrChar, name)
    ensures Delivered(FieldLeaf(name, value)) == FieldLeaf(name, EndOfLines(value))
    ensures LeafLegal(FieldLeaf(name, value)) <==> Every(Legal, value)
  {
    OriginArrivesIff(name);
    SpellOneAttr("field", Attr("name", name));
    SpellOneAttr("field", LinesAttr(Attr("name", name)));
  }

  lemma {:induction false} FieldsArrive(fields: map<string, string>, names: seq<string>)
    requires forall k <- names :: k in fields && Every(AttrChar, k)
    ensures DeliveredAll(FieldLeaves(fields, names)) == FieldLeaves(LinesOf(fields), names)
    ensures (forall leaf <- FieldLeaves(fields, names) :: LeafLegal(leaf))
       <==> forall k <- names :: Every(Legal, fields[k])
  {
    if names != [] {
      var first, rest := FieldLeaf(names[0], fields[names[0]]), FieldLeaves(fields, names[1..]);
      FieldsArrive(fields, names[1..]);
      FieldLeafArrives(names[0], fields[names[0]]);
      assert FieldLeaves(fields, names)[1..] == rest;
      assert forall leaf :: leaf in FieldLeaves(fields, names) <==> leaf == first || leaf in rest;
      assert forall k :: k in names <==> k == names[0] || k in names[1..];
    }
  }

  function FieldElement(name: string, value: string): Element {
    Element("field", map["name" := name], value, [])
  }

  lemma {:induction false} FieldLeavesAt(fields: map<string, string>, names: seq<string>)
    requires forall k <- names :: k in fields
    ensures |FieldLeaves(fields, names)| == |names|
    ensures forall i :: 0 <= i < |names| ==>
                          LeafElement(FieldLeaves(fields, names)[i]) == FieldElement(names[i], fields[names[i]])
  {
    if names != [] {
      FieldLeavesAt(fields, names[1..]);
      SpellOneAttr("field", Attr("name", names[0]));
    }
  }

  lemma {:induction false} FieldsAreCollected(fields: map<string, string>, names: seq<string>, children: seq<Element>)
    requires forall k <- names :: k in fields
    requires |children| == |names|
    requires forall i :: 0 <= i < |names| ==> children[i] == FieldElement(names[i], fields[names[i]])
    ensures FieldsOf(children).Success?
    ensures forall k :: k in FieldsOf(children).value <==> k in names
    ensures forall k <- FieldsOf(children).value :: FieldsOf(children).value[k] == fields[k]
  {
    if names != [] {
      var n := |names| - 1;
      FieldsAreCollected(fields, names[..n], children[..n]);
      assert names == names[..n] + [names[n]];
    }
  }

  lemma AllowedNamesAreNames(kind: ActionKind, k: string)
    requires k in AllowedFields(kind)
    ensures Every(NameChar, k)
  {
    match kind
    case Plan => assert k == "summary" || k == "target_symbol";
    case Retrieve =>
      assert k == "primitive" || k == "name" || k == "file_path" || k == "start_line" || k == "end_line";
    case Edit => assert k == "file_path" || k == "content" || k == "op";
    case Verify =>
    case GiveUp => assert k == "reason";
    case Rename => assert k == "old_name" || k == "new_name";
  }

  lemma KindNamesAreDistinct(kind: ActionKind)
    ensures KindOf(KindName(kind)) == Some(kind)
  {
  }

  lemma KindArrives(kind: ActionKind)
    ensures Delivered(ActionLeaf(kind)) == ActionLeaf(kind) && AttrsLegal(ActionLeaf(kind).attrs)
  {
    var a := Attr("kind", KindName(kind));
    KindNameIsPlain(kind);
    OriginArrivesIff(a.value);
    SpellOneAttr("action", a);
    SpellOneAttr("action", LinesAttr(a));
  }

  lemma AllowedFieldsArrive(a: AgentAction)
    requires a.fields.Keys <= AllowedFields(a.kind)
    ensures DeliveredAll(Leaves(a)) == FieldLeaves(LinesOf(a.fields), SortedKeys(a.fields.Keys))
    ensures LeavesLegal(Leaves(a)) <==> FieldsLegal(a.fields)
  {
    forall k | k in a.fields
      ensures Every(AttrChar, k)
    {
      AllowedNamesAreNames(a.kind, k);
      NameIsPlain(k);
    }
    FieldsArrive(a.fields, SortedKeys(a.fields.Keys));
  }

  predicate FieldsLegal(fields: map<string, string>) {
    forall k <- fields :: Every(Legal, fields[k])
  }

  lemma RenderedIsParsed(a: AgentAction)
    requires a.fields.Keys <= AllowedFields(a.kind)
    ensures ParseXml(RenderAction(a))
         == if FieldsLegal(a.fields) then Some(FlatElement(ActionLeaf(a.kind), Leaves(Normalized(a)))) else None
  {
    ActionIsSpelled(a);
    KindArrives(a.kind);
    AllowedFieldsArrive(a);
    FlatDocumentIsRead(ActionLeaf(a.kind), Leaves(a));
    assert Normalized(a).fields.Keys == a.fields.Keys;
  }

  function Normalized(a: AgentAction): AgentAction {
    AgentAction(a.kind, LinesOf(a.fields))
  }

  /** The fields are read back from their elements in whatever order these come. */
  lemma ActionOfElement(kind: ActionKind, fields: map<string, string>, names: seq<string>, content: string)
    requires fields.Keys <= AllowedFields(kind) && forall k :: k in names <==> k in fields
    requires ParseXml(Strip(content)) == Some(FlatElement(ActionLeaf(kind), FieldLeaves(fields, names)))
    ensures ActionOf(content) == Success(AgentAction(kind, fields))
  {
    FieldsComeBack(fields, names);
    RootOfAction(kind, FieldLeaves(fields, names));
    ActionOfParsed(kind, fields, FlatElement(ActionLeaf(kind), FieldLeaves(fields, names)), content);
  }

  lemma FieldsComeBack(fields: map<string, string>, names: seq<string>)
    requires forall k :: k in names <==> k in fields
    ensures FieldsOf(LeafElements(FieldLeaves(fields, names))) == Success(fields)
  {
    var children := LeafElements(FieldLeaves(fields, names));
    FieldLeavesAt(fields, names);
    FieldsAreCollected(fields, names, children);
    assert FieldsOf(children).value == fields;
  }

  lemma RootOfAction(kind: ActionKind, leaves: seq<Leaf>)
    ensures var root := FlatElement(ActionLeaf(kind), leaves);
            && root.tag == "action" && root.attrib == map["kind" := KindName(kind)]
            && root.children == LeafElements(leaves)
  {
    SpellOneAttr("action", Attr("kind", KindName(kind)));
  }

  lemma ActionOfParsed(kind: ActionKind, fields: map<string, string>, root: Element, content: string)
    requires ParseXml(Strip(content)) == Some(root) && root.tag == "action"
    requires "kind" in root.attrib && root.attrib["kind"] == KindName(kind)
    requires FieldsOf(root.children) == Success(fields) && fields.Keys <= AllowedFields(kind)
    ensures ActionOf(content) == Success(AgentAction(kind, fields))
  {
    KindNamesAreDistinct(kind);
  }

  /** The whole answer to a rendered action with the fields of its kind: a value with an illegal character makes it
      no XML at all; otherwise every value arrives with its line endings normalized. */
  lemma RenderedActionIsRead(a: AgentAction)
    requires a.fields.Keys <= AllowedFields(a.kind)
    ensures ActionOf(RenderAction(a)) == if FieldsLegal(a.fields) then Success(Normalized(a)) else Failure(NotXml)
  {
    RenderedIsStripped(a);
    RenderedIsParsed(a);
    if FieldsLegal(a.fields) {
      var fields := LinesOf(a.fields);
      assert fields.Keys == a.fields.Keys;
      ActionOfElement(a.kind, fields, SortedKeys(fields.Keys), RenderAction(a));
    } else {
      NotXmlIsRefused(RenderAction(a));
    }
  }

  lemma NotXmlIsRefused(content: string)
    requires ParseXml(Strip(content)).None?
    ensures ActionOf(content) == Failure(NotXml)
  {
  }

  lemma NormalizedIsSameIff(a: AgentAction)
    requires FieldsLegal(a.fields)
    ensures Normalized(a) == a <==> forall k <- a.fields :: Every(CleanChar, a.fields[k])
  {
    forall k | k in a.fields
      ensures LinesOf(a.fields)[k] == a.fields[k] <==> Every(CleanChar, a.fields[k])
    {
      TextArrivesIff(a.fields[k]);
    }
    if forall k <- a.fields :: Every(CleanChar, a.fields[k]) {
      assert LinesOf(a.fields) == a.fields;
    }
  }

  /** Printing and parsing an action gives the action back if and only if it is sendable. */
  lemma ActionRoundTripIff(a: AgentAction)
    ensures ActionOf(RenderAction(a)) == Success(a) <==> Sendable(a)
  {
    if a.fields.Keys <= AllowedFields(a.kind) {
      RenderedActionIsRead(a);
      if FieldsLegal(a.fields) {
        NormalizedIsSameIff(a);
      }
    }
  }

  // Replies the model wrote itself

  lemma {:induction false} CollectedHolds(children: seq<Element>, refs: bool)
    requires forall i :: 0 <= i < |children| ==> TreeHolds(children[i], refs)
    requires FieldsOf(children).Success?
    ensures forall k <- FieldsOf(children).value :: Every(TextTest(refs), FieldsOf(children).value[k])
  {
    if children != [] {
      CollectedHolds(children[..|children| - 1], refs);
    }
  }

  /** Whatever text the model sends back, an action accepted from it names only its kind's own fields and carries only
      legal characters. It can be sent again if and only if no value has a carriage return, which needs a character
      reference in the reply. */
  lemma AcceptedIsSendable(content: string)
    requires ActionOf(content).Success?
    ensures var a := ActionOf(content).value;
            && a.fields.Keys <= AllowedFields(a.kind) && FieldsLegal(a.fields)
            && (Sendable(a) <==> forall k <- a.fields :: Every(Not('\r'), a.fields[k]))
            && (NoRefs(Strip(content)) ==> Sendable(a))
  {
    var doc := Strip(content);
    ParsedIsLegal(doc);
    CollectedHolds(ParseXml(doc).value.children, true);
    if NoRefs(doc) {
      CollectedHolds(ParseXml(doc).value.children, false);
    }
  }

  /** Re-rendering an accepted reply keeps its meaning if and only if no value has a carriage return; otherwise every
      value comes back with its line endings normalized. */
  lemma CanonicalReplyMeansTheSame(content: string)
    requires ActionOf(content).Success?
    ensures var a := ActionOf(content).value;
            && ActionOf(RenderAction(a)) == Success(Normalized(a))
            && (ActionOf(RenderAction(a)) == ActionOf(content)
                <==> forall k <- a.fields :: Every(Not('\r'), a.fields[k]))
  {
    AcceptedIsSendable(content);
    RenderedActionIsRead(ActionOf(content).value);
    ActionRoundTripIff(ActionOf(content).value);
  }
}
