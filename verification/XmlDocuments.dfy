/**
 Documents of a root with childless children, printed and read back.

 The answer is complete: whatever the texts and attribute values, the tree has exactly the printed shape; texts
 arrive with their line endings normalized, attribute values with white space turned into spaces; and a document
 with an illegal character is refused.
 */
module XmlDocuments {
  import opened Common
  import opened Strings
  import opened Xml
  import opened XmlPrint
  import opened XmlNormal

  // ---------------------------------------------------------------------------------------------
  // Documents of two levels: a root with childless children

  datatype Leaf = Leaf(tag: string, attrs: seq<Attr>, text: string)

  function LeafTokens(leaf: Leaf): seq<Token> {
    [Open(leaf.tag, leaf.attrs)] + TextTokens(leaf) + [Close(leaf.tag)]
  }

  function LeavesTokens(leaves: seq<Leaf>): seq<Token> {
    if leaves == [] then [] else LeafTokens(leaves[0]) + LeavesTokens(leaves[1..])
  }

  function FlatTokens(root: Leaf, leaves: seq<Leaf>): seq<Token> {
    [Open(root.tag, root.attrs)] + LeavesTokens(leaves) + [Close(root.tag)]
  }

  function LeafElement(leaf: Leaf): Element {
    Element(leaf.tag, AttrMap(leaf.attrs), leaf.text, [])
  }

  function LeafElements(leaves: seq<Leaf>): seq<Element> {
    seq(|leaves|, i requires 0 <= i < |leaves| => LeafElement(leaves[i]))
  }

  predicate LeafOk(leaf: Leaf) {
    IsName(leaf.tag) && AttrsOk(leaf.attrs)
  }

  predicate LeavesOk(leaves: seq<Leaf>) {
    leaves != [] ==> LeafOk(leaves[0]) && LeavesOk(leaves[1..])
  }

  lemma PrintableCons(t: Token, rest: seq<Token>)
    requires TokenOk(t) && Printable(rest) && (t.Text? && rest != [] ==> !rest[0].Text?)
    ensures Printable([t] + rest)
  {
    assert ([t] + rest)[1..] == rest;
  }

  lemma TextPrintable(leaf: Leaf, closing: seq<Token>)
    requires Printable(closing) && closing != [] && !closing[0].Text?
    ensures Printable(TextTokens(leaf) + closing)
  {
    if leaf.text == "" {
      assert TextTokens(leaf) + closing == closing;
    } else {
      PrintableCons(Text(leaf.text), closing);
    }
  }

  lemma LeafPrintable(leaf: Leaf, rest: seq<Token>)
    requires LeafOk(leaf) && Printable(rest)
    ensures Printable(LeafTokens(leaf) + rest)
  {
    var closing := [Close(leaf.tag)] + rest;
    PrintableCons(Close(leaf.tag), rest);
    TextPrintable(leaf, closing);
    PrintableCons(Open(leaf.tag, leaf.attrs), TextTokens(leaf) + closing);
    assert LeafTokens(leaf) + rest == [Open(leaf.tag, leaf.attrs)] + (TextTokens(leaf) + closing);
  }

  lemma LeavesSplit(leaves: seq<Leaf>, rest: seq<Token>)
    requires leaves != []
    ensures LeavesTokens(leaves) + rest == LeafTokens(leaves[0]) + (LeavesTokens(leaves[1..]) + rest)
  {
  }

  lemma {:induction false} LeavesPrintable(leaves: seq<Leaf>, rest: seq<Token>)
    requires LeavesOk(leaves) && Printable(rest)
    ensures Printable(LeavesTokens(leaves) + rest)
  {
    if leaves == [] {
      assert LeavesTokens(leaves) + rest == rest;
    } else {
      LeavesPrintable(leaves[1..], rest);
      LeafPrintable(leaves[0], LeavesTokens(leaves[1..]) + rest);
      LeavesSplit(leaves, rest);
    }
  }

  lemma FlatPrintable(root: Leaf, leaves: seq<Leaf>)
    requires LeafOk(root) && LeavesOk(leaves)
    ensures Printable(FlatTokens(root, leaves))
  {
    var closing := [Close(root.tag)];
    assert closing[1..] == [];
    LeavesPrintable(leaves, closing);
    var all := FlatTokens(root, leaves);
    assert all[1..] == LeavesTokens(leaves) + closing;
  }

  // ---------------------------------------------------------------------------------------------
  // The builder makes the tree

  lemma FeedOne(b: Builder, t: Token, rest: seq<Token>)
    requires Feed(b, t).Some?
    ensures FeedAll(b, [t] + rest) == FeedAll(Feed(b, t).value, rest)
  {
    assert ([t] + rest)[1..] == rest;
  }

  function WithChild(root: Element, child: Element): Element {
    root.(children := root.children + [child])
  }

  lemma FeedStart(root: Element, leaf: Leaf)
    ensures Feed(Builder([root], None), Open(leaf.tag, leaf.attrs))
         == Some(Builder([root, LeafElement(leaf.(text := ""))], None))
  {
    var open := LeafElement(leaf.(text := ""));
    assert [root] + [open] == [root, open];
  }

  lemma FeedText(root: Element, leaf: Leaf)
    ensures Feed(Builder([root, LeafElement(leaf.(text := ""))], None), Text(leaf.text))
         == Some(Builder([root, LeafElement(leaf)], None))
  {
    assert "" + leaf.text == leaf.text;
    var open := LeafElement(leaf.(text := ""));
    assert [root, open][1 := LeafElement(leaf)] == [root, LeafElement(leaf)];
  }

  lemma FeedEnd(root: Element, leaf: Leaf)
    ensures Feed(Builder([root, LeafElement(leaf)], None), Close(leaf.tag))
         == Some(Builder([WithChild(root, LeafElement(leaf))], None))
  {
    var stack, after := [root, LeafElement(leaf)], [WithChild(root, LeafElement(leaf))];
    assert stack[..0] + after == after;
  }

  function TextTokens(leaf: Leaf): seq<Token> {
    if leaf.text == "" then [] else [Text(leaf.text)]
  }

  lemma FeedBody(root: Element, leaf: Leaf, closing: seq<Token>)
    ensures FeedAll(Builder([root, LeafElement(leaf.(text := ""))], None), TextTokens(leaf) + closing)
         == FeedAll(Builder([root, LeafElement(leaf)], None), closing)
  {
    if leaf.text == "" {
      assert TextTokens(leaf) + closing == closing;
    } else {
      FeedText(root, leaf);
      FeedOne(Builder([root, LeafElement(leaf.(text := ""))], None), Text(leaf.text), closing);
    }
  }

  /** The tokens of a leaf become one more child of the open element. */
  lemma FeedLeaf(root: Element, leaf: Leaf, rest: seq<Token>)
    ensures FeedAll(Builder([root], None), LeafTokens(leaf) + rest)
         == FeedAll(Builder([WithChild(root, LeafElement(leaf))], None), rest)
  {
    var closing := [Close(leaf.tag)] + rest;
    FeedStart(root, leaf);
    FeedOne(Builder([root], None), Open(leaf.tag, leaf.attrs), TextTokens(leaf) + closing);
    FeedBody(root, leaf, closing);
    FeedEnd(root, leaf);
    FeedOne(Builder([root, LeafElement(leaf)], None), Close(leaf.tag), rest);
    assert LeafTokens(leaf) + rest == [Open(leaf.tag, leaf.attrs)] + (TextTokens(leaf) + closing);
  }

  lemma ChildrenRegroup(root: Element, leaves: seq<Leaf>)
    requires leaves != []
    ensures root.children + [LeafElement(leaves[0])] + LeafElements(leaves[1..]) == root.children + LeafElements(leaves)
  {
  }

  lemma {:induction false} FeedLeaves(root: Element, leaves: seq<Leaf>, rest: seq<Token>)
    ensures FeedAll(Builder([root], None), LeavesTokens(leaves) + rest)
         == FeedAll(Builder([root.(children := root.children + LeafElements(leaves))], None), rest)
    decreases leaves
  {
    if leaves == [] {
      assert LeavesTokens(leaves) + rest == rest;
      assert root.children + LeafElements(leaves) == root.children;
    } else {
      var next := WithChild(root, LeafElement(leaves[0]));
      LeavesSplit(leaves, rest);
      FeedLeaf(root, leaves[0], LeavesTokens(leaves[1..]) + rest);
      FeedLeaves(next, leaves[1..], rest);
      ChildrenRegroup(root, leaves);
    }
  }

  function FlatElement(root: Leaf, leaves: seq<Leaf>): Element {
    Element(root.tag, AttrMap(root.attrs), "", LeafElements(leaves))
  }

  lemma FeedFlat(root: Leaf, leaves: seq<Leaf>)
    ensures FeedAll(NOTHING_READ, FlatTokens(root, leaves)) == Some(Builder([], Some(FlatElement(root, leaves))))
  {
    var start := Element(root.tag, AttrMap(root.attrs), "", []);
    var closing := [Close(root.tag)];
    assert [] + [start] == [start];
    FeedOne(NOTHING_READ, Open(root.tag, root.attrs), LeavesTokens(leaves) + closing);
    assert FlatTokens(root, leaves) == [Open(root.tag, root.attrs)] + (LeavesTokens(leaves) + closing);
    FeedLeaves(start, leaves, closing);
    assert [] + LeafElements(leaves) == LeafElements(leaves);
    FeedOne(Builder([FlatElement(root, leaves)], None), Close(root.tag), []);
    assert closing + [] == closing;
  }

  // ---------------------------------------------------------------------------------------------
  // What arrives

  predicate LeafLegal(leaf: Leaf) {
    AttrsLegal(leaf.attrs) && Every(Legal, leaf.text)
  }

  predicate LeavesLegal(leaves: seq<Leaf>) {
    forall i :: 0 <= i < |leaves| ==> LeafLegal(leaves[i])
  }

  function Delivered(leaf: Leaf): Leaf {
    Leaf(leaf.tag, SpacedAttrs(LinesAttrs(leaf.attrs)), EndOfLines(leaf.text))
  }

  function DeliveredAll(leaves: seq<Leaf>): seq<Leaf> {
    if leaves == [] then [] else [Delivered(leaves[0])] + DeliveredAll(leaves[1..])
  }

  function ReadToken(t: Token): Token {
    Read(LinesToken(t))
  }

  function ReadTokens(tokens: seq<Token>): seq<Token> {
    ReadAll(LinesAll(tokens))
  }

  lemma {:induction false} ReadTokensConcat(a: seq<Token>, b: seq<Token>)
    ensures ReadTokens(a + b) == ReadTokens(a) + ReadTokens(b)
  {
    if a == [] {
      assert a + b == b;
    } else {
      assert (a + b)[1..] == a[1..] + b;
      ReadTokensConcat(a[1..], b);
    }
  }

  lemma ReadTokensOne(t: Token)
    ensures ReadTokens([t]) == [ReadToken(t)]
  {
    assert [t][1..] == [];
    assert LinesAll([t]) == [LinesToken(t)];
    assert [LinesToken(t)][1..] == [];
    assert ReadAll([LinesToken(t)]) == [ReadToken(t)];
  }

  lemma ReadLeaf(leaf: Leaf)
    ensures ReadTokens(LeafTokens(leaf)) == LeafTokens(Delivered(leaf))
  {
    var start, end := [Open(leaf.tag, leaf.attrs)], [Close(leaf.tag)];
    var text := if leaf.text == "" then [] else [Text(leaf.text)];
    ReadTokensOne(start[0]);
    ReadTokensOne(end[0]);
    if leaf.text != "" {
      ReadTokensOne(Text(leaf.text));
    }
    ReadTokensConcat(start + text, end);
    ReadTokensConcat(start, text);
  }

  lemma {:induction false} ReadLeaves(leaves: seq<Leaf>)
    ensures ReadTokens(LeavesTokens(leaves)) == LeavesTokens(DeliveredAll(leaves))
  {
    if leaves != [] {
      ReadLeaf(leaves[0]);
      ReadLeaves(leaves[1..]);
      ReadTokensConcat(LeafTokens(leaves[0]), LeavesTokens(leaves[1..]));
    }
  }

  lemma ReadFlat(root: Leaf, leaves: seq<Leaf>)
    ensures ReadTokens(FlatTokens(root, leaves)) == FlatTokens(Delivered(root), DeliveredAll(leaves))
  {
    var start, end := [Open(root.tag, root.attrs)], [Close(root.tag)];
    ReadTokensOne(start[0]);
    ReadTokensOne(end[0]);
    ReadLeaves(leaves);
    ReadTokensConcat(start + LeavesTokens(leaves), end);
    ReadTokensConcat(start, LeavesTokens(leaves));
  }

  lemma {:induction false} LegalConcat(a: seq<Token>, b: seq<Token>)
    ensures TokensLegal(a + b) <==> TokensLegal(a) && TokensLegal(b)
  {
    if a == [] {
      assert a + b == b;
    } else {
      assert (a + b)[1..] == a[1..] + b;
      LegalConcat(a[1..], b);
    }
  }

  lemma LegalLeaf(leaf: Leaf)
    ensures TokensLegal(LeafTokens(leaf)) <==> LeafLegal(leaf)
  {
    var start, end := [Open(leaf.tag, leaf.attrs)], [Close(leaf.tag)];
    var text := if leaf.text == "" then [] else [Text(leaf.text)];
    LegalConcat(start + text, end);
    LegalConcat(start, text);
    assert start[1..] == [] && end[1..] == [] && (text != [] ==> text[1..] == []);
  }

  lemma {:induction false} LegalLeaves(leaves: seq<Leaf>)
    ensures TokensLegal(LeavesTokens(leaves)) <==> LeavesLegal(leaves)
  {
    if leaves != [] {
      LegalLeaf(leaves[0]);
      LegalLeaves(leaves[1..]);
      LegalConcat(LeafTokens(leaves[0]), LeavesTokens(leaves[1..]));
      assert forall i :: 0 <= i < |leaves[1..]| ==> leaves[1..][i] == leaves[i + 1];
      assert LeavesLegal(leaves) <==> LeafLegal(leaves[0]) && LeavesLegal(leaves[1..]) by {
        if LeafLegal(leaves[0]) && LeavesLegal(leaves[1..]) {
          forall i | 0 <= i < |leaves|
            ensures LeafLegal(leaves[i])
          {
            assert i > 0 ==> leaves[i] == leaves[1..][i - 1];
          }
        }
      }
    }
  }

  lemma LegalFlat(root: Leaf, leaves: seq<Leaf>)
    ensures TokensLegal(FlatTokens(root, leaves)) <==> AttrsLegal(root.attrs) && LeavesLegal(leaves)
  {
    var start, end := [Open(root.tag, root.attrs)], [Close(root.tag)];
    LegalLeaves(leaves);
    LegalConcat(start + LeavesTokens(leaves), end);
    LegalConcat(start, LeavesTokens(leaves));
    assert start[1..] == [] && end[1..] == [];
  }

  /** Whatever the leaves carry, the document is refused or has exactly one child per leaf, in order, each with
      the leaf's own text and attributes in normal form: no content can add, drop or reshape an element. */
  lemma FlatDocumentIsRead(root: Leaf, leaves: seq<Leaf>)
    requires LeafOk(root) && LeavesOk(leaves)
    ensures ParseXml(SpellAll(FlatTokens(root, leaves)))
         == if AttrsLegal(root.attrs) && LeavesLegal(leaves)
            then Some(FlatElement(Delivered(root), DeliveredAll(leaves))) else None
  {
    var tokens := FlatTokens(root, leaves);
    FlatPrintable(root, leaves);
    PrintedIsRead(tokens);
    LegalFlat(root, leaves);
    ReadFlat(root, leaves);
    FeedFlat(Delivered(root), DeliveredAll(leaves));
  }

  lemma LeafDocumentIsRead(leaf: Leaf)
    requires LeafOk(leaf)
    ensures ParseXml(SpellAll(LeafTokens(leaf))) == if LeafLegal(leaf) then Some(LeafElement(Delivered(leaf))) else None
  {
    assert LeafTokens(leaf) + [] == LeafTokens(leaf);
    LeafPrintable(leaf, []);
    PrintedIsRead(LeafTokens(leaf));
    LegalLeaf(leaf);
    ReadLeaf(leaf);
    FeedRootLeaf(Delivered(leaf));
  }

  lemma FeedRootLeaf(leaf: Leaf)
    ensures FeedAll(NOTHING_READ, LeafTokens(leaf)) == Some(Builder([], Some(LeafElement(leaf))))
  {
    var bare := LeafElement(leaf.(text := ""));
    var closing := [Close(leaf.tag)];
    assert closing + [] == closing && "" + leaf.text == leaf.text;
    FeedOne(Builder([LeafElement(leaf)], None), Close(leaf.tag), []);
    if leaf.text == "" {
      FeedOne(NOTHING_READ, Open(leaf.tag, leaf.attrs), closing);
      assert LeafTokens(leaf) == [Open(leaf.tag, leaf.attrs)] + closing;
    } else {
      assert [bare][0 := LeafElement(leaf)] == [LeafElement(leaf)];
      FeedOne(Builder([bare], None), Text(leaf.text), closing);
      FeedOne(NOTHING_READ, Open(leaf.tag, leaf.attrs), [Text(leaf.text)] + closing);
      assert LeafTokens(leaf) == [Open(leaf.tag, leaf.attrs)] + ([Text(leaf.text)] + closing);
    }
  }
}
