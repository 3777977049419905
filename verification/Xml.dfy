/**
 The fragment of XML 1.0 that the prompt grammar is written in, and the reader of it
 (xml.etree.ElementTree.fromstring and xml.sax.saxutils.escape, used by src/acp/model_gateway/prompt.py).

 Elements, attributes, character data, the five predefined entities and character references. Comments, CDATA
 sections, processing instructions, document types and names outside ASCII are not read.
 */
module Xml {
  import opened Common
  import opened Strings

  // ---------------------------------------------------------------------------------------------
  // Characters

  /** Section 2.2 of XML 1.0; a Dafny char is never a surrogate. */
  predicate Legal(c: char) {
    c == '\t' || c == '\n' || c == '\r' || ('\U{20}' <= c && c != '\U{FFFE}' && c != '\U{FFFF}')
  }

  /** Legal and not changed by end-of-line handling. */
  predicate CleanChar(c: char) {
    Legal(c) && c != '\r'
  }

  /** Clean and not changed by attribute-value normalization. */
  predicate AttrChar(c: char) {
    CleanChar(c) && c != '\t' && c != '\n'
  }

  predicate XmlSpace(c: char) {
    c == ' ' || c == '\t' || c == '\n' || c == '\r'
  }

  predicate NameChar(c: char) {
    'a' <= c <= 'z' || 'A' <= c <= 'Z' || '0' <= c <= '9' || c == '_' || c == '-' || c == '.'
  }

  predicate IsName(s: string) {
    s != "" && Every(NameChar, s) && !('0' <= s[0] <= '9') && s[0] != '-' && s[0] != '.'
  }

  /** `xmlns` does not name an attribute but declares a namespace. */
  predicate IsAttrName(s: string) {
    IsName(s) && s != "xmlns"
  }

  /** Section 2.11: every line ending becomes one line feed before anything else is read. */
  function EndOfLines(doc: string): string {
    if doc == "" then ""
    else if doc[0] == '\r' then "\n" + EndOfLines(if |doc| > 1 && doc[1] == '\n' then doc[2..] else doc[1..])
    else [doc[0]] + EndOfLines(doc[1..])
  }

  // ---------------------------------------------------------------------------------------------
  // Escaping

  function Replace(s: string, c: char, sub: string): string {
    if s == "" then "" else (if s[0] == c then sub else [s[0]]) + Replace(s[1..], c, sub)
  }

  /** One pass per character, the ampersand first. */
  function Escape(s: string): string {
    Replace(Replace(Replace(s, '&', "&amp;"), '>', "&gt;"), '<', "&lt;")
  }

  function EscapeAttr(s: string): string {
    Replace(Escape(s), '"', "&quot;")
  }

  // ---------------------------------------------------------------------------------------------
  // Decoding

  predicate DecDigit(c: char) {
    '0' <= c <= '9'
  }

  predicate HexDigit(c: char) {
    DecDigit(c) || 'a' <= c <= 'f' || 'A' <= c <= 'F'
  }

  function DigitValue(c: char): nat
    requires HexDigit(c)
  {
    if c <= '9' then c as int - '0' as int
    else if c <= 'F' then c as int - 'A' as int + 10
    else c as int - 'a' as int + 10
  }

  function NumberOf(digits: string, radix: nat): nat
    requires Every(HexDigit, digits)
  {
    if digits == "" then 0
    else NumberOf(digits[..|digits| - 1], radix) * radix + DigitValue(digits[|digits| - 1])
  }

  /** The character with this number, if it is one that a document may contain (section 4.1). */
  function CharNumbered(n: nat): (r: Option<char>)
    ensures r.Some? ==> Legal(r.value)
  {
    if n < 0xD800 || 0xE000 <= n <= 0x10FFFF then
      var c := n as char;
      if Legal(c) then Some(c) else None
    else None
  }

  /** The character reference that s starts with, decimal or hexadecimal: its character and its length. */
  function CharRefAt(s: string): (r: Option<(char, nat)>)
    requires "&#" <= s
    ensures r.Some? ==> 0 < r.value.1 <= |s| && Legal(r.value.0)
  {
    var hex := "&#x" <= s;
    var start := if hex then 3 else 2;
    var (digits, rest) := Span(if hex then HexDigit else DecDigit, s[start..]);
    SpanSplits(if hex then HexDigit else DecDigit, s[start..]);
    if digits == "" || !(";" <= rest) then None
    else match CharNumbered(NumberOf(digits, if hex then 16 else 10))
         case None => None
         case Some(c) => Some((c, start + |digits| + 1))
  }

  /** The reference that s starts with: its character and its length. */
  function EntityAt(s: string): (r: Option<(char, nat)>)
    ensures r.Some? ==> 0 < r.value.1 <= |s| && Legal(r.value.0)
  {
    if "&amp;" <= s then Some(('&', 5))
    else if "&lt;" <= s then Some(('<', 4))
    else if "&gt;" <= s then Some(('>', 4))
    else if "&quot;" <= s then Some(('"', 6))
    else if "&apos;" <= s then Some(('\'', 6))
    else if "&#" <= s then CharRefAt(s)
    else None
  }

  function Decode(s: string, plain: char -> Option<char>): Option<string>
    decreases |s|
  {
    if s == "" then Some("")
    else if s[0] == '&' then
      match EntityAt(s)
      case None => None
      case Some((c, n)) =>
        match Decode(s[n..], plain)
        case None => None
        case Some(rest) => Some([c] + rest)
    else
      match (plain(s[0]), Decode(s[1..], plain))
      case (Some(c), Some(rest)) => Some([c] + rest)
      case _ => None
  }

  /** Character data, section 2.4: `<` ends it, and `]]>` may not appear in it. */
  function TextChar(c: char): Option<char> {
    if c == '<' then None else Some(c)
  }

  predicate HasCdataEnd(raw: string) {
    exists i :: 0 <= i < |raw| && "]]>" <= raw[i..]
  }

  function DecodeText(raw: string): Option<string> {
    if HasCdataEnd(raw) then None else Decode(raw, TextChar)
  }

  /** Section 3.3.3: white space in an attribute value becomes a space. */
  function AttrValueChar(c: char): Option<char> {
    if c == '<' then None else if XmlSpace(c) then Some(' ') else Some(c)
  }

  function DecodeAttr(raw: string): Option<string> {
    Decode(raw, AttrValueChar)
  }

  // ---------------------------------------------------------------------------------------------
  // Tokens

  datatype Attr = Attr(name: string, value: string)

  datatype Token = Open(tag: string, attrs: seq<Attr>) | Close(tag: string) | Text(content: string)

  datatype Lexeme = Lexeme(tokens: seq<Token>, rest: string)

  datatype AttrList = AttrList(attrs: seq<Attr>, selfClosing: bool, rest: string)

  function DropSpace(s: string): (rest: string)
    ensures |rest| <= |s|
  {
    Span(XmlSpace, s).1
  }

  /** The content of the quoted string that s starts with, and what follows the closing quote. */
  function LexQuoted(s: string): (r: Option<(string, string)>)
    ensures r.Some? ==> |r.value.1| < |s|
  {
    if s == "" || s[0] !in {'"', '\''} then None
    else
      var (raw, rest) := Span(Not(s[0]), s[1..]);
      if rest == "" then None
      else match DecodeAttr(raw)
           case None => None
           case Some(value) => Some((value, rest[1..]))
  }

  /** name = "value" */
  function LexAttr(s: string): (r: Option<(Attr, string)>)
    ensures r.Some? ==> |r.value.1| < |s|
  {
    var (name, afterName) := Span(NameChar, s);
    var eq := DropSpace(afterName);
    if !IsAttrName(name) || eq == "" || eq[0] != '=' then None
    else match LexQuoted(DropSpace(eq[1..]))
         case None => None
         case Some((value, rest)) => Some((Attr(name, value), rest))
  }

  predicate HasAttr(attrs: seq<Attr>, name: string) {
    attrs != [] && (attrs[0].name == name || HasAttr(attrs[1..], name))
  }

  function LexAttrs(s: string): (r: Option<AttrList>)
    ensures r.Some? ==> |r.value.rest| < |s|
    decreases |s|
  {
    var t := DropSpace(s);
    if ">" <= t then Some(AttrList([], false, t[1..]))
    else if "/>" <= t then Some(AttrList([], true, t[2..]))
    else if t == s then None
    else match LexAttr(t)
         case None => None
         case Some((attr, next)) =>
           match LexAttrs(next)
           case None => None
           case Some(more) =>
             if HasAttr(more.attrs, attr.name) then None
             else Some(AttrList([attr] + more.attrs, more.selfClosing, more.rest))
  }

  function OpenLexeme(tag: string, list: AttrList): Lexeme {
    Lexeme(if list.selfClosing then [Open(tag, list.attrs), Close(tag)] else [Open(tag, list.attrs)], list.rest)
  }

  /** A tag, from the character after its `<`. */
  function LexTag(s: string): (r: Option<Lexeme>)
    ensures r.Some? ==> |r.value.rest| < |s|
  {
    if "/" <= s then
      var (tag, rest) := Span(NameChar, s[1..]);
      var end := DropSpace(rest);
      if IsName(tag) && ">" <= end then Some(Lexeme([Close(tag)], end[1..])) else None
    else
      var (tag, rest) := Span(NameChar, s);
      if !IsName(tag) then None
      else match LexAttrs(rest)
           case None => None
           case Some(list) => Some(OpenLexeme(tag, list))
  }

  function LexText(s: string): (r: Option<Lexeme>)
    requires s != "" && s[0] != '<'
    ensures r.Some? ==> |r.value.rest| < |s|
  {
    var (raw, rest) := Span(Not('<'), s);
    match DecodeText(raw)
    case None => None
    case Some(content) => Some(Lexeme([Text(content)], rest))
  }

  function Lex(s: string): Option<seq<Token>>
    decreases |s|
  {
    if s == "" then Some([])
    else match (if s[0] == '<' then LexTag(s[1..]) else LexText(s))
         case None => None
         case Some(lexeme) =>
           match Lex(lexeme.rest)
           case None => None
           case Some(more) => Some(lexeme.tokens + more)
  }

  // ---------------------------------------------------------------------------------------------
  // The tree: `text` is the character data before the first child

  datatype Element = Element(tag: string, attrib: map<string, string>, text: string, children: seq<Element>)

  datatype Builder = Builder(stack: seq<Element>, root: Option<Element>)

  const NOTHING_READ: Builder := Builder([], None)

  function AttrMap(attrs: seq<Attr>): map<string, string> {
    if attrs == [] then map[] else AttrMap(attrs[1..])[attrs[0].name := attrs[0].value]
  }

  function Feed(b: Builder, t: Token): Option<Builder> {
    var n := |b.stack|;
    match t
    case Open(tag, attrs) =>
      if n == 0 && b.root.Some? then None
      else Some(Builder(b.stack + [Element(tag, AttrMap(attrs), "", [])], b.root))
    case Text(content) =>
      if n == 0 then (if Every(XmlSpace, content) then Some(b) else None)
      else
        var top := b.stack[n - 1];
        Some(if top.children == [] then Builder(b.stack[n - 1 := top.(text := top.text + content)], b.root) else b)
    case Close(tag) =>
      if n == 0 || b.stack[n - 1].tag != tag then None
      else if n == 1 then Some(Builder([], Some(b.stack[0])))
      else
        var parent := b.stack[n - 2];
        Some(Builder(b.stack[..n - 2] + [parent.(children := parent.children + [b.stack[n - 1]])], b.root))
  }

  function FeedAll(b: Builder, tokens: seq<Token>): Option<Builder>
    decreases |tokens|
  {
    if tokens == [] then Some(b)
    else match Feed(b, tokens[0])
         case None => None
         case Some(next) => FeedAll(next, tokens[1..])
  }

  function ParseXml(doc: string): Option<Element> {
    if !Every(Legal, doc) then None
    else match Lex(EndOfLines(doc))
         case None => None
         case Some(tokens) =>
           match FeedAll(NOTHING_READ, tokens)
           case None => None
           case Some(b) => if b.stack == [] then b.root else None
  }
}
