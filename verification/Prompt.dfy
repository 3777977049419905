/** The two prompt channels and the action wire format (src/acp/model_gateway/prompt.py). */
module Prompt {
  import opened Common
  import opened Strings
  import opened Actions
  import opened Xml

  // ---------------------------------------------------------------------------------------------
  // Channels

  function InstructionXml(instruction: string): string {
    "<instruction>" + Escape(instruction) + "</instruction>"
  }

  function SpanXml(span: DataSpan): string {
    "<span origin=\"" + EscapeAttr(span.origin) + "\">" + Escape(span.content) + "</span>"
  }

  function SpansXml(spans: seq<DataSpan>): string {
    if spans == [] then "" else SpanXml(spans[0]) + SpansXml(spans[1..])
  }

  function DataXml(spans: seq<DataSpan>): string {
    if spans == [] then "<data/>" else "<data>" + SpansXml(spans) + "</data>"
  }

  function Joined(parts: seq<string>): string {
    if parts == [] then "" else parts[0] + Joined(parts[1..])
  }

  lemma {:induction false} JoinedAppend(parts: seq<string>, part: string)
    ensures Joined(parts + [part]) == Joined(parts) + part
  {
    if parts == [] {
      assert ([] + [part])[1..] == [];
    } else {
      assert (parts + [part])[1..] == parts[1..] + [part];
      JoinedAppend(parts[1..], part);
    }
  }

  lemma {:induction false} SpansXmlAppend(spans: seq<DataSpan>, span: DataSpan)
    ensures SpansXml(spans + [span]) == SpansXml(spans) + SpanXml(span)
  {
    if spans != [] {
      assert (spans + [span])[1..] == spans[1..] + [span];
      SpansXmlAppend(spans[1..], span);
    } else {
      assert (spans + [span])[1..] == [];
    }
  }

  lemma SpansXmlUpTo(spans: seq<DataSpan>, i: nat)
    requires i < |spans|
    ensures SpansXml(spans[..i + 1]) == SpansXml(spans[..i]) + SpanXml(spans[i])
  {
    assert spans[..i + 1] == spans[..i] + [spans[i]];
    SpansXmlAppend(spans[..i], spans[i]);
  }

  lemma PartsGrow(parts: seq<string>, start: string, done: string, more: string, part: string)
    requires Joined(parts) == start + done && more == done + part
    ensures Joined(parts + [part]) == start + more
  {
    JoinedAppend(parts, part);
  }

  method BuildChannels(instruction: string, spans: seq<DataSpan>) returns (instructionXml: string, dataXml: string)
    ensures instructionXml == InstructionXml(instruction) && dataXml == DataXml(spans)
  {
    instructionXml := InstructionXml(instruction);
    if spans == [] {
      return instructionXml, "<data/>";
    }
    var parts := ["<data>"];
    for i := 0 to |spans|
      invariant Joined(parts) == "<data>" + SpansXml(spans[..i])
    {
      SpansXmlUpTo(spans, i);
      PartsGrow(parts, "<data>", SpansXml(spans[..i]), SpansXml(spans[..i + 1]), SpanXml(spans[i]));
      parts := parts + [SpanXml(spans[i])];
    }
    assert spans[..|spans|] == spans;
    JoinedAppend(parts, "</data>");
    dataXml := Joined(parts + ["</data>"]);
  }

  // ---------------------------------------------------------------------------------------------
  // Actions

  function AllowedFields(kind: ActionKind): set<string> {
    match kind
    case Plan => {"summary", "target_symbol"}
    case Retrieve => {"primitive", "name", "file_path", "start_line", "end_line"}
    case Edit => {"file_path", "content", "op"}
    case Verify => {}
    case GiveUp => {"reason"}
    case Rename => {"old_name", "new_name"}
  }

  function KindOf(name: string): Option<ActionKind> {
    if name == "plan" then Some(Plan)
    else if name == "retrieve" then Some(Retrieve)
    else if name == "edit" then Some(Edit)
    else if name == "verify" then Some(Verify)
    else if name == "give_up" then Some(GiveUp)
    else if name == "rename" then Some(Rename)
    else None
  }

  function FieldXml(name: string, value: string): string {
    "<field name=\"" + EscapeAttr(name) + "\">" + Escape(value) + "</field>"
  }

  function FieldsXml(fields: map<string, string>, names: seq<string>): string
    requires forall k <- names :: k in fields
  {
    if names == [] then "" else FieldXml(names[0], fields[names[0]]) + FieldsXml(fields, names[1..])
  }

  function RenderAction(a: AgentAction): string {
    "<action kind=\"" + KindName(a.kind) + "\">" + FieldsXml(a.fields, SortedKeys(a.fields.Keys)) + "</action>"
  }

  datatype ProtocolError = NotXml | WrongRoot | MissingKind | UnknownKind | UnexpectedChild | DisallowedField

  /** The field dictionary of the children; a repeated name keeps its last value. */
  function FieldsOf(children: seq<Element>): Result<map<string, string>, ProtocolError> {
    if children == [] then Success(map[])
    else
      var child := children[|children| - 1];
      match FieldsOf(children[..|children| - 1])
      case Failure(e) => Failure(e)
      case Success(fields) =>
        if child.tag != "field" || "name" !in child.attrib then Failure(UnexpectedChild)
        else Success(fields[child.attrib["name"] := child.text])
  }

  function ActionOf(content: string): Result<AgentAction, ProtocolError> {
    match ParseXml(Strip(content))
    case None => Failure(NotXml)
    case Some(root) =>
      if root.tag != "action" then Failure(WrongRoot)
      else if "kind" !in root.attrib then Failure(MissingKind)
      else match KindOf(root.attrib["kind"])
           case None => Failure(UnknownKind)
           case Some(kind) =>
             match FieldsOf(root.children)
             case Failure(e) => Failure(e)
             case Success(fields) =>
               if fields.Keys <= AllowedFields(kind) then Success(AgentAction(kind, fields))
               else Failure(DisallowedField)
  }

  method ParseAction(content: string) returns (r: Result<AgentAction, ProtocolError>)
    ensures r == ActionOf(content)
  {
    var parsed := ParseXml(Strip(content));
    if parsed.None? {
      return Failure(NotXml);
    }
    var root := parsed.value;
    if root.tag != "action" {
      return Failure(WrongRoot);
    }
    if "kind" !in root.attrib {
      return Failure(MissingKind);
    }
    var kind := KindOf(root.attrib["kind"]);
    if kind.None? {
      return Failure(UnknownKind);
    }
    var fields: map<string, string> := map[];
    var children := root.children;
    for i := 0 to |children|
      invariant FieldsOf(children[..i]) == Success(fields)
    {
      var child := children[i];
      assert children[..i + 1][..i] == children[..i];
      if child.tag != "field" || "name" !in child.attrib {
        FailureStays(children, i + 1);
        return Failure(UnexpectedChild);
      }
      fields := fields[child.attrib["name"] := child.text];
    }
    assert children[..|children|] == children;
    if !(fields.Keys <= AllowedFields(kind.value)) {
      return Failure(DisallowedField);
    }
    return Success(AgentAction(kind.value, fields));
  }

  lemma {:induction false} FailureStays(children: seq<Element>, n: nat)
    requires n <= |children| && FieldsOf(children[..n]).Failure?
    ensures FieldsOf(children) == FieldsOf(children[..n])
  {
    if n == |children| {
      assert children[..n] == children;
    } else {
      var front := children[..|children| - 1];
      assert front[..n] == children[..n];
      FailureStays(front, n);
    }
  }
}
