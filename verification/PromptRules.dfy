/**
 The gate for the model's replies, said of the element that a reply reads as (src/acp/model_gateway/prompt.py
 `parse_action`): which replies are an action and which action, why the others are refused, and which fields each
 verb may carry.
 */
module PromptRules {
  import opened Common
  import opened Strings
  import opened Actions
  import opened Xml
  import opened Prompt
  import opened PromptReferences

  /** The allowlist. */
  predicate MayCarry(kind: ActionKind, name: string) {
    (kind, name) in {
                      (Plan, "summary"), (Plan, "target_symbol"),
                      (Retrieve, "primitive"), (Retrieve, "name"), (Retrieve, "file_path"), (Retrieve, "start_line"),
                      (Retrieve, "end_line"),
                      (Edit, "file_path"), (Edit, "content"), (Edit, "op"),
                      (GiveUp, "reason"),
                      (Rename, "old_name"), (Rename, "new_name")
                    }
  }

  predicate IsField(child: Element) {
    child.tag == "field" && "name" in child.attrib
  }

  predicate Names(children: seq<Element>, i: int, name: string) {
    0 <= i < |children| && IsField(children[i]) && children[i].attrib["name"] == name
  }

  /** The last child of this name. */
  predicate IsLastOf(children: seq<Element>, i: int, name: string) {
    Names(children, i, name) && forall j :: i < j < |children| ==> !Names(children, j, name)
  }

  /** Fields only; and for each name that occurs the text of its last occurrence. */
  ghost predicate CarriesFields(children: seq<Element>, fields: map<string, string>) {
    && (forall child <- children :: IsField(child))
    && (forall name :: name in fields <==> exists i :: Names(children, i, name))
    && (forall i, name :: IsLastOf(children, i, name) ==> name in fields && fields[name] == children[i].text)
  }

  lemma {:induction false} FieldsAreCarried(children: seq<Element>)
    ensures FieldsOf(children).Success? ==> CarriesFields(children, FieldsOf(children).value)
    ensures FieldsOf(children).Failure? ==>
              FieldsOf(children).error == UnexpectedChild && exists child <- children :: !IsField(child)
  {
    if children != [] {
      var n := |children| - 1;
      var front, last := children[..n], children[n];
      FieldsAreCarried(front);
      assert children == front + [last];
      if FieldsOf(children).Success? {
        LastFieldWins(front, last, FieldsOf(front).value);
      } else if FieldsOf(front).Success? {
        assert last in children && !IsField(last);
      }
    }
  }

  lemma LastFieldWins(front: seq<Element>, last: Element, fields: map<string, string>)
    requires CarriesFields(front, fields) && IsField(last)
    ensures CarriesFields(front + [last], fields[last.attrib["name"] := last.text])
  {
    var children, after := front + [last], fields[last.attrib["name"] := last.text];
    forall name
      ensures name in after <==> exists i :: Names(children, i, name)
    {
      if i :| Names(front, i, name) {
        assert Names(children, i, name);
      }
      if i :| Names(children, i, name) {
        assert i == |front| || Names(front, i, name);
      }
      assert Names(children, |front|, last.attrib["name"]);
    }
    forall i, name | IsLastOf(children, i, name)
      ensures name in after && after[name] == children[i].text
    {
      if i < |front| {
        assert !Names(children, |front|, name);
        assert forall j :: 0 <= j < |front| ==> (Names(children, j, name) <==> Names(front, j, name));
        assert IsLastOf(front, i, name);
      }
    }
  }

  lemma CarriedIsOne(children: seq<Element>, fields: map<string, string>, others: map<string, string>)
    requires CarriesFields(children, fields) && CarriesFields(children, others)
    ensures fields == others
  {
    forall name | name in fields
      ensures name in others && fields[name] == others[name]
    {
      var i :| Names(children, i, name);
      var last := LastOf(children, i, name);
      assert IsLastOf(children, last, name);
    }
    assert fields.Keys == others.Keys;
  }

  lemma {:induction false} LastOf(children: seq<Element>, i: int, name: string) returns (last: int)
    requires Names(children, i, name)
    ensures IsLastOf(children, last, name)
    decreases |children| - i
  {
    if j :| i < j < |children| && Names(children, j, name) {
      last := LastOf(children, j, name);
    } else {
      last := i;
    }
  }

  lemma AllowedIff(kind: ActionKind, names: set<string>)
    ensures names <= AllowedFields(kind) <==> forall name <- names :: MayCarry(kind, name)
  {
    forall name
      ensures name in AllowedFields(kind) <==> MayCarry(kind, name)
    {
    }
  }

  lemma KindOfIff(name: string, kind: ActionKind)
    ensures KindOf(name) == Some(kind) <==> IsWireName(kind, name)
  {
  }

  /** A reply is this action if and only if it reads as an `action` element with the kind's wire name, with fields
      only, all of them on the kind's allowlist, whose last occurrences are the action's fields. */
  lemma AcceptedIff(content: string, a: AgentAction)
    ensures ActionOf(content) == Success(a)
       <==> match ParseXml(Strip(content))
            case None => false
            case Some(root) =>
              && root.tag == "action" && "kind" in root.attrib && IsWireName(a.kind, root.attrib["kind"])
              && CarriesFields(root.children, a.fields) && forall name <- a.fields :: MayCarry(a.kind, name)
  {
    hide ParseXml, KindOf, AllowedFields, IsWireName, MayCarry, CarriesFields, FieldsOf;
    var parsed := ParseXml(Strip(content));
    if parsed.Some? && "kind" in parsed.value.attrib {
      var root := parsed.value;
      KindOfIff(root.attrib["kind"], a.kind);
      FieldsAreCarried(root.children);
      AllowedIff(a.kind, a.fields.Keys);
      if CarriesFields(root.children, a.fields) {
        CarriedIsRead(root.children, a.fields);
      }
    }
  }

  lemma CarriedIsRead(children: seq<Element>, fields: map<string, string>)
    requires CarriesFields(children, fields)
    ensures FieldsOf(children) == Success(fields)
  {
    FieldsAreCarried(children);
    CarriedIsOne(children, fields, FieldsOf(children).value);
  }

  /** Why a reply is refused: the first of these that holds. */
  lemma RefusedBecause(content: string)
    requires ActionOf(content).Failure?
    ensures var error := ActionOf(content).error;
            match ParseXml(Strip(content))
            case None => error == NotXml
            case Some(root) =>
              if root.tag != "action" then error == WrongRoot
              else if "kind" !in root.attrib then error == MissingKind
              else if forall kind :: !IsWireName(kind, root.attrib["kind"]) then error == UnknownKind
              else if exists child <- root.children :: !IsField(child) then error == UnexpectedChild
              else error == DisallowedField
                   && exists kind, i, name :: IsWireName(kind, root.attrib["kind"]) && Names(root.children, i, name)
                                              && !MayCarry(kind, name)
  {
    hide ParseXml, KindOf, AllowedFields, IsWireName, MayCarry, FieldsOf;
    var parsed := ParseXml(Strip(content));
    if parsed.Some? && "kind" in parsed.value.attrib {
      var root := parsed.value;
      forall kind
        ensures KindOf(root.attrib["kind"]) == Some(kind) <==> IsWireName(kind, root.attrib["kind"])
      {
        KindOfIff(root.attrib["kind"], kind);
      }
      FieldsAreCarried(root.children);
      var kind := KindOf(root.attrib["kind"]);
      if kind.Some? && FieldsOf(root.children).Success? {
        AllowedIff(kind.value, FieldsOf(root.children).value.Keys);
      }
    }
  }

  /** Exactly these fields are accepted with these verbs. */
  lemma FieldIsAcceptedIff(kind: ActionKind, name: string)
    ensures (exists content :: ActionOf(content) == Success(AgentAction(kind, map[name := ""])))
       <==> MayCarry(kind, name)
  {
    hide ActionOf, AllowedFields, MayCarry;
    var a := AgentAction(kind, map[name := ""]);
    AcceptableIff(a);
    AllowedIff(kind, a.fields.Keys);
    assert a.fields.Keys == {name};
  }
}
