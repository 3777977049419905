/** The closed action vocabulary and the untrusted spans (src/acp/model_gateway/prompt.py). */
module Actions {
  datatype ActionKind = Plan | Retrieve | Edit | Verify | GiveUp | Rename

  datatype AgentAction = AgentAction(kind: ActionKind, fields: map<string, string>) {
    function Field(name: string, default: string): string {
      if name in fields then fields[name] else default
    }
  }

  /** One retrieved payload and where it came from. */
  datatype DataSpan = DataSpan(origin: string, content: string)

  /** The wire name of an action kind. */
  function KindName(kind: ActionKind): string {
    match kind
    case Plan => "plan"
    case Retrieve => "retrieve"
    case Edit => "edit"
    case Verify => "verify"
    case GiveUp => "give_up"
    case Rename => "rename"
  }

  /** The closed vocabulary on the wire. */
  predicate IsWireName(kind: ActionKind, name: string) {
    match kind
    case Plan => name == "plan"
    case Retrieve => name == "retrieve"
    case Edit => name == "edit"
    case Verify => name == "verify"
    case GiveUp => name == "give_up"
    case Rename => name == "rename"
  }
}
