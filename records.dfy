/**
 * The normalised declaration records the extractors emit, and the one way
 * every extractor fills in their line numbers and source text.
 */
module Records {
  import opened Wrappers
  import opened SyntaxTree
  import opened BaseParser

  /** The "type" entry of a function record. */
  datatype FunctionKind = Function | Method {
    function Tag(): string {
      match this
      case Function => "function"
      case Method => "method"
    }
  }

  /** The "receiver" entry: only Go methods carry the key, and its value may be None. */
  datatype ReceiverEntry = NoReceiverKey | Receiver(text: Option<string>)

  /** One function or method declaration. */
  datatype FunctionRecord = FunctionRecord(
    name: string,
    kind: FunctionKind,
    receiver: ReceiverEntry,
    startLine: int,
    endLine: int,
    parameters: Option<string>,
    signature: string,
    source: string)

  /** The "type" entry of a class record. */
  datatype TypeKind = Class | Struct | Interface | Trait | Impl | TraitImpl {
    function Tag(): string {
      match this
      case Class => "class"
      case Struct => "struct"
      case Interface => "interface"
      case Trait => "trait"
      case Impl => "impl"
      case TraitImpl => "trait_impl"
    }
  }

  /** One class, struct, interface, trait or impl declaration. */
  datatype TypeRecord = TypeRecord(
    name: string,
    kind: TypeKind,
    startLine: int,
    endLine: int,
    source: string)

  /** The text of the child a field names, or "" when the node has no such field. */
  function FieldText(n: Node, field: string, src: string): string
  {
    match ChildByFieldName(n, field)
    case Some(f) => NodeText(f, src)
    case None => ""
  }

  /** The text of the child a field names, or None when the node has no such field. */
  function OptionalFieldText(n: Node, field: string, src: string): (r: Option<string>)
    ensures r.Some? <==> ChildByFieldName(n, field).Some?
    ensures r.Some? ==> r.value == FieldText(n, field, src)
  {
    match ChildByFieldName(n, field)
    case Some(f) => Some(NodeText(f, src))
    case None => None
  }

  /** The "parameters" entry: the parameter list's text, or None when the node has none. */
  function ParametersText(n: Node, src: string): Option<string> {
    OptionalFieldText(n, "parameters", src)
  }

  /**
   * The record for a function-like node: lines are the node's rows plus one,
   * and the signature and the source are both the whole node text.
   */
  function FunctionRecordOf(n: Node, src: string, name: string, kind: FunctionKind, receiver: ReceiverEntry): (r: FunctionRecord)
    ensures r.name == name && r.kind == kind && r.receiver == receiver
    ensures r.startLine >= 1 && r.endLine >= 1
    ensures r.startLine <= r.endLine <==> n.startRow <= n.endRow
    ensures r.signature == r.source == NodeText(n, src)
  {
    FunctionRecord(name, kind, receiver, n.startRow + 1, n.endRow + 1, ParametersText(n, src),
                   NodeText(n, src), NodeText(n, src))
  }

  /** The record for a type-like node, with the same line and source rules. */
  function TypeRecordOf(n: Node, src: string, name: string, kind: TypeKind): (r: TypeRecord)
    ensures r.name == name && r.kind == kind
    ensures r.startLine >= 1 && r.endLine >= 1
    ensures r.startLine <= r.endLine <==> n.startRow <= n.endRow
    ensures r.source == NodeText(n, src)
  {
    TypeRecord(name, kind, n.startRow + 1, n.endRow + 1, NodeText(n, src))
  }
}
