/**
 * The structure tree that the external indexer (`sourcekitten structure`) hands the
 * builder, the raw key values the builder compares against, and the runtime traps
 * (failed force-unwraps, casts and indexes) that stop the script.
 */
module Structure {

  datatype Option<T> = None | Some(value: T)

  /** Why the script would stop: each is one of the source's `!`, `as!` or out-of-range index. */
  datatype Fault =
    | MissingSubstructure         // `["key.substructure"] as! [Any]` on a node without children
    | MissingName                 // `name!` or `["key.name"] as! String`
    | MissingTypename             // `typename!` or `["key.typename"] as! String`
    | NotStringDictionary         // `attribute as! [String: String]` on an entry holding a non-string value
    | MissingAttributeKey         // `attributeDict["key.attribute"]!` on an entry without that key
    | UnknownAttribute(tag: string) // `SwiftAttributes(rawValue:)!` on a tag outside the closed set
    | NoArgumentList              // `signature[1]` when the name holds no "("
    | MissingParameter(index: nat)  // `substructure![idx]` past the last child
    | NoSignature                 // `functionString()!` when it returned nil

  /** A computation that either yields a value or stops the script with a fault. */
  datatype Result<T> = Ok(value: T) | Trap(fault: Fault) {
    predicate IsFailure() {
      Trap?
    }

    function PropagateFailure<U>(): Result<U>
      requires Trap?
    {
      Trap(fault)
    }

    function Extract(): T
      requires Ok?
    {
      value
    }
  }

  /** A force-unwrap: the value, or a trap with the given fault. */
  function Need<T>(o: Option<T>, fault: Fault): (r: Result<T>)
    ensures r.Ok? <==> o.Some?
    ensures r.Ok? ==> r.value == o.value
    ensures r.Trap? ==> r.fault == fault
  {
    match o
    case Some(v) => Ok(v)
    case None => Trap(fault)
  }

  /**
   * One node of the indexer's tree: `key.kind`, `key.name`, `key.accessibility`,
   * `key.typename`, `key.substructure` (the ordered children) and the entries of
   * `key.attributes`. Every node has a kind (the source force-casts it); everything
   * else may be absent.
   */
  datatype Node = Node(
    kind: string,
    name: Option<string>,
    accessibility: Option<string>,
    typename: Option<string>,
    substructure: Option<seq<Node>>,
    attributes: Option<seq<AttributeEntry>>)

  /**
   * One entry of `key.attributes`: a dictionary whose values are all strings, with
   * its `key.attribute` value if it has one, or a dictionary holding some other value.
   */
  datatype AttributeEntry = StringEntries(attribute: Option<string>) | OtherEntries

  // Raw values of the `SwiftKeywords` enum.
  const ClassKind := "source.lang.swift.decl.class"
  const VariableInstanceKind := "source.lang.swift.decl.var.instance"
  const MethodInstanceKind := "source.lang.swift.decl.function.method.instance"
  const StructKind := "source.lang.swift.decl.struct"
  const MarkKind := "source.lang.swift.syntaxtype.comment.mark"
  const IfKind := "source.lang.swift.stmt.if"
  const CallKind := "source.lang.swift.expr.call"

  // Raw value of `SwiftPrivacyLevels.filePrivate`.
  const FilePrivateLevel := "source.lang.swift.accessibility.fileprivate"
}
