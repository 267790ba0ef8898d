/**
 * The declaration classifier (`class Particulate`): a read-only view of one indexer
 * node that answers what kind of member it is, whether the member-list pass may skip
 * it, which attributes it carries, and what call signature a method has.
 */
module Particulate {
  import opened Structure
  import opened Strings

  /** The closed `SwiftAttributes` set. */
  datatype SwiftAttribute = Weak | Objc | Override | Required

  /** The indexer tag each attribute stands for (the enum's raw value). */
  function RawValue(a: SwiftAttribute): string {
    match a
    case Weak => "source.decl.attribute.weak"
    case Objc => "source.decl.attribute.objc"
    case Override => "source.decl.attribute.override"
    case Required => "source.decl.attribute.required"
  }

  /** What `"\(attribute)"` prints: the case name. */
  function CaseName(a: SwiftAttribute): string {
    match a
    case Weak => "weak"
    case Objc => "objc"
    case Override => "override"
    case Required => "required"
  }

  /** `SwiftAttributes(rawValue:)`: the attribute a tag stands for, if any. */
  function FromRawValue(tag: string): (r: Option<SwiftAttribute>)
    ensures r.Some? ==> RawValue(r.value) == tag
    ensures forall a :: RawValue(a) == tag ==> r == Some(a)
  {
    if tag == RawValue(Weak) then Some(Weak)
    else if tag == RawValue(Objc) then Some(Objc)
    else if tag == RawValue(Override) then Some(Override)
    else if tag == RawValue(Required) then Some(Required)
    else None
  }

  // The kind and visibility tests.

  predicate IsClass(n: Node) { n.kind == ClassKind }

  predicate IsMarkComment(n: Node) { n.kind == MarkKind }

  /** A member whose body the indexer reports as an `if` statement is taken for a computed property. */
  predicate IsComputedProperty(n: Node) { n.kind == IfKind }

  predicate IsInstanceVariable(n: Node) { n.kind == VariableInstanceKind }

  predicate IsMethodCall(n: Node) { n.kind == CallKind }

  predicate IsMethodInstance(n: Node) { n.kind == MethodInstanceKind }

  predicate IsFilePrivate(n: Node) { n.accessibility == Some(FilePrivateLevel) }

  predicate IsStruct(n: Node) { n.kind == StructKind }

  /**
   * `canBeIgnored` as it runs with verbose analysis off: a MARK comment, a computed
   * property, or a member that is not fileprivate while no chained declaration is pending.
   */
  predicate CanBeIgnored(n: Node, previous: Option<Node>) {
    IsMarkComment(n) || IsComputedProperty(n) || (!IsFilePrivate(n) && previous.None?)
  }

  /**
   * `canBeIgnored` with verbose analysis on: the same three tests one after another,
   * each with its message; the third message force-unwraps the name.
   */
  function CanBeIgnoredVerbose(n: Node, previous: Option<Node>): (r: Result<bool>)
    ensures r.Ok? ==> r.value == CanBeIgnored(n, previous)
    ensures r.Trap? <==>
      !IsMarkComment(n) && !IsComputedProperty(n) && !IsFilePrivate(n) && previous.None? && n.name.None?
  {
    if IsMarkComment(n) then Ok(true)
    else if IsComputedProperty(n) then Ok(true)
    else if !IsFilePrivate(n) && previous.None? then
      if n.name.None? then Trap(MissingName) else Ok(true)
    else Ok(false)
  }

  /**
   * One round of `attributeArray`: the entry is cast to a string dictionary, its
   * `key.attribute` value is force-unwrapped, and that tag is mapped to an attribute.
   */
  function EntryAttribute(e: AttributeEntry): (r: Result<SwiftAttribute>)
    ensures r.Ok? <==> e.StringEntries? && e.attribute.Some? && FromRawValue(e.attribute.value).Some?
    ensures r.Ok? ==> RawValue(r.value) == e.attribute.value
    ensures e.OtherEntries? ==> r == Trap(NotStringDictionary)
    ensures e.StringEntries? && e.attribute.None? ==> r == Trap(MissingAttributeKey)
    ensures e.StringEntries? && e.attribute.Some? && FromRawValue(e.attribute.value).None?
      ==> r == Trap(UnknownAttribute(e.attribute.value))
  {
    match e
    case OtherEntries => Trap(NotStringDictionary)
    case StringEntries(attribute) =>
      var tag :- Need(attribute, MissingAttributeKey);
      match FromRawValue(tag)
      case None => Trap(UnknownAttribute(tag))
      case Some(a) => Ok(a)
  }

  /** The attributes a list of entries stands for, one per entry, in order. */
  function AttributesOf(entries: seq<AttributeEntry>): (r: Result<seq<SwiftAttribute>>)
    ensures r.Ok? <==> forall i :: 0 <= i < |entries| ==> EntryAttribute(entries[i]).Ok?
    ensures r.Ok? ==> |r.value| == |entries| && forall i :: 0 <= i < |entries| ==> EntryAttribute(entries[i]) == Ok(r.value[i])
    decreases |entries|
  {
    if |entries| == 0 then Ok([])
    else
      var init :- AttributesOf(entries[..|entries| - 1]);
      var last :- EntryAttribute(entries[|entries| - 1]);
      Ok(init + [last])
  }

  /** The fault that stops the reading is that of the first entry that cannot be read. */
  lemma {:induction false} AttributesTrapAtFirst(entries: seq<AttributeEntry>)
    requires AttributesOf(entries).Trap?
    ensures exists i :: (0 <= i < |entries| && EntryAttribute(entries[i]) == Trap(AttributesOf(entries).fault)
      && forall j :: 0 <= j < i ==> EntryAttribute(entries[j]).Ok?)
    decreases |entries|
  {
    var init := entries[..|entries| - 1];
    var last := |entries| - 1;
    var fault := AttributesOf(entries).fault;
    if AttributesOf(init).Trap? {
      assert AttributesOf(init) == Trap(fault);
      AttributesTrapAtFirst(init);
      var i :| 0 <= i < |init| && EntryAttribute(init[i]) == Trap(fault)
        && forall j :: 0 <= j < i ==> EntryAttribute(init[j]).Ok?;
      assert entries[i] == init[i];
      forall j | 0 <= j < i ensures EntryAttribute(entries[j]).Ok? {
        assert entries[j] == init[j];
      }
    } else {
      assert EntryAttribute(entries[last]) == Trap(fault);
      forall j | 0 <= j < last ensures EntryAttribute(entries[j]).Ok? {
        assert entries[j] == init[j];
      }
    }
  }

  /** `attributeArray()`: no attributes at all gives the empty list. */
  function AttributeArrayOf(n: Node): Result<seq<SwiftAttribute>> {
    if n.attributes.None? then Ok([]) else AttributesOf(n.attributes.value)
  }

  lemma {:induction false} AttributesTrapPropagates(entries: seq<AttributeEntry>, k: nat)
    requires k <= |entries| && AttributesOf(entries[..k]).Trap?
    ensures AttributesOf(entries) == AttributesOf(entries[..k])
    decreases |entries| - k
  {
    if k < |entries| {
      assert entries[..k + 1][..k] == entries[..k];
      AttributesTrapPropagates(entries, k + 1);
    } else {
      assert entries[..k] == entries;
    }
  }

  /** The loop of `attributeArray`: one attribute appended per entry. */
  method AttributeArray(n: Node) returns (r: Result<seq<SwiftAttribute>>)
    ensures r == AttributeArrayOf(n)
  {
    var myAttributes: seq<SwiftAttribute> := [];
    if n.attributes.Some? {
      var entries := n.attributes.value;
      for i := 0 to |entries|
        invariant AttributesOf(entries[..i]) == Ok(myAttributes)
      {
        assert entries[..i + 1][..i] == entries[..i];
        if entries[i].OtherEntries? {
          AttributesTrapPropagates(entries, i + 1);
          return Trap(NotStringDictionary);
        }
        var attributeDict := entries[i].attribute;
        if attributeDict.None? {
          AttributesTrapPropagates(entries, i + 1);
          return Trap(MissingAttributeKey);
        }
        var attribute := FromRawValue(attributeDict.value);
        if attribute.None? {
          AttributesTrapPropagates(entries, i + 1);
          return Trap(UnknownAttribute(attributeDict.value));
        }
        myAttributes := myAttributes + [attribute.value];
      }
      assert entries[..|entries|] == entries;
    }
    return Ok(myAttributes);
  }

  // Signature reconstruction.

  /** `takesNoArguments()`: the selector name ends in "()". */
  predicate TakesNoArguments(name: string) {
    HasSuffix(name, "()")
  }

  /** One rebuilt argument: the label, the parameter's own name when it differs, then its type. */
  function Entry(argumentLabel: string, internalName: string, typename: string): string {
    argumentLabel + (if argumentLabel != internalName then " " + internalName else "") + ": " + typename
  }

  /** The argument at position `idx`, read from the parameter child at the same position. */
  function ArgumentText(argumentLabel: string, params: seq<Node>, idx: nat): Result<string> {
    if idx >= |params| then Trap(MissingParameter(idx))
    else
      var internalName :- Need(params[idx].name, MissingName);
      var typename :- Need(params[idx].typename, MissingTypename);
      Ok(Entry(argumentLabel, internalName, typename))
  }

  /** What the loop of `functionComplexString` has appended after the given labels: each argument and ", ". */
  function ArgumentsText(labels: seq<string>, params: seq<Node>): Result<string>
    decreases |labels|
  {
    if |labels| == 0 then Ok("")
    else
      var init :- ArgumentsText(labels[..|labels| - 1], params);
      var arg :- ArgumentText(labels[|labels| - 1], params, |labels| - 1);
      Ok(init + arg + ", ")
  }

  /** The labels of a selector: the text after the first "(", less its last two characters, cut at ":". */
  function SelectorLabels(name: string): Option<seq<string>> {
    var signature := Split(name, '(');
    if |signature| < 2 then None else Some(Split(DropLast(signature[1], 2), ':'))
  }

  /** `functionComplexString()` for a selector name and the method's children. */
  function ComplexSignature(name: string, params: seq<Node>): Result<string> {
    var signature := Split(name, '(');
    if |signature| < 2 then Trap(NoArgumentList)
    else
      var labels := Split(DropLast(signature[1], 2), ':');
      var args :- ArgumentsText(labels, params);
      Ok(signature[0] + (DropLast("(" + args, 2) + ")"))
  }

  /** `functionString()`: nil when the method takes arguments but has no children to read them from. */
  function SignatureOf(n: Node): (r: Result<Option<string>>)
    ensures n.name.None? ==> r == Trap(MissingName)
    ensures n.name.Some? && TakesNoArguments(n.name.value) ==> r == Ok(Some(n.name.value))
    ensures r == Ok(None) <==> n.name.Some? && !TakesNoArguments(n.name.value) && n.substructure.None?
  {
    var name :- Need(n.name, MissingName);
    if TakesNoArguments(name) then Ok(Some(name))
    else if n.substructure.Some? then
      var signature :- ComplexSignature(name, n.substructure.value);
      Ok(Some(signature))
    else Ok(None)
  }

  lemma {:induction false} ArgumentsTrapPropagates(labels: seq<string>, params: seq<Node>, k: nat)
    requires k <= |labels| && ArgumentsText(labels[..k], params).Trap?
    ensures ArgumentsText(labels, params) == ArgumentsText(labels[..k], params)
    decreases |labels| - k
  {
    if k < |labels| {
      assert labels[..k + 1][..k] == labels[..k];
      ArgumentsTrapPropagates(labels, params, k + 1);
    } else {
      assert labels[..k] == labels;
    }
  }

  /** One round of the loop below appends one entry and ", " to what it had built. */
  lemma ArgumentStep(prev: string, argumentLabel: string, internalName: string, typename: string)
    ensures (if argumentLabel != internalName then "(" + prev + argumentLabel + " " + internalName
             else "(" + prev + argumentLabel) + ": " + typename + ", "
      == "(" + (prev + Entry(argumentLabel, internalName, typename) + ", ")
  {
    var rename := if argumentLabel != internalName then " " + internalName else "";
    var e := Entry(argumentLabel, internalName, typename);
    assert e == argumentLabel + rename + ": " + typename;
    if argumentLabel != internalName {
      Append3("(" + prev + argumentLabel, " ", internalName);
    } else {
      assert argumentLabel + rename == argumentLabel;
    }
    var x := "(" + prev + (argumentLabel + rename);
    Append3("(" + prev, argumentLabel, rename);
    Append3(x, ": ", typename);
    Append3(x + (": " + typename), ", ", "");
    assert x + ": " + typename + ", " == "(" + prev + (e + ", ");
    Append3("(", prev, e + ", ");
    Append3(prev, e, ", ");
  }

  /** The loop of `functionComplexString`, which builds the argument list with `+=`. */
  method FunctionComplexString(n: Node) returns (r: Result<string>)
    requires n.name.Some? && n.substructure.Some?
    ensures r == ComplexSignature(n.name.value, n.substructure.value)
  {
    var name := n.name.value;
    var params := n.substructure.value;
    var signature := Split(name, '(');
    if |signature| < 2 {
      return Trap(NoArgumentList);
    }
    var arguments := Split(DropLast(signature[1], 2), ':');
    var completeArguments := "(";
    for idx := 0 to |arguments|
      invariant ArgumentsText(arguments[..idx], params).Ok?
      invariant completeArguments == "(" + ArgumentsText(arguments[..idx], params).value
    {
      assert arguments[..idx + 1][..idx] == arguments[..idx];
      ghost var prev := ArgumentsText(arguments[..idx], params).value;
      var argument := arguments[idx];
      completeArguments := completeArguments + argument;
      if idx >= |params| {
        ArgumentsTrapPropagates(arguments, params, idx + 1);
        return Trap(MissingParameter(idx));
      }
      var internalArgument := params[idx];
      if internalArgument.name.None? {
        ArgumentsTrapPropagates(arguments, params, idx + 1);
        return Trap(MissingName);
      }
      var internalArgumentName := internalArgument.name.value;
      if argument != internalArgumentName {
        completeArguments := completeArguments + " " + internalArgumentName;
      }
      if internalArgument.typename.None? {
        ArgumentsTrapPropagates(arguments, params, idx + 1);
        return Trap(MissingTypename);
      }
      ArgumentStep(prev, argument, internalArgumentName, internalArgument.typename.value);
      completeArguments := completeArguments + ": " + internalArgument.typename.value + ", ";
    }
    assert arguments[..|arguments|] == arguments;
    completeArguments := DropLast(completeArguments, 2) + ")";
    return Ok(signature[0] + completeArguments);
  }

  /** `functionString()` as the source runs it, calling the loop above. */
  method FunctionString(n: Node) returns (r: Result<Option<string>>)
    ensures r == SignatureOf(n)
  {
    if n.name.None? {
      return Trap(MissingName);
    }
    if TakesNoArguments(n.name.value) {
      return Ok(Some(n.name.value));
    } else if n.substructure.Some? {
      var complex := FunctionComplexString(n);
      if complex.Trap? {
        return Trap(complex.fault);
      }
      return Ok(Some(complex.value));
    }
    return Ok(None);
  }

  // What the reconstruction promises.

  /** The selector name the indexer gives a method with arguments: `base(l1:l2:…:ln:)`. */
  function SelectorName(base: string, labels: seq<string>): string {
    base + "(" + Join(labels, ":") + ":)"
  }

  /** The first |labels| children each carry a name and a type. */
  predicate ParametersCover(labels: seq<string>, params: seq<Node>) {
    |labels| <= |params| &&
    forall i :: 0 <= i < |labels| ==> params[i].name.Some? && params[i].typename.Some?
  }

  /** The argument entries as one would write them, label i paired with child i. */
  function ArgumentEntries(labels: seq<string>, params: seq<Node>): (r: seq<string>)
    requires ParametersCover(labels, params)
    ensures |r| == |labels|
    decreases |labels|
  {
    if |labels| == 0 then []
    else
      var k := |labels| - 1;
      ArgumentEntries(labels[..k], params) + [Entry(labels[k], params[k].name.value, params[k].typename.value)]
  }

  /** Every argument read succeeds when the children cover the labels, and the loop leaves each entry followed by ", ". */
  lemma {:induction false} ArgumentsTextCovered(labels: seq<string>, params: seq<Node>)
    requires ParametersCover(labels, params)
    ensures ArgumentsText(labels, params) == Ok(Terminated(ArgumentEntries(labels, params), ", "))
    decreases |labels|
  {
    if |labels| > 0 {
      var k := |labels| - 1;
      ArgumentsTextCovered(labels[..k], params);
      var entries := ArgumentEntries(labels, params);
      assert entries[..k] == ArgumentEntries(labels[..k], params);
    }
  }

  /** Fewer children than labels stops the script at the first missing position. */
  lemma {:induction false} FewerParametersTrap(labels: seq<string>, params: seq<Node>)
    requires |params| < |labels|
    requires ParametersCover(labels[..|params|], params)
    ensures ArgumentsText(labels, params) == Trap(MissingParameter(|params|))
  {
    var p := |params|;
    ArgumentsTextCovered(labels[..p], params);
    assert labels[..p + 1][..p] == labels[..p];
    assert ArgumentsText(labels[..p + 1], params) == Trap(MissingParameter(p));
    ArgumentsTrapPropagates(labels, params, p + 1);
  }

  /** What follows the "(" of a selector name holds no other "(". */
  lemma RestFree(labels: seq<string>)
    requires forall i :: 0 <= i < |labels| ==> '(' !in labels[i]
    ensures '(' !in Join(labels, ":") + ":)"
  {
    JoinFree(labels, ':', '(');
    assert '(' !in ":)";
  }

  /** A selector name splits at "(" into its base and the labels with their closing ":)". */
  lemma SelectorSplit(base: string, labels: seq<string>)
    requires '(' !in base
    requires forall i :: 0 <= i < |labels| ==> '(' !in labels[i]
    ensures Split(SelectorName(base, labels), '(') == [base, Join(labels, ":") + ":)"]
  {
    RestFree(labels);
    Append3(base + "(", Join(labels, ":"), ":)");
    SplitTwo(base, Join(labels, ":") + ":)", '(');
  }

  /** Dropping the closing ":)" and splitting at ":" gives the labels back. */
  lemma LabelsRoundTrip(labels: seq<string>)
    requires |labels| >= 1 && forall i :: 0 <= i < |labels| ==> ':' !in labels[i]
    ensures Split(DropLast(Join(labels, ":") + ":)", 2), ':') == labels
  {
    var joined := Join(labels, ":");
    assert DropLast(joined + ":)", 2) == joined;
    SplitJoin(labels, ':');
  }

  /** The parts of a selector name: the base before "(", the labels between "(" and ":)". */
  lemma SelectorLabelsOf(base: string, labels: seq<string>)
    requires '(' !in base
    requires |labels| >= 1 && forall i :: 0 <= i < |labels| ==> '(' !in labels[i] && ':' !in labels[i]
    ensures Split(SelectorName(base, labels), '(') == [base, Join(labels, ":") + ":)"]
    ensures SelectorLabels(SelectorName(base, labels)) == Some(labels)
    ensures !TakesNoArguments(SelectorName(base, labels))
  {
    SelectorSplit(base, labels);
    LabelsRoundTrip(labels);
    var name := SelectorName(base, labels);
    assert name[|name| - 2] == ':';
  }

  /**
   * The rebuilt signature of a method `base(l1:…:ln:)` is `base(e1, …, en)`, where
   * entry i is the label, then the i-th child's name only when it differs from the
   * label, then ": " and the child's type.
   */
  lemma SignatureFromSelector(base: string, labels: seq<string>, params: seq<Node>)
    requires '(' !in base
    requires |labels| >= 1 && forall i :: 0 <= i < |labels| ==> '(' !in labels[i] && ':' !in labels[i]
    requires ParametersCover(labels, params)
    ensures ComplexSignature(SelectorName(base, labels), params)
      == Ok(base + "(" + Join(ArgumentEntries(labels, params), ", ") + ")")
  {
    SelectorSplit(base, labels);
    LabelsRoundTrip(labels);
    ArgumentsTextCovered(labels, params);
    var entries := ArgumentEntries(labels, params);
    var t := Terminated(entries, ", ");
    ComplexSignatureOf(SelectorName(base, labels), params, base, Join(labels, ":") + ":)", t);
    TerminatedDropLast(entries, ", ");
    CloseArgumentList(base, t, Join(entries, ", "));
  }

  /** `functionComplexString` once the name is split and every argument read. */
  lemma ComplexSignatureOf(name: string, params: seq<Node>, base: string, rest: string, args: string)
    requires Split(name, '(') == [base, rest]
    requires ArgumentsText(Split(DropLast(rest, 2), ':'), params) == Ok(args)
    ensures ComplexSignature(name, params) == Ok(base + (DropLast("(" + args, 2) + ")"))
  {
  }

  /** Dropping the loop's final ", " and closing the parenthesis. */
  lemma CloseArgumentList(base: string, t: string, j: string)
    requires |t| >= 2 && DropLast(t, 2) == j
    ensures base + (DropLast("(" + t, 2) + ")") == base + "(" + j + ")"
  {
    assert DropLast("(" + t, 2) == "(" + j;
  }

  /** A fileprivate method node named `name` whose children are the given parameters. */
  function MethodNode(name: string, params: seq<Node>): Node {
    Node(MethodInstanceKind, Some(name), Some(FilePrivateLevel), None, Some(params), None)
  }

  /** A parameter child with its internal name and type. */
  function ParameterNode(name: string, typename: string): Node {
    Node("source.lang.swift.decl.var.parameter", Some(name), None, Some(typename), None, None)
  }

  /** A fileprivate method with one argument: its signature is `base(label: Type)` or `base(label name: Type)`. */
  lemma OneArgumentSignature(base: string, argumentLabel: string, internalName: string, typename: string)
    requires '(' !in base && '(' !in argumentLabel && ':' !in argumentLabel
    ensures SignatureOf(MethodNode(SelectorName(base, [argumentLabel]), [ParameterNode(internalName, typename)]))
      == Ok(Some(base + "(" + Entry(argumentLabel, internalName, typename) + ")"))
  {
    var params := [ParameterNode(internalName, typename)];
    SelectorLabelsOf(base, [argumentLabel]);
    SignatureFromSelector(base, [argumentLabel], params);
    assert ArgumentEntries([argumentLabel], params) == [Entry(argumentLabel, internalName, typename)];
  }

  /** `foo(bar:)` whose parameter is also called `bar` rebuilds as `foo(bar: T)`, the name not repeated. */
  lemma SameNameSignature(base: string, argumentLabel: string, typename: string)
    requires '(' !in base && '(' !in argumentLabel && ':' !in argumentLabel
    ensures SignatureOf(MethodNode(SelectorName(base, [argumentLabel]), [ParameterNode(argumentLabel, typename)]))
      == Ok(Some(base + "(" + (argumentLabel + ": " + typename) + ")"))
  {
    OneArgumentSignature(base, argumentLabel, argumentLabel, typename);
    assert argumentLabel + "" == argumentLabel;
  }

  /** `foo(bar:)` whose parameter is called `value` rebuilds as `foo(bar value: T)`. */
  lemma DistinctNameSignature(base: string, argumentLabel: string, internalName: string, typename: string)
    requires '(' !in base && '(' !in argumentLabel && ':' !in argumentLabel
    requires internalName != argumentLabel
    ensures SignatureOf(MethodNode(SelectorName(base, [argumentLabel]), [ParameterNode(internalName, typename)]))
      == Ok(Some(base + "(" + (argumentLabel + " " + internalName + ": " + typename) + ")"))
  {
    OneArgumentSignature(base, argumentLabel, internalName, typename);
    Append3(argumentLabel, " ", internalName);
  }
}
