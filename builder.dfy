/**
 * The builder: the walk over the indexer's tree that turns a source file into a
 * `ProgenitorFile`. The top level keeps each class and struct whose name does not
 * start with `Test`; inside a class, one loop classifies each member and collects
 * fileprivate variables (including the two-part "chain" form `fileprivate var x =
 * Type()`), fileprivate methods and fileprivate nested structs.
 */
module Builder {
  import opened Structure
  import opened Strings
  import opened Particulate
  import opened Progenitor

  // Selecting the nodes of a kind, in order: the reference the scans are compared with.

  function Select(xs: seq<Node>, keep: Node -> bool): (r: seq<Node>)
    ensures |r| <= |xs|
    ensures forall i :: 0 <= i < |r| ==> keep(r[i]) && r[i] in xs
    decreases |xs|
  {
    if |xs| == 0 then []
    else
      var init := Select(xs[..|xs| - 1], keep);
      if keep(xs[|xs| - 1]) then init + [xs[|xs| - 1]] else init
  }

  /** Selecting from a list nothing of which is kept gives nothing. */
  lemma {:induction false} SelectNone(xs: seq<Node>, keep: Node -> bool)
    requires forall i :: 0 <= i < |xs| ==> !keep(xs[i])
    ensures Select(xs, keep) == []
    decreases |xs|
  {
    if |xs| > 0 {
      SelectNone(xs[..|xs| - 1], keep);
    }
  }

  // findVariablesFromStruct

  /**
   * One child of a struct read as a variable: the name, the type and the attributes
   * are each force-unwrapped, in that order.
   */
  function FieldOf(item: Node): (r: Result<ProgenitorVariable>)
    ensures r.Ok? <==> item.name.Some? && item.typename.Some? && AttributeArrayOf(item).Ok?
    ensures r.Ok? ==> r.value == ProgenitorVariable(item.name.value, item.typename.value, AttributeArrayOf(item).value)
    ensures r.Trap? && item.name.None? ==> r.fault == MissingName
    ensures r.Trap? && item.name.Some? && item.typename.None? ==> r.fault == MissingTypename
  {
    var name :- Need(item.name, MissingName);
    var typename :- Need(item.typename, MissingTypename);
    var attributes :- AttributeArrayOf(item);
    Ok(ProgenitorVariable(name, typename, attributes))
  }

  /** Every child read as a variable, in order; the first child that cannot be read stops the script. */
  function FieldsOf(items: seq<Node>): (r: Result<seq<ProgenitorVariable>>)
    ensures r.Ok? <==> forall i :: 0 <= i < |items| ==> FieldOf(items[i]).Ok?
    ensures r.Ok? ==> |r.value| == |items| && forall i :: 0 <= i < |items| ==> FieldOf(items[i]) == Ok(r.value[i])
    decreases |items|
  {
    if |items| == 0 then Ok([])
    else
      var init :- FieldsOf(items[..|items| - 1]);
      var last :- FieldOf(items[|items| - 1]);
      Ok(init + [last])
  }

  /** The fault that stops the reading is that of the first child that cannot be read. */
  lemma {:induction false} FieldsTrapAtFirst(items: seq<Node>)
    requires FieldsOf(items).Trap?
    ensures exists i :: (0 <= i < |items| && FieldOf(items[i]) == Trap(FieldsOf(items).fault)
      && forall j :: 0 <= j < i ==> FieldOf(items[j]).Ok?)
    decreases |items|
  {
    var init := items[..|items| - 1];
    var last := |items| - 1;
    if FieldsOf(init).Trap? {
      FieldsTrapAtFirst(init);
      var i :| 0 <= i < |init| && FieldOf(init[i]) == Trap(FieldsOf(init).fault)
        && forall j :: 0 <= j < i ==> FieldOf(init[j]).Ok?;
      assert FieldOf(items[i]) == Trap(FieldsOf(items).fault);
      assert forall j :: 0 <= j < i ==> FieldOf(items[j]).Ok? by {
        forall j | 0 <= j < i ensures FieldOf(items[j]).Ok? {
          assert items[j] == init[j];
        }
      }
    } else {
      assert forall j :: 0 <= j < last ==> FieldOf(items[j]).Ok? by {
        forall j | 0 <= j < last ensures FieldOf(items[j]).Ok? {
          assert items[j] == init[j];
        }
      }
      assert FieldOf(items[last]) == Trap(FieldsOf(items).fault);
    }
  }

  lemma {:induction false} FieldsTrapPropagates(items: seq<Node>, k: nat)
    requires k <= |items| && FieldsOf(items[..k]).Trap?
    ensures FieldsOf(items) == FieldsOf(items[..k])
    decreases |items| - k
  {
    if k < |items| {
      assert items[..k + 1][..k] == items[..k];
      FieldsTrapPropagates(items, k + 1);
    } else {
      assert items[..k] == items;
    }
  }

  /** `findVariablesFromStruct`: a struct without children stops the script. */
  function StructVariablesOf(n: Node): (r: Result<seq<ProgenitorVariable>>)
    ensures n.substructure.None? ==> r == Trap(MissingSubstructure)
    ensures n.substructure.Some? ==> r == FieldsOf(n.substructure.value)
  {
    var items :- Need(n.substructure, MissingSubstructure);
    FieldsOf(items)
  }

  method FindVariablesFromStruct(n: Node) returns (r: Result<seq<ProgenitorVariable>>)
    ensures r == StructVariablesOf(n)
  {
    if n.substructure.None? {
      return Trap(MissingSubstructure);
    }
    var items := n.substructure.value;
    var variables: seq<ProgenitorVariable> := [];
    for i := 0 to |items|
      invariant FieldsOf(items[..i]) == Ok(variables)
    {
      assert items[..i + 1][..i] == items[..i];
      var item := items[i];
      if item.name.None? {
        FieldsTrapPropagates(items, i + 1);
        return Trap(MissingName);
      }
      if item.typename.None? {
        FieldsTrapPropagates(items, i + 1);
        return Trap(MissingTypename);
      }
      var attributes := AttributeArray(item);
      if attributes.Trap? {
        FieldsTrapPropagates(items, i + 1);
        return Trap(attributes.fault);
      }
      variables := variables + [ProgenitorVariable(item.name.value, item.typename.value, attributes.value)];
    }
    assert items[..|items|] == items;
    return Ok(variables);
  }

  // The member loop of one class.

  predicate IsFilePrivateVariable(m: Node) { IsInstanceVariable(m) && IsFilePrivate(m) }

  predicate IsFilePrivateMethod(m: Node) { IsFilePrivate(m) && IsMethodInstance(m) }

  predicate IsFilePrivateStruct(m: Node) { IsFilePrivate(m) && IsStruct(m) }

  /** A fileprivate variable without a written type: the first half of a chain definition. */
  predicate IsChainStart(m: Node) { IsFilePrivateVariable(m) && m.typename.None? }

  /** A fileprivate variable with a written type. */
  predicate IsTypedVariable(m: Node) { IsFilePrivateVariable(m) && m.typename.Some? }

  /**
   * What the loop carries from one member to the next: the three lists it builds and
   * the first half of a chain definition still waiting for its call.
   */
  datatype MemberScan = MemberScan(
    variables: seq<ProgenitorVariable>,
    functions: seq<ProgenitorFunction>,
    structs: seq<ProgenitorStruct>,
    previous: Option<Node>)

  const EmptyScan := MemberScan([], [], [], None)

  /**
   * A chain definition `fileprivate var x = Type()`: the variable's name, the call's
   * name as its type, and the variable's attributes.
   */
  function ChainedVariable(start: Node, call: Node): (r: Result<ProgenitorVariable>)
    ensures r.Ok? <==> start.name.Some? && call.name.Some? && AttributeArrayOf(start).Ok?
    ensures r.Ok? ==> r.value == ProgenitorVariable(start.name.value, call.name.value, AttributeArrayOf(start).value)
  {
    var name :- Need(start.name, MissingName);
    var typename :- Need(call.name, MissingName);
    var attributes :- AttributeArrayOf(start);
    Ok(ProgenitorVariable(name, typename, attributes))
  }

  /** A fileprivate method: its rebuilt signature (which must exist) and its attributes. */
  function FunctionOf(m: Node): (r: Result<ProgenitorFunction>)
    ensures r.Ok? <==> SignatureOf(m).Ok? && SignatureOf(m).value.Some? && AttributeArrayOf(m).Ok?
    ensures r.Ok? ==> r.value == ProgenitorFunction(SignatureOf(m).value.value, AttributeArrayOf(m).value)
    ensures SignatureOf(m) == Ok(None) ==> r == Trap(NoSignature)
  {
    var signature :- SignatureOf(m);
    var functionName :- Need(signature, NoSignature);
    var attributes :- AttributeArrayOf(m);
    Ok(ProgenitorFunction(functionName, attributes))
  }

  /** A fileprivate nested struct: its name and its fields. */
  function StructOf(m: Node): (r: Result<ProgenitorStruct>)
    ensures r.Ok? <==> m.name.Some? && StructVariablesOf(m).Ok?
    ensures r.Ok? ==> r.value == ProgenitorStruct(m.name.value, StructVariablesOf(m).value)
  {
    var name :- Need(m.name, MissingName);
    var fields :- StructVariablesOf(m);
    Ok(ProgenitorStruct(name, fields))
  }

  /** One round of the member loop. */
  function ScanMember(s: MemberScan, m: Node): Result<MemberScan> {
    if CanBeIgnored(m, s.previous) then Ok(s)
    else if IsFilePrivateVariable(m) then
      if m.typename.Some? then
        var v :- FieldOf(m);
        Ok(s.(variables := s.variables + [v], previous := None))
      else
        // the message announcing the first half force-unwraps the name
        var name :- Need(m.name, MissingName);
        Ok(s.(previous := Some(m)))
    else if IsMethodCall(m) && s.previous.Some? then
      var v :- ChainedVariable(s.previous.value, m);
      Ok(s.(variables := s.variables + [v], previous := None))
    else if IsFilePrivateMethod(m) then
      var f :- FunctionOf(m);
      Ok(s.(functions := s.functions + [f]))
    else if IsFilePrivateStruct(m) then
      var st :- StructOf(m);
      Ok(s.(structs := s.structs + [st]))
    else
      // the fall-through case only prints the member
      Ok(s)
  }

  /** The member loop over a class's children, from the empty state. */
  function ScanMembers(members: seq<Node>): Result<MemberScan>
    decreases |members|
  {
    if |members| == 0 then Ok(EmptyScan)
    else
      var s :- ScanMembers(members[..|members| - 1]);
      ScanMember(s, members[|members| - 1])
  }

  lemma {:induction false} ScanTrapPropagates(members: seq<Node>, k: nat)
    requires k <= |members| && ScanMembers(members[..k]).Trap?
    ensures ScanMembers(members) == ScanMembers(members[..k])
    decreases |members| - k
  {
    if k < |members| {
      assert members[..k + 1][..k] == members[..k];
      ScanTrapPropagates(members, k + 1);
    } else {
      assert members[..k] == members;
    }
  }

  /** The body of the member loop, on the state it carries. */
  method AnalyseMember(s: MemberScan, particulate: Node) returns (r: Result<MemberScan>)
    ensures r == ScanMember(s, particulate)
  {
    var previous := s.previous;
    if CanBeIgnored(particulate, previous) {
      return Ok(s);
    }
    if IsInstanceVariable(particulate) && IsFilePrivate(particulate) {
      if particulate.typename.Some? {
        var explicitType := particulate.typename.value;
        if particulate.name.None? {
          return Trap(MissingName);
        }
        var attributes := AttributeArray(particulate);
        if attributes.Trap? {
          return Trap(attributes.fault);
        }
        var v := ProgenitorVariable(particulate.name.value, explicitType, attributes.value);
        return Ok(s.(variables := s.variables + [v], previous := None));
      } else {
        if particulate.name.None? {
          return Trap(MissingName);
        }
        return Ok(s.(previous := Some(particulate)));
      }
    } else if IsMethodCall(particulate) && previous.Some? {
      var start := previous.value;
      if start.name.None? || particulate.name.None? {
        return Trap(MissingName);
      }
      var attributes := AttributeArray(start);
      if attributes.Trap? {
        return Trap(attributes.fault);
      }
      var v := ProgenitorVariable(start.name.value, particulate.name.value, attributes.value);
      return Ok(s.(variables := s.variables + [v], previous := None));
    } else if IsFilePrivate(particulate) && IsMethodInstance(particulate) {
      var functionName := FunctionString(particulate);
      if functionName.Trap? {
        return Trap(functionName.fault);
      }
      if functionName.value.None? {
        return Trap(NoSignature);
      }
      var attributes := AttributeArray(particulate);
      if attributes.Trap? {
        return Trap(attributes.fault);
      }
      var f := ProgenitorFunction(functionName.value.value, attributes.value);
      return Ok(s.(functions := s.functions + [f]));
    } else if IsFilePrivate(particulate) && IsStruct(particulate) {
      if particulate.name.None? {
        return Trap(MissingName);
      }
      var fields := FindVariablesFromStruct(particulate);
      if fields.Trap? {
        return Trap(fields.fault);
      }
      return Ok(s.(structs := s.structs + [ProgenitorStruct(particulate.name.value, fields.value)]));
    }
    return Ok(s);
  }

  /** The member loop of `createShadowFile` for one class. */
  method AnalyseMembers(members: seq<Node>) returns (r: Result<MemberScan>)
    ensures r == ScanMembers(members)
  {
    var scan := EmptyScan;
    for i := 0 to |members|
      invariant ScanMembers(members[..i]) == Ok(scan)
    {
      assert members[..i + 1][..i] == members[..i];
      var step := AnalyseMember(scan, members[i]);
      if step.Trap? {
        ScanTrapPropagates(members, i + 1);
        return step;
      }
      scan := step.value;
    }
    assert members[..|members|] == members;
    return Ok(scan);
  }

  // What the member loop promises.

  /** A first half is waiting only after a named fileprivate variable without a written type. */
  lemma {:induction false} PendingIsChainStart(members: seq<Node>)
    requires ScanMembers(members).Ok? && ScanMembers(members).value.previous.Some?
    ensures var p := ScanMembers(members).value.previous.value;
      IsChainStart(p) && p.name.Some? && p in members
    decreases |members|
  {
    var init := members[..|members| - 1];
    var s := ScanMembers(init).value;
    var m := members[|members| - 1];
    if ScanMembers(members).value.previous == s.previous {
      PendingIsChainStart(init);
    }
  }

  /** One member appends to the lists and never rewrites them. */
  lemma StepGrows(s: MemberScan, m: Node)
    requires ScanMember(s, m).Ok?
    ensures var t := ScanMember(s, m).value;
      s.variables <= t.variables && s.functions <= t.functions && s.structs <= t.structs
  {
  }

  /** The lists only grow: what the loop has built after k members begins what it builds in all. */
  lemma {:induction false} ScanGrows(members: seq<Node>, k: nat)
    requires k <= |members| && ScanMembers(members).Ok?
    ensures ScanMembers(members[..k]).Ok?
    ensures var a, b := ScanMembers(members[..k]).value, ScanMembers(members).value;
      a.variables <= b.variables && a.functions <= b.functions && a.structs <= b.structs
    decreases |members|
  {
    if k == |members| {
      assert members[..k] == members;
    } else {
      var init := members[..|members| - 1];
      assert init[..k] == members[..k];
      StepGrows(ScanMembers(init).value, members[|members| - 1]);
      ScanGrows(init, k);
    }
  }

  /** The functions captured are those of the fileprivate methods, one each, in order. */
  lemma {:induction false} FunctionsAreFilePrivateMethods(members: seq<Node>)
    requires ScanMembers(members).Ok?
    ensures var s := ScanMembers(members).value; var ms := Select(members, IsFilePrivateMethod);
      |s.functions| == |ms| && forall i :: 0 <= i < |ms| ==> FunctionOf(ms[i]) == Ok(s.functions[i])
    decreases |members|
  {
    if |members| > 0 {
      var init := members[..|members| - 1];
      FunctionsAreFilePrivateMethods(init);
    }
  }

  /** The nested structs captured are the fileprivate structs, one each, in order. */
  lemma {:induction false} StructsAreFilePrivateStructs(members: seq<Node>)
    requires ScanMembers(members).Ok?
    ensures var s := ScanMembers(members).value; var ms := Select(members, IsFilePrivateStruct);
      |s.structs| == |ms| && forall i :: 0 <= i < |ms| ==> StructOf(ms[i]) == Ok(s.structs[i])
    decreases |members|
  {
    if |members| > 0 {
      var init := members[..|members| - 1];
      StructsAreFilePrivateStructs(init);
    }
  }

  /**
   * Without chain definitions, no first half is ever waiting, calls are ignored, and
   * the variables captured are the typed fileprivate variables, one each, in order.
   */
  lemma {:induction false} TypedVariablesOnly(members: seq<Node>)
    requires forall i :: 0 <= i < |members| ==> !IsChainStart(members[i])
    requires ScanMembers(members).Ok?
    ensures var s := ScanMembers(members).value; var vs := Select(members, IsTypedVariable);
      s.previous.None? && |s.variables| == |vs| && forall i :: 0 <= i < |vs| ==> FieldOf(vs[i]) == Ok(s.variables[i])
    decreases |members|
  {
    if |members| > 0 {
      var init := members[..|members| - 1];
      TypedVariablesOnly(init);
    }
  }

  /**
   * A call while a first half waits, whatever came in between, adds one variable:
   * the waiting variable's name and attributes, typed by the call's name. It then
   * leaves nothing waiting.
   */
  lemma PendingCallResolves(pre: seq<Node>, call: Node)
    requires ScanMembers(pre).Ok? && ScanMembers(pre).value.previous.Some? && IsMethodCall(call)
    ensures var s := ScanMembers(pre).value; var v := ChainedVariable(s.previous.value, call);
      ScanMembers(pre + [call]) ==
        if v.Trap? then Trap(v.fault) else Ok(s.(variables := s.variables + [v.value], previous := None))
  {
    assert (pre + [call])[..|pre|] == pre;
  }

  /**
   * A chain definition: a named fileprivate variable without a written type followed
   * by a call adds one variable, typed by the call's name, and leaves nothing waiting.
   */
  lemma ChainDefinition(pre: seq<Node>, start: Node, call: Node)
    requires ScanMembers(pre).Ok?
    requires IsChainStart(start) && start.name.Some? && IsMethodCall(call)
    ensures var s := ScanMembers(pre).value;
      ScanMembers(pre + [start, call]) ==
        if ChainedVariable(start, call).Trap? then Trap(ChainedVariable(start, call).fault)
        else Ok(s.(variables := s.variables + [ChainedVariable(start, call).value], previous := None))
  {
    ChainRestart(pre, start);
    PendingCallResolves(pre + [start], call);
    assert pre + [start] + [call] == pre + [start, call];
  }

  /** A later first half replaces a waiting one. */
  lemma ChainRestart(pre: seq<Node>, start: Node)
    requires ScanMembers(pre).Ok?
    requires IsChainStart(start) && start.name.Some?
    ensures ScanMembers(pre + [start]) == Ok(ScanMembers(pre).value.(previous := Some(start)))
  {
    assert (pre + [start])[..|pre|] == pre;
  }

  /**
   * A fileprivate variable with a written type adds exactly one variable (its name,
   * type and attributes) and clears any waiting first half.
   */
  lemma TypedVariableClears(pre: seq<Node>, m: Node)
    requires ScanMembers(pre).Ok? && IsTypedVariable(m)
    ensures var s := ScanMembers(pre).value;
      ScanMembers(pre + [m]) ==
        if FieldOf(m).Trap? then Trap(FieldOf(m).fault)
        else Ok(s.(variables := s.variables + [FieldOf(m).value], previous := None))
  {
    assert (pre + [m])[..|pre|] == pre;
  }

  /** A call with nothing waiting is skipped and changes nothing. */
  lemma LoneCallSkipped(s: MemberScan, m: Node)
    requires IsMethodCall(m) && s.previous.None?
    ensures ScanMember(s, m) == Ok(s)
  {
  }

  /**
   * While a first half waits, a member that is neither a fileprivate variable nor a call
   * leaves it waiting: only the call or another fileprivate variable ends the wait.
   */
  lemma PendingSurvives(s: MemberScan, m: Node)
    requires s.previous.Some? && !IsFilePrivateVariable(m) && !IsMethodCall(m)
    requires ScanMember(s, m).Ok?
    ensures ScanMember(s, m).value.previous == s.previous
    ensures ScanMember(s, m).value.variables == s.variables
    ensures !IsMarkComment(m) && !IsComputedProperty(m) ==> !CanBeIgnored(m, s.previous)
  {
  }

  // The top-level loop of `createShadowFile`.

  /** What the top-level loop builds: the classes and the top-level structs. */
  datatype FileScan = FileScan(classes: seq<ProgenitorClass>, structs: seq<ProgenitorStruct>)

  /** A class or struct that is analysed: named, and not already a test type. */
  predicate IsAnalysedClass(e: Node) {
    IsClass(e) && e.name.Some? && !HasPrefix(e.name.value, TestClassPrefix)
  }

  predicate IsAnalysedStruct(e: Node) {
    !IsClass(e) && IsStruct(e) && e.name.Some? && !HasPrefix(e.name.value, TestClassPrefix)
  }

  /** The class record for an analysed class: its name and the scan of its children. */
  function ClassOf(e: Node): Result<ProgenitorClass>
    requires e.name.Some?
  {
    var members :- Need(e.substructure, MissingSubstructure);
    var scan :- ScanMembers(members);
    Ok(ProgenitorClass(e.name.value, scan.variables, scan.functions, scan.structs))
  }

  /** One round of the top-level loop. */
  function ScanEntry(s: FileScan, e: Node): Result<FileScan> {
    if IsClass(e) then
      var name :- Need(e.name, MissingName);
      if HasPrefix(name, TestClassPrefix) then Ok(s)
      else
        var c :- ClassOf(e);
        Ok(s.(classes := s.classes + [c]))
    else if IsStruct(e) then
      var name :- Need(e.name, MissingName);
      if HasPrefix(name, TestClassPrefix) then Ok(s)
      else
        var st :- StructOf(e);
        Ok(s.(structs := s.structs + [st]))
    else if IsMarkComment(e) then Ok(s)
    else
      // the message for a skipped declaration force-unwraps its name
      var name :- Need(e.name, MissingName);
      Ok(s)
  }

  function ScanEntries(entries: seq<Node>): Result<FileScan>
    decreases |entries|
  {
    if |entries| == 0 then Ok(FileScan([], []))
    else
      var s :- ScanEntries(entries[..|entries| - 1]);
      ScanEntry(s, entries[|entries| - 1])
  }

  /** `createShadowFile` from the indexer's tree of one file, up to the file it would write. */
  function ShadowFileOf(root: Node, fileURL: string): Result<ProgenitorFile> {
    var entries :- Need(root.substructure, MissingSubstructure);
    var s :- ScanEntries(entries);
    Ok(ProgenitorFile(fileURL, s.classes, s.structs))
  }

  lemma {:induction false} EntriesTrapPropagates(entries: seq<Node>, k: nat)
    requires k <= |entries| && ScanEntries(entries[..k]).Trap?
    ensures ScanEntries(entries) == ScanEntries(entries[..k])
    decreases |entries| - k
  {
    if k < |entries| {
      assert entries[..k + 1][..k] == entries[..k];
      EntriesTrapPropagates(entries, k + 1);
    } else {
      assert entries[..k] == entries;
    }
  }

  method CreateShadowFile(root: Node, fileURL: string) returns (r: Result<ProgenitorFile>)
    ensures r == ShadowFileOf(root, fileURL)
  {
    if root.substructure.None? {
      return Trap(MissingSubstructure);
    }
    var fileEnclosure := root.substructure.value;
    var outerClasses: seq<ProgenitorClass> := [];
    var outerStructs: seq<ProgenitorStruct> := [];
    for i := 0 to |fileEnclosure|
      invariant ScanEntries(fileEnclosure[..i]) == Ok(FileScan(outerClasses, outerStructs))
    {
      assert fileEnclosure[..i + 1][..i] == fileEnclosure[..i];
      var unknownType := fileEnclosure[i];
      if IsClass(unknownType) {
        if unknownType.name.None? {
          EntriesTrapPropagates(fileEnclosure, i + 1);
          return Trap(MissingName);
        }
        var fileName := unknownType.name.value;
        if HasPrefix(fileName, TestClassPrefix) {
          continue;
        }
        if unknownType.substructure.None? {
          EntriesTrapPropagates(fileEnclosure, i + 1);
          return Trap(MissingSubstructure);
        }
        var scan := AnalyseMembers(unknownType.substructure.value);
        if scan.Trap? {
          EntriesTrapPropagates(fileEnclosure, i + 1);
          return Trap(scan.fault);
        }
        var progeny := ProgenitorClass(fileName, scan.value.variables, scan.value.functions, scan.value.structs);
        outerClasses := outerClasses + [progeny];
      } else if IsStruct(unknownType) {
        if unknownType.name.None? {
          EntriesTrapPropagates(fileEnclosure, i + 1);
          return Trap(MissingName);
        }
        var fileName := unknownType.name.value;
        if HasPrefix(fileName, TestClassPrefix) {
          continue;
        }
        var fields := FindVariablesFromStruct(unknownType);
        if fields.Trap? {
          EntriesTrapPropagates(fileEnclosure, i + 1);
          return Trap(fields.fault);
        }
        outerStructs := outerStructs + [ProgenitorStruct(fileName, fields.value)];
      } else {
        if IsMarkComment(unknownType) {
          continue;
        }
        if unknownType.name.None? {
          EntriesTrapPropagates(fileEnclosure, i + 1);
          return Trap(MissingName);
        }
      }
    }
    assert fileEnclosure[..|fileEnclosure|] == fileEnclosure;
    return Ok(ProgenitorFile(fileURL, outerClasses, outerStructs));
  }

  // What the top-level loop promises.

  /**
   * One class record per analysed class, in order, each holding the scan of that
   * class's children; one struct record per analysed top-level struct, in order.
   */
  lemma {:induction false} ClassesAreAnalysedClasses(entries: seq<Node>)
    requires ScanEntries(entries).Ok?
    ensures var s := ScanEntries(entries).value; var cs := Select(entries, IsAnalysedClass);
      |s.classes| == |cs| && forall i :: 0 <= i < |cs| ==> ClassOf(cs[i]) == Ok(s.classes[i])
    ensures var s := ScanEntries(entries).value; var ss := Select(entries, IsAnalysedStruct);
      |s.structs| == |ss| && forall i :: 0 <= i < |ss| ==> StructOf(ss[i]) == Ok(s.structs[i])
    decreases |entries|
  {
    if |entries| > 0 {
      var init := entries[..|entries| - 1];
      ClassesAreAnalysedClasses(init);
    }
  }

  /** No class or struct record is named like a test type, so the output is never fed back in. */
  lemma NoTestNames(entries: seq<Node>)
    requires ScanEntries(entries).Ok?
    ensures var s := ScanEntries(entries).value;
      (forall i :: 0 <= i < |s.classes| ==> !HasPrefix(s.classes[i].className, TestClassPrefix))
      && (forall i :: 0 <= i < |s.structs| ==> !HasPrefix(s.structs[i].name, TestClassPrefix))
  {
    ClassesAreAnalysedClasses(entries);
  }

  /**
   * A file whose classes and structs are all test types yields no records, and its
   * output is the "nothing found" placeholder.
   */
  lemma OnlyTestTypes(root: Node, fileURL: string)
    requires ShadowFileOf(root, fileURL).Ok?
    requires forall i :: 0 <= i < |root.substructure.value| ==>
      !IsAnalysedClass(root.substructure.value[i]) && !IsAnalysedStruct(root.substructure.value[i])
    ensures var f := ShadowFileOf(root, fileURL).value; f.classes == [] && f.structs == []
    ensures FileText(ShadowFileOf(root, fileURL).value) == EmptyFileText
  {
    var entries := root.substructure.value;
    ClassesAreAnalysedClasses(entries);
    SelectNone(entries, IsAnalysedClass);
    SelectNone(entries, IsAnalysedStruct);
    EmptyFilePlaceholder(ShadowFileOf(root, fileURL).value);
  }
}
