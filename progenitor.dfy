/**
 * The model the builder assembles (`ProgenitorFile`, `ProgenitorClass`,
 * `ProgenitorStruct`, `ProgenitorVariable`, `ProgenitorFunction`) and the text their
 * `description` getters render: one `#if TESTING` block per file holding one
 * `Test<Name>` subclass per class, with an accessor per captured variable and an
 * overriding stub per captured function.
 */
module Progenitor {
  import opened Strings
  import opened Particulate

  const TestClassPrefix := "Test"
  const TestVariablePrefix := "test_"

  datatype ProgenitorVariable = ProgenitorVariable(name: string, typeName: string, attributes: seq<SwiftAttribute>)

  datatype ProgenitorFunction = ProgenitorFunction(name: string, attributes: seq<SwiftAttribute>)

  datatype ProgenitorStruct = ProgenitorStruct(name: string, variables: seq<ProgenitorVariable>)

  datatype ProgenitorClass = ProgenitorClass(
    className: string,
    variables: seq<ProgenitorVariable>,
    functions: seq<ProgenitorFunction>,
    structs: seq<ProgenitorStruct>)

  datatype ProgenitorFile = ProgenitorFile(fileURL: string, classes: seq<ProgenitorClass>, structs: seq<ProgenitorStruct>)

  const Indent := "    "
  const CommentStart := "// "
  const FileOpening := "#if TESTING\n"

  /** The whole output for a file in which nothing was captured. */
  const EmptyFileText := FileOpening + Indent + CommentStart + "No classes or structs found within this file" + "\n#endif"

  /** The first line of every rendered class: `class Test<Name>: <Name> {`. */
  function ClassOpening(className: string): string {
    "class " + TestClassPrefix + className + ": " + className + " {\n"
  }

  /** The declaration rendered for a class with no captured member. */
  function EmptyClassText(className: string): string {
    ClassOpening(className) + Indent + CommentStart
      + "No fileprivate variables, functions, or structs found within this class" + "\n}\n"
  }

  /** The opening of a class with captured members, followed by a blank line. */
  function ClassHeader(className: string): string {
    ClassOpening(className) + "\n"
  }

  /** The words before `var` or `func`: each attribute but `override`, followed by a space. */
  function AttributePrefix(attributes: seq<SwiftAttribute>): string
    decreases |attributes|
  {
    if |attributes| == 0 then ""
    else
      var last := attributes[|attributes| - 1];
      AttributePrefix(attributes[..|attributes| - 1]) + (if last == Override then "" else CaseName(last) + " ")
  }

  /** A Swift string interpolation: its literal and interpolated segments, one after another. */
  function Interpolate(segments: seq<string>): string
    decreases |segments|
  {
    if |segments| == 0 then "" else Interpolate(segments[..|segments| - 1]) + segments[|segments| - 1]
  }

  /** A read-only accessor `test_<name>` whose getter force-casts to `Test<Name>`, left for the author to edit. */
  function VariableText(v: ProgenitorVariable): string {
    Interpolate(["    ", AttributePrefix(v.attributes), "var ", TestVariablePrefix, v.name, ": ", v.typeName,
      " { get { return ", v.name, "<# as! Test", CapitalizeFirstLetter(v.name), "#> } }\n"])
  }

  /** An overriding stub that calls the superclass and leaves the return as a placeholder. */
  function FunctionText(f: ProgenitorFunction): string {
    Interpolate(["    override ", AttributePrefix(f.attributes), "func ", f.name, "<# -> RETURNS#> {\n        super.",
      f.name, "\n        <#STUB#>\n    }\n"])
  }

  function FieldsText(vs: seq<ProgenitorVariable>): string
    decreases |vs|
  {
    if |vs| == 0 then "" else FieldsText(vs[..|vs| - 1]) + ("    " + VariableText(vs[|vs| - 1]))
  }

  /** A plain mirror of a struct: its fields, indented once more, and no accessors. */
  function StructText(s: ProgenitorStruct): string {
    Indent + "struct " + s.name + " {\n" + FieldsText(s.variables) + "    }\n"
  }

  function VariablesText(vs: seq<ProgenitorVariable>): string
    decreases |vs|
  {
    if |vs| == 0 then "" else VariablesText(vs[..|vs| - 1]) + VariableText(vs[|vs| - 1])
  }

  function FunctionsText(fs: seq<ProgenitorFunction>): string
    decreases |fs|
  {
    if |fs| == 0 then "" else FunctionsText(fs[..|fs| - 1]) + FunctionText(fs[|fs| - 1])
  }

  function StructsText(ss: seq<ProgenitorStruct>): string
    decreases |ss|
  {
    if |ss| == 0 then "" else StructsText(ss[..|ss| - 1]) + StructText(ss[|ss| - 1])
  }

  predicate HasMembers(c: ProgenitorClass) {
    |c.variables| + |c.functions| + |c.structs| != 0
  }

  /** The `Test<Name>` subclass: variables, a blank line, functions, then the nested structs after a blank line. */
  function ClassText(c: ProgenitorClass): string {
    if !HasMembers(c) then EmptyClassText(c.className) else ClassHeader(c.className) + MembersText(c)
  }

  /** What follows the header of a class with captured members, down to its closing brace. */
  function MembersText(c: ProgenitorClass): string {
    VariablesText(c.variables) + "\n" + FunctionsText(c.functions)
      + (if |c.structs| != 0 then "\n" else "") + StructsText(c.structs) + "\n}\n"
  }

  function ClassesText(cs: seq<ProgenitorClass>): string
    decreases |cs|
  {
    if |cs| == 0 then "" else ClassesText(cs[..|cs| - 1]) + ClassText(cs[|cs| - 1])
  }

  /** The whole generated text of a file: classes, then top-level structs, inside one `#if TESTING` region. */
  function FileText(f: ProgenitorFile): string {
    if |f.classes| + |f.structs| == 0 then EmptyFileText
    else FileOpening + (ClassesText(f.classes) + StructsText(f.structs) + "#endif")
  }

  // The `description` getters, which build the same text with `+=` in loops.

  method AttributeString(attributes: seq<SwiftAttribute>) returns (s: string)
    ensures s == AttributePrefix(attributes)
  {
    s := "";
    for i := 0 to |attributes|
      invariant s == AttributePrefix(attributes[..i])
    {
      assert attributes[..i + 1][..i] == attributes[..i];
      if attributes[i] == Override {
        continue;
      }
      s := s + (CaseName(attributes[i]) + " ");
    }
    assert attributes[..|attributes|] == attributes;
  }

  method VariableDescription(v: ProgenitorVariable) returns (d: string)
    ensures d == VariableText(v)
  {
    var attributeString := AttributeString(v.attributes);
    d := Interpolate(["    ", attributeString, "var ", TestVariablePrefix, v.name, ": ", v.typeName,
      " { get { return ", v.name, "<# as! Test", CapitalizeFirstLetter(v.name), "#> } }\n"]);
  }

  method FunctionDescription(f: ProgenitorFunction) returns (d: string)
    ensures d == FunctionText(f)
  {
    var attributeString := AttributeString(f.attributes);
    d := Interpolate(["    override ", attributeString, "func ", f.name, "<# -> RETURNS#> {\n        super.",
      f.name, "\n        <#STUB#>\n    }\n"]);
  }

  /** Appends each field of a struct, indented once more, as the struct getter's loop does. */
  method AppendFields(acc: string, vs: seq<ProgenitorVariable>) returns (d: string)
    ensures d == acc + FieldsText(vs)
  {
    d := acc;
    for i := 0 to |vs|
      invariant d == acc + FieldsText(vs[..i])
    {
      assert vs[..i + 1][..i] == vs[..i];
      var line := VariableDescription(vs[i]);
      Append3(acc, FieldsText(vs[..i]), "    " + line);
      d := d + ("    " + line);
    }
    assert vs[..|vs|] == vs;
  }

  method StructDescription(s: ProgenitorStruct) returns (d: string)
    ensures d == StructText(s)
  {
    d := Indent + "struct " + s.name + " {\n";
    d := AppendFields(d, s.variables);
    d := d + "    }\n";
  }

  method AppendVariables(acc: string, vs: seq<ProgenitorVariable>) returns (d: string)
    ensures d == acc + VariablesText(vs)
  {
    d := acc;
    for i := 0 to |vs|
      invariant d == acc + VariablesText(vs[..i])
    {
      assert vs[..i + 1][..i] == vs[..i];
      var text := VariableDescription(vs[i]);
      Append3(acc, VariablesText(vs[..i]), text);
      d := d + text;
    }
    assert vs[..|vs|] == vs;
  }

  method AppendFunctions(acc: string, fs: seq<ProgenitorFunction>) returns (d: string)
    ensures d == acc + FunctionsText(fs)
  {
    d := acc;
    for i := 0 to |fs|
      invariant d == acc + FunctionsText(fs[..i])
    {
      assert fs[..i + 1][..i] == fs[..i];
      var text := FunctionDescription(fs[i]);
      Append3(acc, FunctionsText(fs[..i]), text);
      d := d + text;
    }
    assert fs[..|fs|] == fs;
  }

  method AppendStructs(acc: string, ss: seq<ProgenitorStruct>) returns (d: string)
    ensures d == acc + StructsText(ss)
  {
    d := acc;
    for i := 0 to |ss|
      invariant d == acc + StructsText(ss[..i])
    {
      assert ss[..i + 1][..i] == ss[..i];
      var text := StructDescription(ss[i]);
      Append3(acc, StructsText(ss[..i]), text);
      d := d + text;
    }
    assert ss[..|ss|] == ss;
  }

  method ClassDescription(c: ProgenitorClass) returns (d: string)
    ensures d == ClassText(c)
  {
    if |c.variables| + |c.functions| + |c.structs| == 0 {
      return EmptyClassText(c.className);
    }
    var header := ClassHeader(c.className);
    d := AppendVariables(header, c.variables);
    ghost var members := VariablesText(c.variables);
    Append3(header, members, "\n");
    d, members := d + "\n", members + "\n";
    d := AppendFunctions(d, c.functions);
    Append3(header, members, FunctionsText(c.functions));
    members := members + FunctionsText(c.functions);
    var gap := if |c.structs| != 0 then "\n" else "";
    Append3(header, members, gap);
    d, members := d + gap, members + gap;
    d := AppendStructs(d, c.structs);
    Append3(header, members, StructsText(c.structs));
    members := members + StructsText(c.structs);
    Append3(header, members, "\n}\n");
    d := d + "\n}\n";
  }

  method AppendClasses(acc: string, cs: seq<ProgenitorClass>) returns (d: string)
    ensures d == acc + ClassesText(cs)
  {
    d := acc;
    for i := 0 to |cs|
      invariant d == acc + ClassesText(cs[..i])
    {
      assert cs[..i + 1][..i] == cs[..i];
      assert ClassesText(cs[..i + 1]) == ClassesText(cs[..i]) + ClassText(cs[i]);
      var text := ClassDescription(cs[i]);
      Append3(acc, ClassesText(cs[..i]), text);
      d := d + text;
    }
    assert cs[..|cs|] == cs;
  }

  method FileDescription(f: ProgenitorFile) returns (d: string)
    ensures d == FileText(f)
  {
    if |f.classes| + |f.structs| == 0 {
      return EmptyFileText;
    }
    d := AppendClasses(FileOpening, f.classes);
    d := AppendStructs(d, f.structs);
    Append3(FileOpening, ClassesText(f.classes), StructsText(f.structs));
    Append3(FileOpening, ClassesText(f.classes) + StructsText(f.structs), "#endif");
    d := d + "#endif";
  }

  // What the rendering promises.

  /** The case names of the attributes other than `override`, in order. */
  function PrintedNames(attributes: seq<SwiftAttribute>): (r: seq<string>)
    ensures forall i :: 0 <= i < |r| ==> r[i] != CaseName(Override) && ' ' !in r[i]
    decreases |attributes|
  {
    if |attributes| == 0 then []
    else
      var last := attributes[|attributes| - 1];
      PrintedNames(attributes[..|attributes| - 1]) + (if last == Override then [] else [CaseName(last)])
  }

  /**
   * Read back word by word, the attribute prefix is exactly the names of the
   * attributes other than `override`, in their order, each followed by a space.
   */
  lemma {:induction false} AttributePrefixWords(attributes: seq<SwiftAttribute>)
    ensures AttributePrefix(attributes) == Terminated(PrintedNames(attributes), " ")
    ensures Split(AttributePrefix(attributes), ' ') == PrintedNames(attributes) + [""]
    decreases |attributes|
  {
    var names := PrintedNames(attributes);
    if |attributes| > 0 {
      var init := attributes[..|attributes| - 1];
      AttributePrefixWords(init);
      var last := attributes[|attributes| - 1];
      if last != Override {
        assert names == PrintedNames(init) + [CaseName(last)];
        assert names[..|names| - 1] == PrintedNames(init);
        Append3(AttributePrefix(init), CaseName(last), " ");
      } else {
        assert names == PrintedNames(init);
        assert AttributePrefix(attributes) == AttributePrefix(init) + "";
      }
    }
    TerminatedIsJoin(names, " ");
    SplitJoin(names + [""], ' ');
  }

  /** Every class declaration opens with its `class Test<Name>: <Name> {` line. */
  lemma ClassTextOpening(c: ProgenitorClass)
    ensures ClassOpening(c.className) <= ClassText(c)
    ensures |ClassText(c)| > 0 && ClassText(c)[0] == 'c'
  {
    var o := ClassOpening(c.className);
    assert o[0] == 'c';
    if HasMembers(c) {
      assert ClassText(c) == o + "\n" + MembersText(c);
      PrefixExtend(o, o, "\n");
      PrefixExtend(o, o + "\n", MembersText(c));
    } else {
      var rest := Indent + CommentStart
        + "No fileprivate variables, functions, or structs found within this class" + "\n}\n";
      assert ClassText(c) == o + rest;
      PrefixExtend(o, o, rest);
    }
  }

  /** Every struct declaration opens, after the indent, with the word `struct`. */
  lemma StructTextOpening(s: ProgenitorStruct)
    ensures Indent + "struct " <= StructText(s)
    ensures |StructText(s)| > 4 && StructText(s)[4] == 's'
  {
    var o := Indent + "struct ";
    assert |Indent| == 4;
    var t := StructText(s);
    assert t == o + s.name + " {\n" + FieldsText(s.variables) + "    }\n";
    PrefixExtend(o, o, s.name);
    PrefixExtend(o, o + s.name, " {\n");
    PrefixExtend(o, o + s.name + " {\n", FieldsText(s.variables));
    PrefixExtend(o, o + s.name + " {\n" + FieldsText(s.variables), "    }\n");
  }

  /** A nonempty list of classes renders starting with the whole declaration of the first one. */
  lemma {:induction false} ClassesTextOpening(cs: seq<ProgenitorClass>)
    requires |cs| > 0
    ensures ClassText(cs[0]) <= ClassesText(cs)
    ensures |ClassesText(cs)| > 0 && ClassesText(cs)[0] == 'c'
    decreases |cs|
  {
    var init := cs[..|cs| - 1];
    var last := ClassText(cs[|cs| - 1]);
    ClassTextOpening(cs[0]);
    assert ClassesText(cs) == ClassesText(init) + last;
    if |init| > 0 {
      ClassesTextOpening(init);
      assert init[0] == cs[0];
      PrefixExtend(ClassText(cs[0]), ClassesText(init), last);
    } else {
      assert ClassesText(init) == "";
      PrefixExtend(last, last, "");
    }
  }

  /** A nonempty list of structs renders starting with the whole declaration of the first one. */
  lemma {:induction false} StructsTextOpening(ss: seq<ProgenitorStruct>)
    requires |ss| > 0
    ensures StructText(ss[0]) <= StructsText(ss)
    ensures |StructsText(ss)| > 4 && StructsText(ss)[4] == 's'
    decreases |ss|
  {
    var init := ss[..|ss| - 1];
    var last := StructText(ss[|ss| - 1]);
    StructTextOpening(ss[0]);
    assert StructsText(ss) == StructsText(init) + last;
    if |init| > 0 {
      StructsTextOpening(init);
      assert init[0] == ss[0];
      PrefixExtend(StructText(ss[0]), StructsText(init), last);
    } else {
      assert StructsText(init) == "";
      PrefixExtend(last, last, "");
    }
  }

  /** The text of a file in which something was captured: its body inside `#if TESTING` … `#endif`. */
  lemma FileTextOfCaptures(f: ProgenitorFile)
    requires |f.classes| + |f.structs| != 0
    ensures FileText(f) == FileOpening + (ClassesText(f.classes) + StructsText(f.structs) + "#endif")
  {
  }

  /** A file with a class: after `#if TESTING`, the text is the first class's declaration. */
  lemma ClassesFileOpening(f: ProgenitorFile)
    requires |f.classes| > 0
    ensures FileOpening + ClassText(f.classes[0]) <= FileText(f)
  {
    var first := ClassText(f.classes[0]);
    var classes := ClassesText(f.classes);
    ClassesTextOpening(f.classes);
    PrefixWithin(FileOpening, first, classes, StructsText(f.structs), "#endif");
    FileTextOfCaptures(f);
  }

  /** A file with structs and no class: after `#if TESTING`, the text is the first struct's declaration. */
  lemma StructsFileOpening(f: ProgenitorFile)
    requires |f.classes| == 0 && |f.structs| > 0
    ensures FileOpening + StructText(f.structs[0]) <= FileText(f)
  {
    var first := StructText(f.structs[0]);
    var structs := StructsText(f.structs);
    StructsTextOpening(f.structs);
    assert ClassesText(f.classes) == "";
    PrefixWithin(FileOpening, first, structs, "#endif", "");
    assert "" + structs + "#endif" == structs + "#endif" + "";
    FileTextOfCaptures(f);
  }

  /** The character right after `#if TESTING` in a file with a class. */
  lemma ClassesFileFirstChar(f: ProgenitorFile)
    requires |f.classes| > 0
    ensures FileText(f)[12] == 'c'
  {
    ClassesTextOpening(f.classes);
    var classes := ClassesText(f.classes);
    var body := classes + StructsText(f.structs) + "#endif";
    assert body[0] == classes[0];
    assert |FileOpening| == 12;
    var t := FileText(f);
    assert t == FileOpening + body;
    assert t[12] == body[0];
  }

  /** The character after `#if TESTING` and the indent in a file with structs and no class. */
  lemma StructsFileFirstChar(f: ProgenitorFile)
    requires |f.classes| == 0 && |f.structs| > 0
    ensures FileText(f)[16] == 's'
  {
    StructsTextOpening(f.structs);
    assert ClassesText(f.classes) == "";
    assert |FileOpening| == 12;
  }

  /** The "nothing found" text is produced exactly for a file in which nothing was captured. */
  lemma EmptyFilePlaceholder(f: ProgenitorFile)
    ensures FileText(f) == EmptyFileText <==> |f.classes| + |f.structs| == 0
  {
    if |f.classes| > 0 {
      ClassesFileFirstChar(f);
      assert EmptyFileText[12] == Indent[0] == ' ';
    } else if |f.structs| > 0 {
      StructsFileFirstChar(f);
      assert EmptyFileText[16] == CommentStart[0] == '/';
    }
  }

  /** The "no members" text is produced exactly for a class with nothing captured. */
  lemma EmptyClassPlaceholder(c: ProgenitorClass)
    ensures ClassText(c) == EmptyClassText(c.className) <==> !HasMembers(c)
  {
    if HasMembers(c) {
      var o := ClassOpening(c.className);
      var k := |o|;
      assert ClassText(c) == o + "\n" + MembersText(c);
      assert ClassText(c)[k] == '\n';
      assert EmptyClassText(c.className) == o + Indent + CommentStart
        + "No fileprivate variables, functions, or structs found within this class" + "\n}\n";
      assert EmptyClassText(c.className)[k] == Indent[0] == ' ';
    }
  }
}
