# ShadowClass, modelled in Dafny

ShadowClass is a pair of Swift scripts. This project models their sequential cores.

**The builder** (`TestClassBuilder.swift`):
- It looks for Swift source files marked with `//  @ShadowTesting` in their first lines.
- For each such file it reads the declaration tree that the indexer (sourcekitten) produces.
- From that tree it builds a *shadow file*: a `#if TESTING` region with one `Test<Name>` subclass per class. Each subclass has an accessor for each fileprivate variable, an overriding stub for each fileprivate method, and a mirror of each fileprivate nested struct. Top-level structs are mirrored too.

**The canary** (`TestClassCanary.swift`):
- It scans a source file line by line. After trimming, a line is reported when it contains `class`, one or more spaces, and `test`, in any letter case (so a comment such as `// this class tests foo`, or `class testable`, is reported too), unless the line holds `#if` or `#endif` itself or sits inside an `#if` region whose opening line mentions `TESTING`. A `class TestX` line that also holds `#if` or `#endif` is never reported.

## Modules

| module | what it holds |
|---|---|
| `Structure` | The indexer's node as a datatype. A run that stops at a force-unwrap or forced cast is a `Result.Trap`. |
| `Strings` | The Foundation string operations the scripts use, over ASCII `seq<char>`: splitting, trimming, case-insensitive search and `capitalizeFirstLetter`. `Join` is only a proof helper; neither script joins strings. |
| `Particulate` | The node classifier: kind and visibility predicates, `canBeIgnored`, `attributeArray`, `functionString` and `functionComplexString`. |
| `Progenitor` | The records `ProgenitorFile`, `ProgenitorClass`, `ProgenitorStruct`, `ProgenitorVariable` and `ProgenitorFunction`, and their `description` getters. |
| `Builder` | `findVariablesFromStruct`, the member loop of `createShadowFile` (with its one-slot "chain definition" lookback) and its top-level loop. |
| `Marker` | The marker window of `scanFileForTestClasses` in the builder, which decides whether a file is analysed. |
| `Canary` | `scanFileForTestClasses` of the canary: the nesting-depth and flag-stack state machine, and its three line tests. |

**How the loops are specified.** Each loop of the source is a `method` with a `for` loop. Its postcondition ties the result to a left fold (a recursive function over the prefix the loop has consumed). What the source promises is then proved about that fold as lemmas.

## Model

| member | source | states |
|---|---|---|
| `Structure.Need` | TestClassBuilder.swift:417 | A force-unwrap: it yields the value when present, and otherwise traps with the given fault. |
| `Strings.Split` | TestClassCanary.swift:87 | `components(separatedBy:)` always yields at least one part. |
| `Strings.SplitJoin` | TestClassBuilder.swift:255-256 | Splitting the join of parts that do not contain the separator gives the parts back. |
| `Strings.ContainsAt` | TestClassCanary.swift:122-137 | The case-insensitive substring test holds exactly when the pattern occurs at some position. |
| `Strings.TrimmedCore` | TestClassCanary.swift:88 | A trimmed line is a contiguous slice of the raw line. Only whitespace lies before and after the slice, and the slice neither starts nor ends with whitespace. |
| `Strings.CapitalizeFirstLetter` | TestClassBuilder.swift:527-529 | Same length. Every character after the first is unchanged. The first is no longer a lower-case letter and is the same letter up to case. |
| `Particulate.IsClass` | TestClassBuilder.swift:157-159 | A node is a class exactly when its kind is `source.lang.swift.decl.class`; this also stands for the top-level `isClass`. |
| `Particulate.IsStruct` | TestClassBuilder.swift:226-228 | A node is a struct exactly when its kind is `source.lang.swift.decl.struct`; this also stands for the top-level `isStruct` at TestClassBuilder.swift:161-163. |
| `Particulate.IsMarkComment` | TestClassBuilder.swift:202-204 | The MARK comment kind. |
| `Particulate.IsComputedProperty` | TestClassBuilder.swift:206-208 | An `if` statement kind, taken for a computed property. |
| `Particulate.IsInstanceVariable` | TestClassBuilder.swift:210-212 | The instance variable kind. |
| `Particulate.IsMethodCall` | TestClassBuilder.swift:214-216 | The call expression kind. |
| `Particulate.IsMethodInstance` | TestClassBuilder.swift:218-220 | The instance method kind. |
| `Particulate.IsFilePrivate` | TestClassBuilder.swift:222-224 | The accessibility is present and is the fileprivate level; a node without one is not fileprivate. |
| `Particulate.CanBeIgnored` | TestClassBuilder.swift:199 | The test the member loop uses: a MARK comment, an `if` statement, or a non-fileprivate member while nothing is pending. `Particulate.CanBeIgnoredVerbose` is proved to agree with it. |
| `Particulate.TakesNoArguments` | TestClassBuilder.swift:250-252 | The name's last two characters are `()`; a name shorter than two characters does not qualify. |
| `Particulate.FromRawValue` | TestClassBuilder.swift:150-155 | `SwiftAttributes(rawValue:)`: exactly the four raw tags are recognised, and each maps back to its raw value. |
| `Particulate.CanBeIgnoredVerbose` | TestClassBuilder.swift:183-200 | The verbose branch returns the same value as the one-expression test: MARK comment, `if` statement (a computed property), or not fileprivate with no pending declaration. It traps only where its third message force-unwraps a missing name. |
| `Particulate.EntryAttribute` | TestClassBuilder.swift:234-235 | One attribute entry is read exactly when it is a string dictionary holding `key.attribute` with a known tag, and the attribute's raw value is that tag. Otherwise the cast traps, the missing key traps, or the unknown tag traps, in that order. |
| `Particulate.AttributesOf` | TestClassBuilder.swift:230-239 | There is one attribute per entry, in order, each the reading of that entry. The list is built exactly when every entry can be read. |
| `Particulate.AttributesTrapAtFirst` | TestClassBuilder.swift:233-236 | The fault that stops the reading is that of the first entry that cannot be read. |
| `Particulate.AttributeArray` | TestClassBuilder.swift:230-239 | The loop of `attributeArray` computes the attribute list, which is empty when the node has no attributes. |
| `Particulate.SignatureOf` | TestClassBuilder.swift:241-252 | A missing name traps. A name ending in `()` is returned unchanged. The result is nil exactly when the name takes arguments and the node has no children. |
| `Particulate.FunctionComplexString` | TestClassBuilder.swift:254-269 | The `+=` loop builds the argument list as the fold over labels and children does. Each trap (missing child, name or type) surfaces at the same position. |
| `Particulate.FunctionString` | TestClassBuilder.swift:241-248 | `functionString` computes the signature function `SignatureOf` above. |
| `Particulate.ArgumentsTextCovered` | TestClassBuilder.swift:258-266 | When the first n children each have a name and a type, the loop succeeds and leaves each entry followed by `", "`. |
| `Particulate.FewerParametersTrap` | TestClassBuilder.swift:260 | With fewer children than labels, the script stops at the first missing position. |
| `Particulate.SelectorLabelsOf` | TestClassBuilder.swift:250-256 | A selector name `b(l1:…:ln:)` splits at `(` into `b` and its labels. The labels read back exactly, and the name does not count as taking no arguments. |
| `Particulate.SignatureFromSelector` | TestClassBuilder.swift:254-269 | For `b(l1:…:ln:)` the rebuilt signature is `b(` + the entries joined by `", "` + `)`. Entry i is the label, then child i's name only when it differs from the label, then `": "` and child i's type. |
| `Particulate.OneArgumentSignature` | TestClassBuilder.swift:241-269 | A fileprivate method with one argument rebuilds to `base(label: Type)` or `base(label name: Type)`. |
| `Particulate.SameNameSignature` | TestClassBuilder.swift:262-265 | A label equal to the parameter's name is not repeated. |
| `Particulate.DistinctNameSignature` | TestClassBuilder.swift:262-265 | A label that differs from the parameter's name is followed by that name. |
| `Progenitor.AttributeString` | TestClassBuilder.swift:109-115 | The attribute loop of the variable and function getters builds the attribute prefix. |
| `Progenitor.PrintedNames` | TestClassBuilder.swift:110-114 | The printed attribute names never include `override`, and none contains a space. |
| `Progenitor.AttributePrefixWords` | TestClassBuilder.swift:109-115 | Read back word by word, the prefix is exactly the non-`override` attributes in order, each followed by one space. |
| `Progenitor.VariableDescription` | TestClassBuilder.swift:108-117 | The variable getter builds the `test_<name>` accessor text. |
| `Progenitor.FunctionDescription` | TestClassBuilder.swift:124-133 | The function getter builds the overriding-stub text. |
| `Progenitor.StructDescription` | TestClassBuilder.swift:93-100 | The struct getter builds the struct mirror, with each field indented once more. |
| `Progenitor.ClassDescription` | TestClassBuilder.swift:67-87 | The class getter builds the class text. A class with no members gets the placeholder; otherwise it gets its variables, a blank line, its functions, and then its structs after a blank line when there are any. |
| `Progenitor.FileDescription` | TestClassBuilder.swift:45-58 | The file getter builds the file text: a file with nothing found gets the placeholder; otherwise classes then structs inside `#if TESTING` … `#endif`. |
| `Progenitor.ClassTextOpening` | TestClassBuilder.swift:68-70 | Every class declaration, empty or not, begins with its `class Test<Name>: <Name> {` line. |
| `Progenitor.ClassesFileOpening` | TestClassBuilder.swift:46-51 | In a file with a class, `#if TESTING` is followed by the whole declaration of the first class. |
| `Progenitor.StructsFileOpening` | TestClassBuilder.swift:46-55 | In a file with structs and no class, `#if TESTING` is followed by the whole declaration of the first struct. |
| `Progenitor.EmptyFilePlaceholder` | TestClassBuilder.swift:46-49 | The "No classes or structs found" text is produced if and only if the file has no class and no struct. |
| `Progenitor.EmptyClassPlaceholder` | TestClassBuilder.swift:68-71 | The "No fileprivate variables, functions, or structs" text is produced if and only if the class captured nothing. |
| `Builder.Select` | TestClassBuilder.swift:391-465 | The reference selection is no longer than its input and holds only kept members of it. |
| `Builder.FieldOf` | TestClassBuilder.swift:493 | A struct child becomes a variable exactly when its name, type and attributes can be read. A missing name traps before a missing type. |
| `Builder.FieldsOf` | TestClassBuilder.swift:491-494 | There is one variable per child, in order, and no visibility filter. The list is built exactly when every child can be read. |
| `Builder.FieldsTrapAtFirst` | TestClassBuilder.swift:491-494 | The fault that stops the reading is that of the first child that cannot be read. |
| `Builder.StructVariablesOf` | TestClassBuilder.swift:488-496 | A struct without children traps; otherwise all its children are read as variables. |
| `Builder.FindVariablesFromStruct` | TestClassBuilder.swift:488-496 | The loop of `findVariablesFromStruct` computes the struct's variables. |
| `Builder.ChainedVariable` | TestClassBuilder.swift:424-428 | A chain definition yields the pending variable's name and attributes, typed with the call's name. |
| `Builder.FunctionOf` | TestClassBuilder.swift:429-431 | A fileprivate method is captured with its rebuilt signature and attributes. A nil signature stops the script. |
| `Builder.StructOf` | TestClassBuilder.swift:433-435 | A fileprivate nested struct is captured with its name and its fields. |
| `Builder.AnalyseMember` | TestClassBuilder.swift:409-440 | One round of the member loop computes the one-member step function `ScanMember`. |
| `Builder.AnalyseMembers` | TestClassBuilder.swift:402-441 | The member loop computes the fold over a class's children, including an early trap. |
| `Builder.PendingIsChainStart` | TestClassBuilder.swift:415-423 | A pending slot is always a named fileprivate variable without a written type, taken from the members. |
| `Builder.StepGrows` | TestClassBuilder.swift:415-435 | One member only appends to the three lists. |
| `Builder.ScanGrows` | TestClassBuilder.swift:407-441 | What is built after k members is a prefix of the final lists. |
| `Builder.FunctionsAreFilePrivateMethods` | TestClassBuilder.swift:429-432 | The captured functions are those of the fileprivate methods, one each, in source order. |
| `Builder.StructsAreFilePrivateStructs` | TestClassBuilder.swift:433-435 | The captured nested structs are those of the fileprivate structs, one each, in source order. |
| `Builder.TypedVariablesOnly` | TestClassBuilder.swift:415-419 | Without chain definitions nothing is ever pending, and the captured variables are the typed fileprivate variables, one each, in order. |
| `Builder.PendingCallResolves` | TestClassBuilder.swift:424-428 | After any prefix of members that leaves a first half waiting, a call adds exactly one variable: the waiting variable's name and attributes, typed by the call's name. It then clears the slot; a trap in building that variable stops the scan. |
| `Builder.ChainDefinition` | TestClassBuilder.swift:420-428 | An untyped fileprivate variable followed by a call adds exactly one variable, typed by the call's name, and clears the slot. |
| `Builder.TypedVariableClears` | TestClassBuilder.swift:415-419 | After any prefix, a fileprivate variable with a written type adds exactly one variable (its name, type and attributes) and clears a waiting first half. |
| `Builder.LoneCallSkipped` | TestClassBuilder.swift:411-440 | A call with nothing waiting is skipped and changes nothing. |
| `Builder.ChainRestart` | TestClassBuilder.swift:420-422 | A second untyped fileprivate variable replaces the pending one. |
| `Builder.PendingSurvives` | TestClassBuilder.swift:411-440 | While a slot is pending, any member other than a fileprivate variable or a call leaves it pending and adds no variable. A non-fileprivate member that is neither a MARK comment nor an `if` statement is then not ignored. |
| `Builder.CreateShadowFile` | TestClassBuilder.swift:389-467 | The top-level loop of `createShadowFile` computes the file record for the tree. |
| `Builder.ClassesAreAnalysedClasses` | TestClassBuilder.swift:391-465 | There is one class record per class not named `Test…`, in order, holding the member scan of that class. There is one struct record per top-level struct not named `Test…`, in order. |
| `Builder.NoTestNames` | TestClassBuilder.swift:396-399 | No record is named with the `Test` prefix. |
| `Builder.OnlyTestTypes` | TestClassBuilder.swift:391-465 | A file whose classes and structs are all test types yields no records, and renders as the "nothing found" placeholder. |
| `Marker.ForceIgnoreLine` | TestClassBuilder.swift:365-368 | `scanForForceIgnore` on the trimmed line. |
| `Marker.IdentifierLine` | TestClassBuilder.swift:360-363 | `scanForIdentifier` on the trimmed line. |
| `Marker.MarkerPatterns` | TestClassBuilder.swift:344-348 | Each marker is found exactly when it occurs, in any case, somewhere in the trimmed line. |
| `Marker.LastScanned` | TestClassBuilder.swift:341 | The window ends at `min(3, count - 1)`: inside the file and at most at line 3. |
| `Marker.ScanMarkerWindow` | TestClassBuilder.swift:340-355 | The window loop, with its early returns, reaches the window decision. |
| `Marker.ForceIgnoredAtFirstMarker` | TestClassBuilder.swift:343-347 | The file is skipped if and only if a force-ignore line lies in the window with no marker on any earlier line. |
| `Marker.MarkedAtFirstMarker` | TestClassBuilder.swift:343-354 | The file is analysed on account of line k if and only if k is in the window, holds the identifier and no force-ignore, and no earlier line holds either marker. |
| `Marker.UnmarkedWhenQuiet` | TestClassBuilder.swift:341-356 | No decision is reached if and only if no line of the window holds either marker. |
| `Marker.MarkedMeansNoEarlierIgnore` | TestClassBuilder.swift:343-354 | An analysed file has the identifier on one of its first four lines, and no force-ignore on that line or any earlier one. |
| `Marker.ScanFileForShadowFiles` | TestClassBuilder.swift:338-356 | A marked file yields exactly its shadow file record; any other file yields none. |
| `Canary.ScanForTestMacroStart` | TestClassCanary.swift:122-131 | The flag is only reported on a line that opens a region. |
| `Canary.MacroStartPattern` | TestClassCanary.swift:34-35 | A line is an opener if and only if it holds `#if` in any case. It is flagged if and only if it also holds `TESTING`. |
| `Canary.ScanForTestMacroEnd` | TestClassCanary.swift:134-137 | `scanForTestMacroEnd`: the case-insensitive `#endif` test. |
| `Canary.MacroEndPattern` | TestClassCanary.swift:37 | A line is a closer candidate exactly when it holds `#endif`, in any case. |
| `Canary.ScanForTestClass` | TestClassCanary.swift:140-143 | `scanForTestClass`: a recursive matcher for `class( )+test`, whose meaning `Canary.TestClassPattern` states. |
| `Canary.TestClassPattern` | TestClassCanary.swift:36 | The line test holds exactly when `class`, one or more spaces and `test` occur somewhere, case-insensitively. |
| `Canary.ScanFileForTestClasses` | TestClassCanary.swift:78-119 | The scan loop computes the fold of one step per trimmed line. |
| `Canary.StepKeepsStackValid` | TestClassCanary.swift:84-108 | One line keeps the flag stack strictly increasing and below the current depth. |
| `Canary.RunStackValid` | TestClassCanary.swift:84-117 | The flag stack is strictly increasing and below the depth after any number of lines. |
| `Canary.OnlyFlaggedOpenersPush` | TestClassCanary.swift:91-99 | The stack grows if and only if the line is an opener that mentions the flag, and it grows by the current depth. |
| `Canary.MacroLinesNotReported` | TestClassCanary.swift:91-108 | Opener and closer lines are never reported. An opener takes precedence over a closer on the same line. |
| `Canary.RunDepth` | TestClassCanary.swift:85-108 | The depth is the number of opener lines minus the number of closer lines so far. |
| `Canary.FlagsAreOpenRegions` | TestClassCanary.swift:91-108 | A depth is on the stack if and only if a flagged opener found at that depth has not been closed. So the closer that pops is the one that closes the flagged `#if`. |
| `Canary.EmptyStackOutsideRegions` | TestClassCanary.swift:110-111 | The stack is empty exactly when the current line lies in no open flagged region. |
| `Canary.RunReports` | TestClassCanary.swift:87-117 | The reports after n lines are the reportable lines among them, in order. |
| `Canary.ReportedSound` | TestClassCanary.swift:110-116 | Every report names a reportable line among those scanned, by its 1-based number and its trimmed text. |
| `Canary.ReportedOrdered` | TestClassCanary.swift:87-116 | Reports appear in strictly ascending line order. |
| `Canary.ReportedComplete` | TestClassCanary.swift:110-116 | Every reportable line is reported. |
| `Canary.ScanReportsExactly` | TestClassCanary.swift:78-119 | For a whole file, reports are sound and ascending, and every reportable line is reported. A line is reportable if and only if it is neither an opener nor holds `#endif`, matches `class( )+test`, and lies in no open flagged region. |

## Left out

- File discovery (`getURLsForFiles` in both scripts) and the folder filter against `IgnoredFolders`: these are filesystem and environment access, done before the modelled functions are called.
- Reading a file: the contents are a parameter. A file that cannot be read yields no match and no record in the source; that path is not modelled.
- Running `sourcekitten` and decoding its JSON: the declaration tree is an input `Node`. Each attribute entry keeps what the script reads from it: whether all its values are strings, and its `key.attribute` value if present.
- A node always has a string `key.kind`, and every child in `key.substructure` is a dictionary. The source force-casts both (TestClassBuilder.swift:158, :162, :174, :260, :393, :409, :491), and the traps on a failing cast are not modelled. The indexer's output format guarantees both.
- The `fileURL`: it is a plain string. `TestClassMatch.file` (the URL's `relativeString`) is also a parameter.
- The path slicing via `currentDirectoryPath`: it depends on the environment.
- Writing the shadow file, `appendToFile` and the JSON intermediates: these are file output. The model stops at the `ProgenitorFile` record and its text.
- `print`, `dprint` and `vprint` output, `NSDate` timing, `exit(1)` in `scanProjectForMatches`, and the project-wide aggregation of matches and files: these are console and process effects around the modelled scans. Where a `vprint` or `dprint` argument force-unwraps a value, the resulting trap is kept.
- `NSRegularExpression`: the four canary patterns and the two markers are literal or `( )+` patterns. They are modelled as ASCII case-insensitive matching on `seq<char>`.
- Unicode case mapping and whitespace: only ASCII letters change case, and only ASCII whitespace is trimmed.
- `Canary.ScanFileForTestClasses`: `macroDepth` is an unbounded integer, so Swift's overflow trap on `Int` is not modelled.
- `Particulate.CanBeIgnored`: modelled with verbose analysis off, as the script is configured. The verbose branch is `Particulate.CanBeIgnoredVerbose`, which is proved to agree with it.
- `Particulate.FunctionComplexString`: requires the name and children that its only caller, `functionString`, has already checked.
- `Canary.ScanForTestMacroStart`: its own contract states only that a flag implies an opener. The full pattern is stated by `Canary.MacroStartPattern`.
- `Marker.ScanMarkerWindow`: the window covers lines 0 through `min(3, count - 1)`, up to four lines, as the code does. The comment beside `TestFileIdentifierLines` describes the value 0 as "the first line".
- The `#if` test looks for `#if` anywhere in a line, so `#if !TESTING` counts as a flagged opener, and an `#else` inside a flagged region does not end it. The model keeps these behaviours of the code as they are.
