# Android Blueprint plugin core, modelled in Dafny

This project models the language core of the Android Blueprint IDE plugin and proves properties about it. The model covers these pieces:

- the token alphabet of the Blueprint (`Android.bp`) lexer and its mapping to tree element types;
- the generated recursive-descent parser with its pinned rules and recovery rules, written twice:
  - as pure grammar functions over a token sequence (`Grammar`);
  - as a parser object that advances a cursor in place (`Parser`);
- the evaluation of a parsed file into module records:
  - the variable table with `=` and `+=`;
  - `concat`, `nodeToValue`, objects and arrays;
  - the type-dispatching record factory and its defaults and dependency lists;
- the tree accessors: string-expression value, owning blueprint of a field, and schema field lookup along the enclosing pairs;
- source-set glob chunking and its queries;
- the older `Blueprint` class, with dependency scopes, source directories and R and resource-package paths;
- the module-name fix-ups of the blueprints table and its timestamp cache;
- the `Android.mk` reader:
  - line continuation;
  - assignment classification;
  - the module builder and `$(CLEAR_VARS)` emission;
  - `LOCAL_SRC_FILES` scanning;
  - `LOCAL_RESOURCE_DIR` fix-ups;
- the dependency record builder of the project importer and its validity predicate;
- the schema XML reader's stack machine, over a sequence of start and end events;
- field-name completion: candidate filtering along the schema path, and the inserted suffix and caret offset;
- the documentation converter's XML and text writers and its field containers.

Values of the Kotlin code (`Any`: strings, 32-bit ints, booleans, lists, maps, and the `Any()` sentinel) are the datatype `Values.AnyValue`. A file path (`java.io.File`) is a sequence of path segments. The syntax tree is a `Psi.Node` datatype; an element with a parent link is a node plus the list of its ancestors, nearest first. Operations that change an object in place are Dafny classes. Examples are the parser's cursor, the make-file module builder, the dependency record builder, the table cache, the completion editor and the documentation writers. Their methods are proved against the pure functions that specify them.

Trivia: white space and comments are declared trivia tokens, so the PSI builder hides them from the grammar. The grammar model therefore runs over the significant tokens (`Psi.Significant`). The leaf lemmas in `GrammarLeaves` show that the tree built from those tokens has exactly the input tokens as its leaves, in order.

## Model

| member | source | states |
|---|---|---|
| TextUtils.RemoveSurrounding | src/main/kotlin/com/github/pvoid/androidbp/TextUtils.kt:11-13 | the delimiter comes off both ends only when the string is long enough and starts and ends with it; otherwise the string is unchanged |
| TextUtils.TrimQuotesIff | src/main/kotlin/com/github/pvoid/androidbp/TextUtils.kt:9-15 | exactly one pair of surrounding quotes is removed, of the kind the string starts with, and only when both ends carry it |
| TextUtils.TrimQuotesOfQuoted | src/main/kotlin/com/github/pvoid/androidbp/TextUtils.kt:9-15 | quoting a body with `"` or `'` and trimming gives the body back |
| TextUtils.UnbalancedQuoteKept | src/main/kotlin/com/github/pvoid/androidbp/TextUtils.kt:9-15 | a quote at one end only is kept (`"abc` and a lone `'` are unchanged) |
| TextUtils.NotIdempotent | src/main/kotlin/com/github/pvoid/androidbp/TextUtils.kt:9-15 | only one layer comes off: trimming twice differs from trimming once |
| SymbolFactory.Create | src/main/kotlin/com/github/pvoid/androidbp/blueprint/parser/BlueprintSymbolFactory.kt:47-68 | the mapping is total; EOF gives WHITE_SPACE, ERROR gives BAD_CHARACTER, and every other token gives the element type of the same name |
| SymbolFactory.SkipSpaces | src/main/kotlin/com/github/pvoid/androidbp/blueprint/parser/BlueprintSymbolFactory.kt:70 | the factory never asks to skip spaces |
| SymbolFactory.CreateIgnoresText | src/main/kotlin/com/github/pvoid/androidbp/blueprint/parser/BlueprintSymbolFactory.kt:47 | the element type depends on the token kind only, never on the text |
| SymbolFactory.CreateNotInjective | src/main/kotlin/com/github/pvoid/androidbp/blueprint/parser/BlueprintSymbolFactory.kt:59-66 | two different tokens map to the same element type |
| SymbolFactory.OriginOfCreate | src/main/kotlin/com/github/pvoid/androidbp/blueprint/parser/BlueprintSymbolFactory.kt:48-67 | every token other than EOF is recovered from its element type; EOF comes back as WHITE_SPACE |
| SymbolFactory.CreateInjectiveOtherwise | src/main/kotlin/com/github/pvoid/androidbp/blueprint/parser/BlueprintSymbolFactory.kt:59-66 | the EOF and WHITE_SPACE collision is the only one |
| SymbolFactory.CreateYieldsTokenTypes | src/main/kotlin/com/github/pvoid/androidbp/blueprint/parser/BlueprintSymbolFactory.kt:48-67 | every token becomes a token type, never a composite element type |
| SymbolFactory.Lexed | src/main/kotlin/com/github/pvoid/androidbp/blueprint/parser/BlueprintSymbolFactory.kt:47 | a lexed token keeps its text and carries the element type `create` gives |
| Values.Wrap32 | src/main/kotlin/com/github/pvoid/androidbp/blueprint/model/BlueprintPsiFileExt.kt:147 | Kotlin `Int` addition: the result is a 32-bit int congruent to the sum modulo 2^32, and equal to it when it fits |
| Values.Strings | src/main/kotlin/com/github/pvoid/androidbp/blueprint/model/BlueprintsFactory.kt:29 | `mapNotNull { it as? String }` keeps exactly the string elements and is never longer than the list |
| Values.StringsAppend | src/main/kotlin/com/github/pvoid/androidbp/blueprint/model/BlueprintsFactory.kt:39-44 | filtering a concatenation concatenates the filtered parts |
| Values.StringsOfStrings | src/main/kotlin/com/github/pvoid/androidbp/blueprint/model/BlueprintsFactory.kt:29 | a list of strings keeps all of them, in order |
| Values.StringList | src/main/kotlin/com/github/pvoid/androidbp/blueprint/model/BlueprintsFactory.kt:39 | `as? List<*>` succeeds exactly on lists, and then gives their strings |
| Values.ToIntOrNull | src/main/kotlin/com/github/pvoid/androidbp/blueprint/model/BlueprintPsiFileExt.kt:93 | a result is a 32-bit int read from text that starts with a digit, or with a sign followed by more text |
| Values.ToIntOrNullDigits | src/main/kotlin/com/github/pvoid/androidbp/blueprint/model/BlueprintPsiFileExt.kt:93 | a run of digits reads as its decimal value when that fits in an `Int`, and as null otherwise |
| Values.ToIntOrNullRejects | src/main/kotlin/com/github/pvoid/androidbp/blueprint/model/BlueprintPsiFileExt.kt:93 | text with a non-digit after the first character is not a number |
| Factory.NameOf | src/main/kotlin/com/github/pvoid/androidbp/blueprint/model/BlueprintsFactory.kt:27 | a name exists exactly when `name` is present and is a string |
| Factory.ToSourceSets | src/main/kotlin/com/github/pvoid/androidbp/blueprint/model/BlueprintsFactory.kt:29 | one source set per string, in order |
| Factory.CollectLibs | src/main/kotlin/com/github/pvoid/androidbp/blueprint/model/BlueprintsFactory.kt:38-44 | the mutable `libs` list built by `add` calls equals the implicit prefix, then the `static_libs` strings, then the `libs` strings |
| Factory.Blueprint | src/main/kotlin/com/github/pvoid/androidbp/blueprint/model/BlueprintsFactory.kt:12-24 | without a string `name` no record is built, and every record built carries that name |
| Factory.Jars | src/main/kotlin/com/github/pvoid/androidbp/blueprint/model/BlueprintsFactory.kt:142-144 | each jar becomes `File(path, jar)`, in order |
| Factory.Create | src/main/kotlin/com/github/pvoid/androidbp/blueprint/model/BlueprintsFactory.kt:12-24 | the factory, with dependency lists built by mutation, returns the record `Factory.Blueprint` specifies |
| Factory.Dispatch | src/main/kotlin/com/github/pvoid/androidbp/blueprint/model/BlueprintsFactory.kt:12-24 | unknown type names, `java_binary` included, give `UnsupportedBlueprint(name)`; the three java_library names give the same Java library record; every type except aidl_interface gives a record |
| Factory.UnknownType | src/main/kotlin/com/github/pvoid/androidbp/blueprint/model/BlueprintsFactory.kt:23 | an unlisted type name falls through to the unsupported record |
| Factory.JavaLibraryAliases | src/main/kotlin/com/github/pvoid/androidbp/blueprint/model/BlueprintsFactory.kt:18 | `java_library_host` and `java_library_static` build the same record as `java_library` |
| Factory.AidlNeedsJavaBackend | src/main/kotlin/com/github/pvoid/androidbp/blueprint/model/BlueprintsFactory.kt:169-174 | an aidl_interface gives a record iff it has a name and `backend.java.enabled` is the boolean `true` |
| Factory.DependencyOrder | src/main/kotlin/com/github/pvoid/androidbp/blueprint/model/BlueprintsFactory.kt:38-44 | apps and libraries depend on `framework` and `framework-res`, then `static_libs`, then `libs`; imports, SDK libraries and AIDL interfaces start with `framework`; Java libraries have no implicit entry |
| Factory.DeclaredAfter | src/main/kotlin/com/github/pvoid/androidbp/blueprint/model/BlueprintsFactory.kt:110-116 | the implicit entries come first, then the `static_libs` strings, then the `libs` strings |
| Factory.DependenciesAreDeclaredStrings | src/main/kotlin/com/github/pvoid/androidbp/blueprint/model/BlueprintsFactory.kt:39-44 | a dependency is an implicit entry or a string element of `static_libs` or `libs`, and non-strings are dropped |
| Factory.AppDefaults | src/main/kotlin/com/github/pvoid/androidbp/blueprint/model/BlueprintsFactory.kt:28-46 | `srcs` and `asset_dirs` default to empty, `resource_dirs` to `res`, `manifest` to `AndroidManifest.xml`; privileged iff `privileged` is the boolean `true` |
| Factory.SourcesFromStrings | src/main/kotlin/com/github/pvoid/androidbp/blueprint/model/BlueprintsFactory.kt:28-30 | a list member gives one source set per string element, in order, with the others dropped |
| Factory.SourcesOf | src/main/kotlin/com/github/pvoid/androidbp/blueprint/model/BlueprintsFactory.kt:28-30 | a list member as source sets, one per string element, or the default when the member is not a list; `SourcesFromStrings` and `AppDefaults` state it |
| Factory.JarsUnderPath | src/main/kotlin/com/github/pvoid/androidbp/blueprint/model/BlueprintsFactory.kt:142-144 | each imported jar lies directly under the blueprint's directory |
| Records.Artifacts | src/main/kotlin/com/github/pvoid/androidbp/blueprint/model/Blueprint.kt:59-61 | artifacts exist exactly for the records that implement `BlueprintWithArtifacts` |
| Records.RFile | src/main/kotlin/com/github/pvoid/androidbp/blueprint/model/Blueprint.kt:23-33 | an R file exists exactly for records with static or dynamic resources |
| Records.ResApk | src/main/kotlin/com/github/pvoid/androidbp/blueprint/model/Blueprint.kt:23-33 | a resource package exists exactly for records with static or dynamic resources |
| Records.DynamicResources | src/main/kotlin/com/github/pvoid/androidbp/blueprint/model/Blueprint.kt:99 | only an imported library has a dynamic resource folder |
| Records.DynamicManifest | src/main/kotlin/com/github/pvoid/androidbp/blueprint/model/Blueprint.kt:100 | only an imported library has a dynamic manifest |
| Records.DynamicSources | src/main/kotlin/com/github/pvoid/androidbp/blueprint/model/Blueprint.kt:168-171 | only an AIDL interface has generated sources |
| Records.AppHasNoArtifacts | src/main/kotlin/com/github/pvoid/androidbp/blueprint/model/Blueprint.kt:72-87 | an app has no artifacts, and a library has exactly `android_common/combined/<name>.jar` |
| Records.ResourcePaths | src/main/kotlin/com/github/pvoid/androidbp/blueprint/model/Blueprint.kt:74-98 | app and library R files are `android_common/R.txt`, an imported library's is `android_common/aar/R.txt`, and all resource packages are `android_common/package-res.apk` |
| Records.JavaImportArtifactsFixed | src/main/kotlin/com/github/pvoid/androidbp/blueprint/model/Blueprint.kt:139 | imported jars are the stored list, independent of base path and file system |
| Records.ArtifactsUnderBase | src/main/kotlin/com/github/pvoid/androidbp/blueprint/model/Blueprint.kt:87-165 | every other artifact is one `.jar` two levels under `android_common` of the output directory, or of its `-java` sibling for AIDL |
| Records.JavaLibraryFallback | src/main/kotlin/com/github/pvoid/androidbp/blueprint/model/Blueprint.kt:126-132 | a Java library uses `combined/<name>.jar` when it exists on disk and `turbine-combined/<name>.jar` otherwise |
| Records.TurbineArtifacts | src/main/kotlin/com/github/pvoid/androidbp/blueprint/model/Blueprint.kt:148-155 | SDK and sysprop libraries use `turbine-combined/<name>.jar`, whatever is on disk |
| Records.AidlPaths | src/main/kotlin/com/github/pvoid/androidbp/blueprint/model/Blueprint.kt:163-171 | an AIDL interface builds `<base>-java/android_common/turbine-combined/<name>-java.jar`, and its sources are `<base>-java-source/gen` |
| Psi.Significant | src/main/kotlin/com/github/pvoid/androidbp/blueprint/parser/BlueprintParserDefinition.kt:25-26 | the parser's input drops exactly the trivia (white space and comments): it is never longer, holds no trivia, and is the input itself when there was none |
| Psi.SignificantAppend | src/main/kotlin/com/github/pvoid/androidbp/blueprint/parser/BlueprintParserDefinition.kt:41-49 | dropping trivia commutes with joining token streams |
| Grammar.SkipUntil | src/main/gen/com/github/pvoid/androidbp/blueprint/parser/BlueprintParser.java:204-213 | recovery stops at the first token of the stop set at or after the position, or at the end |
| Grammar.Recover | src/main/gen/com/github/pvoid/androidbp/blueprint/parser/BlueprintParser.java:171 | recovery keeps the rule's verdict and ends at the end or at a stop token |
| Grammar.ArrayElementRule | src/main/gen/com/github/pvoid/androidbp/blueprint/parser/BlueprintParser.java:65-78 | an array element matches iff the next token is STRING, BOOL, NUMBER, VARIABLE_NAME or LINK, and then consumes exactly that token; on failure nothing is consumed |
| Grammar.ElementsTail | src/main/gen/com/github/pvoid/androidbp/blueprint/parser/BlueprintParser.java:175-195 | the separator-element loop always succeeds and stays within the input |
| Grammar.ElementsRule | src/main/gen/com/github/pvoid/androidbp/blueprint/parser/BlueprintParser.java:162-173 | a matched elements rule consumes at least one token |
| Grammar.ElementsBody | src/main/gen/com/github/pvoid/androidbp/blueprint/parser/BlueprintParser.java:162-202 | elements before recovery: a failure consumes nothing, a match consumes something |
| Grammar.ArrayRule | src/main/gen/com/github/pvoid/androidbp/blueprint/parser/BlueprintParser.java:44-63 | a failed array consumes nothing, and a matched one consumes something |
| Grammar.ArrayTail | src/main/gen/com/github/pvoid/androidbp/blueprint/parser/BlueprintParser.java:93-113 | the `(PLUS array)*` loop always succeeds and stays within the input |
| Grammar.ArrayExprRule | src/main/gen/com/github/pvoid/androidbp/blueprint/parser/BlueprintParser.java:80-91 | a failed array expression consumes nothing, and a matched one consumes something |
| Grammar.StringTail | src/main/gen/com/github/pvoid/androidbp/blueprint/parser/BlueprintParser.java:360-379 | the `(PLUS STRING)*` loop always succeeds and stays within the input |
| Grammar.StringExprRule | src/main/gen/com/github/pvoid/androidbp/blueprint/parser/BlueprintParser.java:347-358 | a failed string expression consumes nothing, and a matched one consumes something |
| Grammar.SingleTokenRule | src/main/gen/com/github/pvoid/androidbp/blueprint/parser/BlueprintParser.java:150-160 | blueprint_type and field_name match iff the next token has their type, and then consume exactly that token |
| Grammar.AsValue | src/main/gen/com/github/pvoid/androidbp/blueprint/parser/BlueprintParser.java:386 | wrapping a matched alternative in a VALUE element keeps its extent |
| Grammar.ValueRule | src/main/gen/com/github/pvoid/androidbp/blueprint/parser/BlueprintParser.java:381-395 | a failed value consumes nothing, and a matched one consumes something |
| Grammar.ObjectRule | src/main/gen/com/github/pvoid/androidbp/blueprint/parser/BlueprintParser.java:292-311 | a failed object consumes nothing, and a matched one consumes something |
| Grammar.VariableRefExprRule | src/main/gen/com/github/pvoid/androidbp/blueprint/parser/BlueprintParser.java:421-450 | a failed variable reference consumes nothing, and a matched one consumes something |
| Grammar.MembersRule | src/main/gen/com/github/pvoid/androidbp/blueprint/parser/BlueprintParser.java:239-250 | a matched members rule consumes at least one token |
| Grammar.MembersBody | src/main/gen/com/github/pvoid/androidbp/blueprint/parser/BlueprintParser.java:239-279 | members before recovery: a failure consumes nothing, a match consumes something |
| Grammar.MembersTail | src/main/gen/com/github/pvoid/androidbp/blueprint/parser/BlueprintParser.java:252-272 | the separator-pair loop always succeeds and stays within the input |
| Grammar.PairRule | src/main/gen/com/github/pvoid/androidbp/blueprint/parser/BlueprintParser.java:313-324 | a matched pair consumes at least one token |
| Grammar.PairBody | src/main/gen/com/github/pvoid/androidbp/blueprint/parser/BlueprintParser.java:313-321 | pair before recovery: a failure consumes nothing, a match consumes something |
| Grammar.Expect | src/main/gen/com/github/pvoid/androidbp/blueprint/parser/BlueprintParser.java:124-126 | a pinned rule's required token is consumed when present; when missing, one empty error element stands in its place and nothing is consumed |
| Grammar.BlueprintRule | src/main/gen/com/github/pvoid/androidbp/blueprint/parser/BlueprintParser.java:115-129 | a failed blueprint consumes nothing, and a matched one consumes something |
| Grammar.VariableRule | src/main/gen/com/github/pvoid/androidbp/blueprint/parser/BlueprintParser.java:397-410 | a failed variable consumes nothing, and a matched one consumes something |
| Grammar.ItemRule | src/main/gen/com/github/pvoid/androidbp/blueprint/parser/BlueprintParser.java:227-237 | a failed item consumes nothing, and a matched one consumes something |
| Grammar.Items | src/main/gen/com/github/pvoid/androidbp/blueprint/parser/BlueprintParser.java:138-148 | the item loop always succeeds and stays within the input |
| Grammar.ItemsUnfold | src/main/gen/com/github/pvoid/androidbp/blueprint/parser/BlueprintParser.java:142-146 | the item loop stops at an item that fails or consumes nothing, and otherwise continues after the item |
| Grammar.ParseFile | src/main/gen/com/github/pvoid/androidbp/blueprint/parser/BlueprintParser.java:29-42 | parsing always yields a FILE element |
| GrammarFacts.SkipUntilSkips | src/main/gen/com/github/pvoid/androidbp/blueprint/parser/BlueprintParser.java:204-213 | recovery skips only tokens outside its stop set |
| GrammarFacts.RecoverSkips | src/main/gen/com/github/pvoid/androidbp/blueprint/parser/BlueprintParser.java:171 | recovery keeps the rule's own nodes and skips only tokens outside the stop set |
| GrammarFacts.StringTailShape | src/main/gen/com/github/pvoid/androidbp/blueprint/parser/BlueprintParser.java:360-379 | the string tail takes PLUS STRING pairs and stops where no such pair follows |
| GrammarFacts.StringExprShape | src/main/gen/com/github/pvoid/androidbp/blueprint/parser/BlueprintParser.java:347-379 | a string expression is STRING (PLUS STRING)*, and a PLUS not followed by STRING is left unconsumed |
| GrammarFacts.ArrayTailNext | src/main/gen/com/github/pvoid/androidbp/blueprint/parser/BlueprintParser.java:93-113 | the array tail ends here unless a PLUS and an array follow, and otherwise where the rest ends |
| GrammarFacts.ArrayTailStops | src/main/gen/com/github/pvoid/androidbp/blueprint/parser/BlueprintParser.java:93-113 | the array tail stops only where no PLUS followed by an array comes next |
| GrammarFacts.ArrayExprStops | src/main/gen/com/github/pvoid/androidbp/blueprint/parser/BlueprintParser.java:80-113 | an array expression leaves a PLUS that is not followed by an array unconsumed |
| GrammarFacts.ArrayExprNext | src/main/gen/com/github/pvoid/androidbp/blueprint/parser/BlueprintParser.java:80-91 | an array expression matches iff its first array does, and ends where the tail after it ends |
| GrammarFacts.ElementsTailShape | src/main/gen/com/github/pvoid/androidbp/blueprint/parser/BlueprintParser.java:175-195 | the element tail is separator, element, separator, element, and so on |
| GrammarFacts.ElementsTailStops | src/main/gen/com/github/pvoid/androidbp/blueprint/parser/BlueprintParser.java:175-195 | the element tail takes no `]` and stops only where no separator followed by an element comes next |
| GrammarFacts.ElementsTailAvoids | src/main/gen/com/github/pvoid/androidbp/blueprint/parser/BlueprintParser.java:175-195 | the element tail takes no `]` |
| GrammarFacts.ElementsTailEnds | src/main/gen/com/github/pvoid/androidbp/blueprint/parser/BlueprintParser.java:175-184 | the element tail stops only where no separator followed by an element comes next |
| GrammarFacts.ElementsTailNext | src/main/gen/com/github/pvoid/androidbp/blueprint/parser/BlueprintParser.java:186-195 | the element tail ends here, or where the rest ends after a separator and an element |
| GrammarFacts.ElementsShape | src/main/gen/com/github/pvoid/androidbp/blueprint/parser/BlueprintParser.java:162-202 | a matched elements node starts with an element and alternates element and separator, so separators never sit side by side and at most one trails |
| GrammarFacts.ElementsAvoidArrayEnd | src/main/gen/com/github/pvoid/androidbp/blueprint/parser/BlueprintParser.java:162-213 | the tokens of an elements rule, recovery included, never include `]` |
| GrammarFacts.ElementsBodyNext | src/main/gen/com/github/pvoid/androidbp/blueprint/parser/BlueprintParser.java:162-202 | elements is its body followed by recovery until `]`; the body ends after the first element, the tail and at most one trailing separator |
| GrammarFacts.ArrayRuleOk | src/main/gen/com/github/pvoid/androidbp/blueprint/parser/BlueprintParser.java:44-63 | an array needs `[`, and then matches iff a `]` sits where the elements stop |
| GrammarFacts.ElementsStop | src/main/gen/com/github/pvoid/androidbp/blueprint/parser/BlueprintParser.java:204-213 | elements recovery ends at the end of the input or at a `]` |
| GrammarFacts.FirstArrayEnd | src/main/gen/com/github/pvoid/androidbp/blueprint/parser/BlueprintParser.java:204-213 | when no `]` lies between and the stop is the end or a `]`, the stop is a `]` iff some `]` follows |
| GrammarFacts.ArrayClosesIff | src/main/gen/com/github/pvoid/androidbp/blueprint/parser/BlueprintParser.java:44-63 | an array matches iff it opens with `[` and some `]` follows it |
| GrammarFacts.ValueAlternativesStart | src/main/gen/com/github/pvoid/androidbp/blueprint/parser/BlueprintParser.java:347-432 | string_expr matches iff the next token is STRING, variable_ref_expr iff it is VARIABLE_VALUE; array_expr needs `[` and object needs `{` |
| GrammarFacts.ValueChoice | src/main/gen/com/github/pvoid/androidbp/blueprint/parser/BlueprintParser.java:381-395 | value is the ordered choice string_expr, array_expr, object, BOOL, NUMBER, variable_ref_expr, and the first success is wrapped in the VALUE element |
| GrammarFacts.ValueDispatch | src/main/gen/com/github/pvoid/androidbp/blueprint/parser/BlueprintParser.java:381-395 | value matches only at a token that starts an alternative; it always matches at STRING, BOOL, NUMBER and VARIABLE_VALUE, and at `[` or `{` exactly when the array expression or object does |
| GrammarFacts.BlueprintPinned | src/main/gen/com/github/pvoid/androidbp/blueprint/parser/BlueprintParser.java:115-129 | blueprint succeeds iff the next token is BLUEPRINT_TYPE; a missing `{` becomes an error element, and a missing `}` can only happen at the end of the input |
| GrammarFacts.VariablePinned | src/main/gen/com/github/pvoid/androidbp/blueprint/parser/BlueprintParser.java:397-419 | variable succeeds iff the next token is VARIABLE_NAME; a missing `=` or `+=` becomes an error element |
| GrammarFacts.ValueSingle | src/main/gen/com/github/pvoid/androidbp/blueprint/parser/BlueprintParser.java:381-395 | a matched value is exactly one VALUE element |
| GrammarLeaves.RecoverCovers | src/main/gen/com/github/pvoid/androidbp/blueprint/parser/BlueprintParser.java:204-213 | skipped tokens stay in the tree, inside an error element |
| GrammarLeaves.ArrayElementCovers | src/main/gen/com/github/pvoid/androidbp/blueprint/parser/BlueprintParser.java:65-78 | the leaves of array_element are exactly the tokens it consumed |
| GrammarLeaves.ElementsTailCovers | src/main/gen/com/github/pvoid/androidbp/blueprint/parser/BlueprintParser.java:175-195 | the leaves of the element tail are exactly its tokens |
| GrammarLeaves.ElementItemsCovers | src/main/gen/com/github/pvoid/androidbp/blueprint/parser/BlueprintParser.java:162-184 | the first element and the tail together cover their tokens |
| GrammarLeaves.ElementsBodyCovers | src/main/gen/com/github/pvoid/androidbp/blueprint/parser/BlueprintParser.java:162-202 | the leaves of the elements body are exactly its tokens |
| GrammarLeaves.ElementsCovers | src/main/gen/com/github/pvoid/androidbp/blueprint/parser/BlueprintParser.java:162-213 | the leaves of elements, recovery included, are exactly its tokens |
| GrammarLeaves.ArrayCovers | src/main/gen/com/github/pvoid/androidbp/blueprint/parser/BlueprintParser.java:44-63 | the leaves of array are exactly its tokens |
| GrammarLeaves.ArrayTailCovers | src/main/gen/com/github/pvoid/androidbp/blueprint/parser/BlueprintParser.java:93-113 | the leaves of the array tail are exactly its tokens |
| GrammarLeaves.ArrayExprCovers | src/main/gen/com/github/pvoid/androidbp/blueprint/parser/BlueprintParser.java:80-91 | the leaves of array_expr are exactly its tokens |
| GrammarLeaves.StringTailCovers | src/main/gen/com/github/pvoid/androidbp/blueprint/parser/BlueprintParser.java:360-379 | the leaves of the string tail are exactly its tokens |
| GrammarLeaves.StringExprCovers | src/main/gen/com/github/pvoid/androidbp/blueprint/parser/BlueprintParser.java:347-358 | the leaves of string_expr are exactly its tokens |
| GrammarLeaves.SingleTokenCovers | src/main/gen/com/github/pvoid/androidbp/blueprint/parser/BlueprintParser.java:150-160 | the leaves of a single-token rule are exactly its token |
| GrammarLeaves.AsValueCovers | src/main/gen/com/github/pvoid/androidbp/blueprint/parser/BlueprintParser.java:386 | wrapping in a VALUE element keeps the leaves |
| GrammarLeaves.ValueCovers | src/main/gen/com/github/pvoid/androidbp/blueprint/parser/BlueprintParser.java:381-395 | the leaves of value are exactly its tokens |
| GrammarLeaves.ObjectCovers | src/main/gen/com/github/pvoid/androidbp/blueprint/parser/BlueprintParser.java:292-311 | the leaves of object are exactly its tokens |
| GrammarLeaves.VariableRefExprCovers | src/main/gen/com/github/pvoid/androidbp/blueprint/parser/BlueprintParser.java:421-450 | the leaves of variable_ref_expr are exactly its tokens |
| GrammarLeaves.MembersCovers | src/main/gen/com/github/pvoid/androidbp/blueprint/parser/BlueprintParser.java:239-290 | the leaves of members, recovery included, are exactly its tokens |
| GrammarLeaves.MembersBodyCovers | src/main/gen/com/github/pvoid/androidbp/blueprint/parser/BlueprintParser.java:239-279 | the leaves of the members body are exactly its tokens |
| GrammarLeaves.MembersTailCovers | src/main/gen/com/github/pvoid/androidbp/blueprint/parser/BlueprintParser.java:252-272 | the leaves of the pair tail are exactly its tokens |
| GrammarLeaves.PairCovers | src/main/gen/com/github/pvoid/androidbp/blueprint/parser/BlueprintParser.java:313-345 | the leaves of pair, recovery included, are exactly its tokens |
| GrammarLeaves.PairBodyCovers | src/main/gen/com/github/pvoid/androidbp/blueprint/parser/BlueprintParser.java:313-321 | the leaves of the pair body are exactly its tokens |
| GrammarLeaves.ExpectCovers | src/main/gen/com/github/pvoid/androidbp/blueprint/parser/BlueprintParser.java:124-126 | a required token, present or reported missing, covers exactly what it consumed |
| GrammarLeaves.BlueprintCovers | src/main/gen/com/github/pvoid/androidbp/blueprint/parser/BlueprintParser.java:115-136 | the leaves of blueprint are exactly its tokens |
| GrammarLeaves.VariableCovers | src/main/gen/com/github/pvoid/androidbp/blueprint/parser/BlueprintParser.java:397-419 | the leaves of variable are exactly its tokens |
| GrammarLeaves.ItemCovers | src/main/gen/com/github/pvoid/androidbp/blueprint/parser/BlueprintParser.java:227-237 | the leaves of an item are exactly its tokens |
| GrammarLeaves.ItemsCovers | src/main/gen/com/github/pvoid/androidbp/blueprint/parser/BlueprintParser.java:138-148 | the leaves of the item loop are exactly its tokens |
| GrammarLeaves.ParseFileKeepsTokens | src/main/gen/com/github/pvoid/androidbp/blueprint/parser/BlueprintParser.java:29-42 | parsing loses no token: the leaves of the file tree are the parser's input, in order |
| GrammarLeaves.ParseFileText | src/main/gen/com/github/pvoid/androidbp/blueprint/parser/BlueprintParser.java:29-42 | the text of the file tree is the text of the significant tokens |
| Parser.BlueprintParser.constructor | src/main/gen/com/github/pvoid/androidbp/blueprint/parser/BlueprintParser.java:29-34 | a parser starts at the first token of its input |
| Parser.BlueprintParser.Consume | src/main/gen/com/github/pvoid/androidbp/blueprint/parser/BlueprintParser.java:51 | consumeToken advances by one exactly when the next token has the wanted kind |
| Parser.BlueprintParser.RecoverUntil | src/main/gen/com/github/pvoid/androidbp/blueprint/parser/BlueprintParser.java:171 | the in-place recovery produces what `Grammar.Recover` specifies |
| Parser.BlueprintParser.ParseArrayElement | src/main/gen/com/github/pvoid/androidbp/blueprint/parser/BlueprintParser.java:65-78 | the in-place parse produces the nodes and position `Grammar.ArrayElementRule` specifies |
| Parser.BlueprintParser.ParseElementsTail | src/main/gen/com/github/pvoid/androidbp/blueprint/parser/BlueprintParser.java:175-195 | the separator-element loop produces what `Grammar.ElementsTail` specifies |
| Parser.BlueprintParser.ParseElements | src/main/gen/com/github/pvoid/androidbp/blueprint/parser/BlueprintParser.java:162-213 | the in-place parse produces what `Grammar.ElementsRule` specifies |
| Parser.BlueprintParser.ParseArray | src/main/gen/com/github/pvoid/androidbp/blueprint/parser/BlueprintParser.java:44-63 | the in-place parse produces what `Grammar.ArrayRule` specifies |
| Parser.BlueprintParser.ParseArrayTail | src/main/gen/com/github/pvoid/androidbp/blueprint/parser/BlueprintParser.java:93-113 | the `(PLUS array)*` loop produces what `Grammar.ArrayTail` specifies |
| Parser.BlueprintParser.ParseArrayExpr | src/main/gen/com/github/pvoid/androidbp/blueprint/parser/BlueprintParser.java:80-91 | the in-place parse produces what `Grammar.ArrayExprRule` specifies |
| Parser.BlueprintParser.ParseStringTail | src/main/gen/com/github/pvoid/androidbp/blueprint/parser/BlueprintParser.java:360-379 | the `(PLUS STRING)*` loop produces what `Grammar.StringTail` specifies |
| Parser.BlueprintParser.ParseStringExpr | src/main/gen/com/github/pvoid/androidbp/blueprint/parser/BlueprintParser.java:347-358 | the in-place parse produces what `Grammar.StringExprRule` specifies |
| Parser.BlueprintParser.ParseSingleToken | src/main/gen/com/github/pvoid/androidbp/blueprint/parser/BlueprintParser.java:150-160 | the in-place parse produces what `Grammar.SingleTokenRule` specifies |
| Parser.BlueprintParser.ParseValue | src/main/gen/com/github/pvoid/androidbp/blueprint/parser/BlueprintParser.java:381-395 | the in-place ordered choice produces what `Grammar.ValueRule` specifies |
| Parser.BlueprintParser.ParseObject | src/main/gen/com/github/pvoid/androidbp/blueprint/parser/BlueprintParser.java:292-311 | the in-place parse produces what `Grammar.ObjectRule` specifies |
| Parser.BlueprintParser.ParseVariableRefExpr | src/main/gen/com/github/pvoid/androidbp/blueprint/parser/BlueprintParser.java:421-450 | the in-place parse produces what `Grammar.VariableRefExprRule` specifies |
| Parser.BlueprintParser.ParseMembersTail | src/main/gen/com/github/pvoid/androidbp/blueprint/parser/BlueprintParser.java:252-272 | the separator-pair loop produces what `Grammar.MembersTail` specifies |
| Parser.BlueprintParser.ParseMembers | src/main/gen/com/github/pvoid/androidbp/blueprint/parser/BlueprintParser.java:239-290 | the in-place parse produces what `Grammar.MembersRule` specifies |
| Parser.BlueprintParser.ParsePair | src/main/gen/com/github/pvoid/androidbp/blueprint/parser/BlueprintParser.java:313-345 | the in-place parse produces what `Grammar.PairRule` specifies |
| Parser.BlueprintParser.ParsePairBody | src/main/gen/com/github/pvoid/androidbp/blueprint/parser/BlueprintParser.java:313-321 | the in-place parse produces what `Grammar.PairBody` specifies, never moving back |
| Parser.BlueprintParser.ExpectToken | src/main/gen/com/github/pvoid/androidbp/blueprint/parser/BlueprintParser.java:124-126 | the in-place required token produces what `Grammar.Expect` specifies |
| Parser.BlueprintParser.ParseBlueprint | src/main/gen/com/github/pvoid/androidbp/blueprint/parser/BlueprintParser.java:115-136 | the in-place pinned parse produces what `Grammar.BlueprintRule` specifies |
| Parser.BlueprintParser.ParseVariable | src/main/gen/com/github/pvoid/androidbp/blueprint/parser/BlueprintParser.java:397-419 | the in-place pinned parse produces what `Grammar.VariableRule` specifies |
| Parser.BlueprintParser.ParseItem | src/main/gen/com/github/pvoid/androidbp/blueprint/parser/BlueprintParser.java:227-237 | the in-place parse produces what `Grammar.ItemRule` specifies |
| Parser.BlueprintParser.BlueprintFile | src/main/gen/com/github/pvoid/androidbp/blueprint/parser/BlueprintParser.java:138-148 | the item loop produces what `Grammar.Items` specifies |
| Parser.BlueprintParser.ParseRoot | src/main/gen/com/github/pvoid/androidbp/blueprint/parser/BlueprintParser.java:29-42 | the root section yields `Grammar.ParseFile` of the input |
| Parser.ParseTokens | src/main/gen/com/github/pvoid/androidbp/blueprint/parser/BlueprintParser.java:29-42 | a fresh parser yields `Grammar.ParseFile` of its input, whose leaves are exactly the input tokens |
| PsiUtils.FindKind | src/main/kotlin/com/github/pvoid/androidbp/blueprint/model/BlueprintPsiUtils.kt:35 | the first node at or after the start with one of the wanted element types, and none before it; none when no such node follows |
| PsiUtils.ChildOfKind | src/main/kotlin/com/github/pvoid/androidbp/blueprint/model/BlueprintPsiUtils.kt:46 | a found child is a child of the node and has the wanted element type |
| PsiUtils.StringTexts | src/main/kotlin/com/github/pvoid/androidbp/blueprint/model/BlueprintPsiUtils.kt:18-20 | the STRING children are kept, never more than there are children |
| PsiUtils.StringTextsAppend | src/main/kotlin/com/github/pvoid/androidbp/blueprint/model/BlueprintPsiUtils.kt:18-20 | the filter keeps document order across a split of the children |
| PsiUtils.GetValue | src/main/kotlin/com/github/pvoid/androidbp/blueprint/model/BlueprintPsiUtils.kt:17-22 | `getValue`: the texts of the STRING children joined with `, `; `GetValueOfSum` and `GetValueOfLiteral` state its value on the trees the parser builds |
| PsiUtils.GetValueOfSum | src/main/kotlin/com/github/pvoid/androidbp/blueprint/model/BlueprintPsiUtils.kt:17-22 | `"a" + "b"` as the parser builds it has the value `"a", "b"`: the `+` is dropped, the quotes stay, and the pieces are joined with `joinToString`'s default `, ` |
| PsiUtils.GetValueOfLiteral | src/main/kotlin/com/github/pvoid/androidbp/blueprint/model/BlueprintPsiUtils.kt:17-22 | a single string literal has its own text, quotes included |
| PsiUtils.Preorder | src/main/kotlin/com/github/pvoid/androidbp/blueprint/model/BlueprintPsiUtils.kt:25 | `collectElements` visits the element itself first |
| PsiUtils.FirstTypeName | src/main/kotlin/com/github/pvoid/androidbp/blueprint/model/BlueprintPsiUtils.kt:25-27 | there is no name exactly when no BLUEPRINT_TYPE element is among the nodes |
| PsiUtils.ParsedBlueprintName | src/main/kotlin/com/github/pvoid/androidbp/blueprint/model/BlueprintPsiUtils.kt:24-28 | a definition as the parser builds it is named by the token of its type element |
| PsiUtils.GetFieldBlueprint | src/main/kotlin/com/github/pvoid/androidbp/blueprint/model/BlueprintPsiUtils.kt:34-43 | a found owner is always a module definition |
| PsiUtils.FindComposite | src/main/kotlin/com/github/pvoid/androidbp/blueprint/model/BlueprintPsiUtils.kt:35 | `getParentOfType` finds the nearest enclosing element of the type, with none of that type in between |
| PsiUtils.IsBlueprintFieldIff | src/main/kotlin/com/github/pvoid/androidbp/blueprint/model/BlueprintPsiUtils.kt:30-43 | a field name is a module field iff the nearest MEMBERS above it sits directly in a module definition; fields of nested objects are not |
| PsiUtils.CollectPath | src/main/kotlin/com/github/pvoid/androidbp/blueprint/model/BlueprintPsiUtils.kt:48-61 | the walk up the parents collects each enclosing pair's field name and ends with the module's name; it produces what `PsiUtils.PathOf` specifies |
| PsiUtils.PathOf | src/main/kotlin/com/github/pvoid/androidbp/blueprint/model/BlueprintPsiUtils.kt:48-61 | the path `getFieldDef` collects walking up the parents: the field name of each enclosing pair, then the module name, and an error for a pair without a field name; `PairPath` states it for a pair in a module |
| PsiUtils.WalkDown | src/main/kotlin/com/github/pvoid/androidbp/blueprint/model/BlueprintPsiUtils.kt:63-73 | the pop loop produces what `Schema.Descend` specifies |
| PsiUtils.GetFieldDef | src/main/kotlin/com/github/pvoid/androidbp/blueprint/model/BlueprintPsiUtils.kt:45-76 | collecting the path and walking down the schema produce what `PsiUtils.FieldDef` specifies |
| PsiUtils.FieldDef | src/main/kotlin/com/github/pvoid/androidbp/blueprint/model/BlueprintPsiUtils.kt:45-76 | `getFieldDef`: the schema field reached from the module type along the path, outermost first, or the exception for a missing field name or an empty path; `FieldDefTopLevel`, `FieldDefNested` and `OneStepFieldDef` state its cases |
| PsiUtils.FieldDefTopLevel | src/main/kotlin/com/github/pvoid/androidbp/blueprint/model/BlueprintPsiUtils.kt:45-76 | a field directly in a module definition is the first field of that name in the module type's schema |
| PsiUtils.FieldDefNested | src/main/kotlin/com/github/pvoid/androidbp/blueprint/model/BlueprintPsiUtils.kt:63-75 | a field of an object held by a module field is looked up among that object field's fields, and has no definition when the outer field is not an object field |
| PsiUtils.PairPath | src/main/kotlin/com/github/pvoid/androidbp/blueprint/model/BlueprintPsiUtils.kt:48-61 | the path from a pair in a module's members is the pair's field name, then the module's name |
| PsiUtils.OneStepFieldDef | src/main/kotlin/com/github/pvoid/androidbp/blueprint/model/BlueprintPsiUtils.kt:63-75 | one step below a module, the definition is the named field of the outer object field, or none when the outer field is missing or not an object field |
| Schema.FirstNamed | src/main/kotlin/com/github/pvoid/androidbp/blueprint/model/BlueprintPsiUtils.kt:75 | `firstOrNull { it.name == name }`: none iff no field has the name, and otherwise the first field that has it |
| Schema.Lookup | src/main/kotlin/com/github/pvoid/androidbp/blueprint/model/BlueprintPsiUtils.kt:66 | a null name matches no field, and any other name gives the first field of that name |
| Schema.FieldsOf | src/main/kotlin/com/github/pvoid/androidbp/blueprint/completion/BlueprintAutocompletion.kt:53-54 | the fields of the first module type with the name, and none when no type has it |
| Schema.Unused | src/main/kotlin/com/github/pvoid/androidbp/blueprint/completion/BlueprintFieldNameCompletionProvider.kt:100-102 | exactly the fields whose names are not used, never more than the schema holds |
| Schema.UnusedAppend | src/main/kotlin/com/github/pvoid/androidbp/blueprint/completion/BlueprintFieldNameCompletionProvider.kt:100-102 | the filter keeps schema order |
| Schema.Descend | src/main/kotlin/com/github/pvoid/androidbp/blueprint/model/BlueprintPsiUtils.kt:63-73 | an empty path leaves the fields unchanged |
| Schema.DescendStops | src/main/kotlin/com/github/pvoid/androidbp/blueprint/model/BlueprintPsiUtils.kt:66-70 | a step that is missing or is not an object field ends the descent with nothing |
| Schema.DescendOuter | src/main/kotlin/com/github/pvoid/androidbp/blueprint/model/BlueprintPsiUtils.kt:64-72 | descending through an outer object field, then along the inner path, is descending along the whole path |
| Evaluate.NextValueNode | src/main/kotlin/com/github/pvoid/androidbp/blueprint/model/BlueprintPsiFileExt.kt:111-127 | the first sibling from the start whose type holds a value (string expression, string, array expression, object, bool, number, link, variable reference), none before it; none when there is none |
| Evaluate.FindValueNode | src/main/kotlin/com/github/pvoid/androidbp/blueprint/model/BlueprintPsiFileExt.kt:111-127 | the sibling loop produces what `Evaluate.NextValueNode` specifies |
| Evaluate.TrimQuoteChars | src/main/kotlin/com/github/pvoid/androidbp/blueprint/model/BlueprintPsiFileExt.kt:95 | every leading and trailing quote character is removed, and a string without quotes at its ends is unchanged |
| Evaluate.ConcatKinds | src/main/kotlin/com/github/pvoid/androidbp/blueprint/model/BlueprintPsiFileExt.kt:129-152 | `concat` succeeds iff both operands are lists, both strings or both ints; lists and strings append, and ints add with 32-bit wrap-around |
| Evaluate.Concat | src/main/kotlin/com/github/pvoid/androidbp/blueprint/model/BlueprintPsiFileExt.kt:129-152 | `concat`: no left value gives the right one; lists and strings append, Ints add with wrap-around, and any other pair throws; stated by `ConcatKinds` and `ConcatAssociative` |
| Evaluate.ConcatAssociative | src/main/kotlin/com/github/pvoid/androidbp/blueprint/model/BlueprintPsiFileExt.kt:131-142 | concatenating three strings or three lists does not depend on grouping |
| Evaluate.ValueOf | src/main/kotlin/com/github/pvoid/androidbp/blueprint/model/BlueprintPsiFileExt.kt:62 | the value of a VALUE element is what `Evaluate.ValueAt` specifies |
| Evaluate.Eval | src/main/kotlin/com/github/pvoid/androidbp/blueprint/model/BlueprintPsiFileExt.kt:75-109 | `nodeToValue`, `createObject` and `fillArray`: the value of a node under the variable table; `ScalarValues`, `VariableReference`, `ArraySum`, `MembersLastWins` and `MembersKeep` state its cases |
| Evaluate.CreateVariable | src/main/kotlin/com/github/pvoid/androidbp/blueprint/model/BlueprintPsiFileExt.kt:43-73 | the two sibling walks and the store produce the new table `Evaluate.VariableStep` specifies |
| Evaluate.FindOperator | src/main/kotlin/com/github/pvoid/androidbp/blueprint/model/BlueprintPsiFileExt.kt:49-58 | the walk stops at the first `=` or `+=` sibling and notes whether it is `+=` |
| Evaluate.NextValue | src/main/kotlin/com/github/pvoid/androidbp/blueprint/model/BlueprintPsiFileExt.kt:60-66 | the walk stops at the first VALUE sibling |
| Evaluate.ParsedVariable | src/main/kotlin/com/github/pvoid/androidbp/blueprint/model/BlueprintPsiFileExt.kt:68-72 | `+=` on a name in the table stores `concat(old, new)`; `=`, or `+=` on an unknown name, stores the value; a failing `concat` fails the file |
| Evaluate.IncompleteVariable | src/main/kotlin/com/github/pvoid/androidbp/blueprint/model/BlueprintPsiFileExt.kt:47-66 | a variable without a `=`/`+=` sibling, or without a VALUE sibling, leaves the table unchanged |
| Evaluate.VariableReference | src/main/kotlin/com/github/pvoid/androidbp/blueprint/model/BlueprintPsiFileExt.kt:107-109 | a reference is looked up by its whole text, and an unknown name gives the opaque `Any()` value |
| Evaluate.ScalarValues | src/main/kotlin/com/github/pvoid/androidbp/blueprint/model/BlueprintPsiFileExt.kt:92-109 | BOOL is true iff its trimmed text is `true`; NUMBER is its `Int` or the opaque value; STRING and LINK lose their quotes; any other node is the opaque value |
| Evaluate.NonNumber | src/main/kotlin/com/github/pvoid/androidbp/blueprint/model/BlueprintPsiFileExt.kt:93 | a number with a non-digit in it, such as `1x`, is the opaque value |
| Evaluate.ElementNameIsUnknown | src/main/kotlin/com/github/pvoid/androidbp/blueprint/model/BlueprintPsiFileExt.kt:83-90 | an array element written as a bare name is never looked up and is the opaque value |
| Evaluate.ArraysValueAcc | src/main/kotlin/com/github/pvoid/androidbp/blueprint/model/BlueprintPsiFileExt.kt:98-105 | the fold over the arrays only appends: the values gathered so far stay in front |
| Evaluate.ArraySum | src/main/kotlin/com/github/pvoid/androidbp/blueprint/model/BlueprintPsiFileExt.kt:98-105 | `[a…] + [b…]` is one flat list of the first array's elements, then the second's |
| Evaluate.EmptyArray | src/main/kotlin/com/github/pvoid/androidbp/blueprint/model/BlueprintPsiFileExt.kt:100-102 | an array without elements contributes nothing |
| Evaluate.MembersKeep | src/main/kotlin/com/github/pvoid/androidbp/blueprint/model/BlueprintPsiFileExt.kt:75-81 | a key that no later pair sets keeps its value through the fold |
| Evaluate.MembersLastWins | src/main/kotlin/com/github/pvoid/androidbp/blueprint/model/BlueprintPsiFileExt.kt:75-81 | in an object, the last pair with a field name decides its value |
| Evaluate.CreateBlueprint | src/main/kotlin/com/github/pvoid/androidbp/blueprint/model/BlueprintPsiFileExt.kt:31-41 | the record is what `Evaluate.BlueprintOf` specifies: none without a type element, and the factory's record for the evaluated members otherwise |
| Evaluate.ToBlueprints | src/main/kotlin/com/github/pvoid/androidbp/blueprint/model/BlueprintPsiFileExt.kt:17-29 | the pass with a mutable table and result list produces what `Evaluate.Blueprints` specifies |
| Evaluate.Blueprints | src/main/kotlin/com/github/pvoid/androidbp/blueprint/model/BlueprintPsiFileExt.kt:17-29 | `toBlueprints`: the records of the definitions in file order, each made with the table of the variables before it, or the first error; stated by `RunExtends`, `RunFails`, `BlueprintSeesEarlierVariables` and `VariablesInOrder` |
| Evaluate.StepItem | src/main/kotlin/com/github/pvoid/androidbp/blueprint/model/BlueprintPsiFileExt.kt:22-27 | one child: a definition appends its record, a variable updates the table, anything else changes nothing |
| Evaluate.RunFails | src/main/kotlin/com/github/pvoid/androidbp/blueprint/model/BlueprintPsiFileExt.kt:17-29 | an item that throws ends the pass: its error is the result for the whole file |
| Evaluate.RunExtends | src/main/kotlin/com/github/pvoid/androidbp/blueprint/model/BlueprintPsiFileExt.kt:17-29 | later items never change the records already made |
| Evaluate.BlueprintSeesEarlierVariables | src/main/kotlin/com/github/pvoid/androidbp/blueprint/model/BlueprintPsiFileExt.kt:17-29 | a definition's record is made from the table of the items before it, and sits right after the earlier records, whatever follows |
| Evaluate.VariablesInOrder | src/main/kotlin/com/github/pvoid/androidbp/blueprint/model/BlueprintPsiFileExt.kt:22-27 | assignments take effect in file order: the second of two `=` to a name wins, and a later `+=` appends to it |
| Makefile.AssignValue | src/main/kotlin/com/github/pvoid/androidbp/blueprint/Makefile.kt:69-84 | `assign` never touches the module's name or type |
| Makefile.CreateReplaces | src/main/kotlin/com/github/pvoid/androidbp/blueprint/Makefile.kt:71-73 | `:=` replaces the variable whatever it held, and no other variable appears or disappears |
| Makefile.AppendOnlyExtends | src/main/kotlin/com/github/pvoid/androidbp/blueprint/Makefile.kt:74-77 | `+=` extends an existing list and never creates one; no other variable changes |
| Makefile.AssignGuardedByStaticLibs | src/main/kotlin/com/github/pvoid/androidbp/blueprint/Makefile.kt:78-82 | `=` writes only while `static_libs` is unset, and then acts as `:=` |
| Makefile.KeepParts | src/main/kotlin/com/github/pvoid/androidbp/blueprint/Makefile.kt:54-64 | the kept path parts are never more than the parts |
| Makefile.KeepPlainParts | src/main/kotlin/com/github/pvoid/androidbp/blueprint/Makefile.kt:54-64 | parts without `$` are all kept, in order |
| Makefile.PlainDirKept | src/main/kotlin/com/github/pvoid/androidbp/blueprint/Makefile.kt:53-67 | a directory without variables is kept as it is |
| Makefile.LocalPathDropped | src/main/kotlin/com/github/pvoid/androidbp/blueprint/Makefile.kt:55-57 | a path under `$(LOCAL_PATH)` is taken relative to the module's directory |
| Makefile.OtherVariableGivesUp | src/main/kotlin/com/github/pvoid/androidbp/blueprint/Makefile.kt:58-59 | a path under any other variable gives `""` |
| Makefile.ResourceDirs | src/main/kotlin/com/github/pvoid/androidbp/blueprint/Makefile.kt:47 | the resource directories never include a blank entry and are never more than the written ones |
| Makefile.ScanToken | src/main/kotlin/com/github/pvoid/androidbp/blueprint/Makefile.kt:90-118 | each step of the `addSource` scan moves forward, so the loop ends |
| Makefile.ScanCallAt | src/main/kotlin/com/github/pvoid/androidbp/blueprint/Makefile.kt:92-102 | the step at a `$(call …)` resumes past its `)` |
| Makefile.ScanStep | src/main/kotlin/com/github/pvoid/androidbp/blueprint/Makefile.kt:91-118 | the loop body produces what `Makefile.ScanToken` specifies |
| Makefile.ScanCallStep | src/main/kotlin/com/github/pvoid/androidbp/blueprint/Makefile.kt:92-102 | the loop body at a call produces what `Makefile.ScanCallAt` specifies |
| Makefile.ScanCall | src/main/kotlin/com/github/pvoid/androidbp/blueprint/Makefile.kt:92-102 | at a call closed at `end` the scan adds what the parameters name and resumes at `end + 1` |
| Makefile.SourcesFrom | src/main/kotlin/com/github/pvoid/androidbp/blueprint/Makefile.kt:86-119 | the sources `addSource` collects from a position: plain tokens and the directories of Java-files calls, with the offset as written or corrected, or the error for an unclosed call; `CollectSources`, `SourcesStep`, `CallAnywhere` and `CallOffsetAsWritten` state it |
| Makefile.CallSourcesOf | src/main/kotlin/com/github/pvoid/androidbp/blueprint/Makefile.kt:94-101 | the parameters split at the first comma give the trimmed directory when the function is `all-java-files-under`, and nothing otherwise |
| Makefile.CollectSources | src/main/kotlin/com/github/pvoid/androidbp/blueprint/Makefile.kt:86-119 | the `addSource` loop produces what `Makefile.SourcesFrom` specifies |
| Makefile.CallClose | src/main/kotlin/com/github/pvoid/androidbp/blueprint/Makefile.kt:93 | a `$(call all-java-files-under,X)` is closed by its own `)` when `X` has none |
| Makefile.CallParams | src/main/kotlin/com/github/pvoid/androidbp/blueprint/Makefile.kt:94-99 | the parameters of a Java-files call give its directory, trimmed |
| Makefile.ScanLeadingToken | src/main/kotlin/com/github/pvoid/androidbp/blueprint/Makefile.kt:109-117 | a plain leading token is collected before the scan reaches the call |
| Makefile.MisreadParams | src/main/kotlin/com/github/pvoid/androidbp/blueprint/Makefile.kt:94 | read from offset 7 of the whole value, the parameters start inside `$(call` and give no directory |
| Makefile.CallOffsetAsWritten | src/main/kotlin/com/github/pvoid/androidbp/blueprint/Makefile.kt:94 | as written, `x $(call all-java-files-under,s)` yields only `x` |
| Makefile.CallMisread | src/main/kotlin/com/github/pvoid/androidbp/blueprint/Makefile.kt:92-102 | as written, a call that does not start the value contributes nothing |
| Makefile.MisreadSlice | src/main/kotlin/com/github/pvoid/androidbp/blueprint/Makefile.kt:94 | offset 7 of `x $(call all-java-files-under,s)` falls on the `l ` at the end of `$(call ` |
| Makefile.CallOffsetCorrected | src/main/kotlin/com/github/pvoid/androidbp/blueprint/Makefile.kt:86-122 | read from the call's own offset, the same value yields both `x` and the directory `s` |
| Makefile.CallAnywhere | src/main/kotlin/com/github/pvoid/androidbp/blueprint/Makefile.kt:92-102 | as intended, a call contributes its trimmed directory wherever it stands, and the scan resumes just past it |
| Makefile.SourcesStep | src/main/kotlin/com/github/pvoid/androidbp/blueprint/Makefile.kt:90-119 | the scan continues from where each step resumes |
| Makefile.PlainSources | src/main/kotlin/com/github/pvoid/androidbp/blueprint/Makefile.kt:109-117 | a value of plain file names yields its non-empty space-separated tokens, in order |
| Makefile.NonEmpty | src/main/kotlin/com/github/pvoid/androidbp/blueprint/Makefile.kt:114-116 | empty tokens are skipped and every other one is kept |
| Makefile.ParamStep | src/main/kotlin/com/github/pvoid/androidbp/blueprint/Makefile.kt:28-51 | only `LOCAL_MODULE` and `LOCAL_PACKAGE_NAME` change the name, and no variable changes the type |
| Makefile.LastNameWins | src/main/kotlin/com/github/pvoid/androidbp/blueprint/Makefile.kt:29-35 | `LOCAL_MODULE` and `LOCAL_PACKAGE_NAME` both name the module, and the later one wins |
| Makefile.UnknownVariableIgnored | src/main/kotlin/com/github/pvoid/androidbp/blueprint/Makefile.kt:28-51 | a variable the reader does not know leaves the module unchanged |
| Makefile.Members | src/main/kotlin/com/github/pvoid/androidbp/blueprint/Makefile.kt:145 | each variable becomes a list of its strings under the same key |
| Makefile.BuildSpec | src/main/kotlin/com/github/pvoid/androidbp/blueprint/Makefile.kt:124-130 | a module is built exactly when it has both a name and a type |
| Makefile.BuiltModule | src/main/kotlin/com/github/pvoid/androidbp/blueprint/Makefile.kt:132-145 | a built module keeps its name and variables, has `static_libs` = Android then Java static libraries, turns a static Java library with resources into an Android library, and is marked as read from make |
| Makefile.BlueprintBuilder.constructor | src/main/kotlin/com/github/pvoid/androidbp/blueprint/Makefile.kt:19-22 | a new builder has no name, no type and no variables |
| Makefile.BlueprintBuilder.SetType | src/main/kotlin/com/github/pvoid/androidbp/blueprint/Makefile.kt:24-26 | `type` sets the type and nothing else |
| Makefile.BlueprintBuilder.AssignVar | src/main/kotlin/com/github/pvoid/androidbp/blueprint/Makefile.kt:69-84 | the builder's state becomes what `Makefile.AssignValue` specifies |
| Makefile.BlueprintBuilder.AddSource | src/main/kotlin/com/github/pvoid/androidbp/blueprint/Makefile.kt:86-122 | the collected sources, scanned with the corrected call offset, are assigned to `srcs` with the line's action; an unclosed call throws before anything changes |
| Makefile.BlueprintBuilder.Param | src/main/kotlin/com/github/pvoid/androidbp/blueprint/Makefile.kt:28-51 | the builder's state becomes what `Makefile.ParamStep` specifies, or the error it reports |
| Makefile.BlueprintBuilder.Build | src/main/kotlin/com/github/pvoid/androidbp/blueprint/Makefile.kt:124-146 | the result is what `Makefile.BuildSpec` specifies, and building also stores `static_libs` in the builder |
| Makefile.Classify | src/main/kotlin/com/github/pvoid/androidbp/blueprint/Makefile.kt:210-228 | a line without `=` is not an assignment |
| Makefile.SplitAtEquals | src/main/kotlin/com/github/pvoid/androidbp/blueprint/Makefile.kt:210 | a line splits at its first `=` |
| Makefile.ClassifyOperators | src/main/kotlin/com/github/pvoid/androidbp/blueprint/Makefile.kt:210-228 | `NAME := v` is Create, `NAME += v` is Append, and any other `NAME = v` is Assign; the name is right-trimmed and the value trimmed |
| Makefile.ClassifySplit | src/main/kotlin/com/github/pvoid/androidbp/blueprint/Makefile.kt:214-227 | the character before the first `=` selects the action |
| Makefile.NoEqualsIgnored | src/main/kotlin/com/github/pvoid/androidbp/blueprint/Makefile.kt:209-211 | a line that is not an `include` and has no `=` changes nothing |
| Makefile.ParseFailureSticks | src/main/kotlin/com/github/pvoid/androidbp/blueprint/Makefile.kt:192-231 | an error ends the parse: no later line changes it |
| Makefile.Include | src/main/kotlin/com/github/pvoid/androidbp/blueprint/Makefile.kt:195-208 | an `include` line, applied to the builder object, gives what `Makefile.IncludeStep` specifies |
| Makefile.ParseLine | src/main/kotlin/com/github/pvoid/androidbp/blueprint/Makefile.kt:194-230 | one line, applied to the builder object, gives the state or the error `Makefile.LineStep` specifies |
| Makefile.Parse | src/main/kotlin/com/github/pvoid/androidbp/blueprint/Makefile.kt:183-233 | `parse` produces what `Makefile.ParseMakefile` specifies |
| Makefile.ParseMakefile | src/main/kotlin/com/github/pvoid/androidbp/blueprint/Makefile.kt:183-233 | `parse` over logical lines: a module for each `$(CLEAR_VARS)` after a complete one, none without a relative path, or the first error; `ClearVarsEmits`, `NoClearNoModule` and `ParseFailureSticks` state it |
| Makefile.ParseLinesSnoc | src/main/kotlin/com/github/pvoid/androidbp/blueprint/Makefile.kt:192-231 | reading one more line is one more step |
| Makefile.NoClearNoModule | src/main/kotlin/com/github/pvoid/androidbp/blueprint/Makefile.kt:199-202 | lines without `$(CLEAR_VARS)` never add a module, so the module after the last one is never emitted |
| Makefile.LineKeepsResult | src/main/kotlin/com/github/pvoid/androidbp/blueprint/Makefile.kt:194-230 | only a `$(CLEAR_VARS)` line adds a module |
| Makefile.VariableKeepsResult | src/main/kotlin/com/github/pvoid/androidbp/blueprint/Makefile.kt:209-229 | a variable line changes only the module being read |
| Makefile.ClearVarsEmits | src/main/kotlin/com/github/pvoid/androidbp/blueprint/Makefile.kt:199-202 | each `$(CLEAR_VARS)` keeps the module read so far, when it has a name and a type, and starts a fresh builder |
| Makefile.IncludeLine | src/main/kotlin/com/github/pvoid/androidbp/blueprint/Makefile.kt:195-198 | an `include` line always has a target, which is trimmed |
| Makefile.ReadFailureSticks | src/main/kotlin/com/github/pvoid/androidbp/blueprint/Makefile.kt:152-181 | an error ends the read: no later line changes it |
| Makefile.ReadMakefile | src/main/kotlin/com/github/pvoid/androidbp/blueprint/Makefile.kt:152-181 | the loop with a line builder produces the logical lines `Makefile.LogicalLines` specifies |
| Makefile.LogicalLines | src/main/kotlin/com/github/pvoid/androidbp/blueprint/Makefile.kt:152-181 | `readMakefile`: trimmed lines, with a trailing `\` joining the next and an include replaced by the included file's lines; `ContinuationJoined`, `DanglingContinuationDropped` and `ReadFailureSticks` state it |
| Makefile.ParseFile | src/main/kotlin/com/github/pvoid/androidbp/blueprint/Makefile.kt:183-191 | without a path relative to the root there are no modules; otherwise the modules of the logical lines, or the read's error |
| Makefile.ContinuationJoined | src/main/kotlin/com/github/pvoid/androidbp/blueprint/Makefile.kt:157-162 | lines are trimmed, and a line ending in `\` is joined to the next with the backslash removed |
| Makefile.ContinuedStep | src/main/kotlin/com/github/pvoid/androidbp/blueprint/Makefile.kt:159-160 | a line ending in `\` only extends the pending line |
| Makefile.FinishedStep | src/main/kotlin/com/github/pvoid/androidbp/blueprint/Makefile.kt:161-177 | a finished line that is not an `include` is produced as it is, and the pending line is cleared |
| Makefile.DanglingContinuationDropped | src/main/kotlin/com/github/pvoid/androidbp/blueprint/Makefile.kt:158-179 | a continuation on the last line is never finished, so it produces nothing |
| Legacy.RelativePathSplits | src/main/kotlin/com/github/pvoid/androidbp/blueprint/Blueprint.kt:61 | `relativePath` is the directory relative to the root, a `/`, then the module name |
| Legacy.IsAndroidProject | src/main/kotlin/com/github/pvoid/androidbp/blueprint/Blueprint.kt:63-65 | `isAndroidProject()`: the type is one of `android_app`, `android_library`, `android_test` and `android_test_helper_app`; `Legacy.RFile` and `Legacy.JavaImportCorrected` state what it decides |
| Legacy.IsJavaProject | src/main/kotlin/com/github/pvoid/androidbp/blueprint/Blueprint.kt:71-73 | `isJavaProject()`: the type is one of the Java types; `Legacy.JavaImportAsWritten` shows that `isJavaImport()` is the same test |
| Legacy.JavaImportAsWritten | src/main/kotlin/com/github/pvoid/androidbp/blueprint/Blueprint.kt:71-77 | as written, `isJavaImport()` is the same test as `isJavaProject()` and rejects both import types |
| Legacy.JavaImportCorrected | src/main/kotlin/com/github/pvoid/androidbp/blueprint/Blueprint.kt:75-77 | the intended test accepts `java_import` and `java_import_host`, and never a Java or Android project |
| Legacy.ResApk | src/main/kotlin/com/github/pvoid/androidbp/blueprint/Blueprint.kt:98-101 | only an Android library import has a resource package, at `<relativePath>/android_common/package-res.apk` |
| Legacy.RFile | src/main/kotlin/com/github/pvoid/androidbp/blueprint/Blueprint.kt:103-113 | exactly the Android projects have an R file: under the module's output for a Blueprint module, under the make intermediates for an `Android.mk` one |
| Legacy.RAndResApkExclusive | src/main/kotlin/com/github/pvoid/androidbp/blueprint/Blueprint.kt:98-113 | no module has both an R file and a resource package |
| Legacy.StringSet | src/main/kotlin/com/github/pvoid/androidbp/blueprint/Blueprint.kt:293-295 | a string is collected exactly when the member is a list holding it; other items and non-lists give nothing |
| Legacy.AddStrings | src/main/kotlin/com/github/pvoid/androidbp/blueprint/Blueprint.kt:293-295 | `toStringCollection` adds exactly the strings of the member to the target |
| Legacy.Dependencies | src/main/kotlin/com/github/pvoid/androidbp/blueprint/Blueprint.kt:137-176 | the set the method fills is `Legacy.DependencySet` for the scope |
| Legacy.DependencySet | src/main/kotlin/com/github/pvoid/androidbp/blueprint/Blueprint.kt:137-176 | `dependencies(scope)` as a set: the hard-wired entries, the standard libraries for the whole scope, `libs` outside the static scope and `static_libs` outside the dynamic scope; stated by `ScopesCombine`, `ScopesSeparate`, `StandardOnlyInAll` and `NoStandardLibsDropsCore` |
| Legacy.ScopesCombine | src/main/kotlin/com/github/pvoid/androidbp/blueprint/Blueprint.kt:146-173 | the whole scope is the static scope, the dynamic scope and the standard libraries together |
| Legacy.ScopesSeparate | src/main/kotlin/com/github/pvoid/androidbp/blueprint/Blueprint.kt:166-173 | a name only in `libs` is dynamic and not static; a name only in `static_libs` is static and not dynamic |
| Legacy.StandardOnlyInAll | src/main/kotlin/com/github/pvoid/androidbp/blueprint/Blueprint.kt:146-164 | outside the whole scope, every dependency is hard-wired or listed by the module |
| Legacy.NoStandardLibsDropsCore | src/main/kotlin/com/github/pvoid/androidbp/blueprint/Blueprint.kt:148-159 | for Android and Java modules `no_standard_libs: true` removes exactly `core-all`; Android ones also get `framework` and `framework-res`, and both get `kotlin-stdlib` |
| Legacy.SdkLibraryTakesJavaBranch | src/main/kotlin/com/github/pvoid/androidbp/blueprint/Blueprint.kt:155-163 | `java_sdk_library` is a Java type, so it never reaches the branch that would add `framework` |
| Legacy.ServicesCoreHasFramework | src/main/kotlin/com/github/pvoid/androidbp/blueprint/Blueprint.kt:141-144 | `services.core` depends on `framework` in every scope |
| Legacy.Defaults | src/main/kotlin/com/github/pvoid/androidbp/blueprint/Blueprint.kt:178-182 | the defaults are exactly the strings of the `defaults` list |
| Legacy.SourceDir | src/main/kotlin/com/github/pvoid/androidbp/blueprint/Blueprint.kt:303-322 | the directory kept for an entry is a prefix of it without `*` |
| Legacy.SourcePathsOf | src/main/kotlin/com/github/pvoid/androidbp/blueprint/Blueprint.kt:299-329 | `toSourcePaths` fails exactly on an empty entry, and otherwise maps each entry on its own, keeping their number and order |
| Legacy.Sources | src/main/kotlin/com/github/pvoid/androidbp/blueprint/Blueprint.kt:227-229 | `sources(relative)`: the source paths of `srcs` under the relative or absolute directory, nothing when `srcs` is not a list, and the error of `toSourcePaths` on an empty entry |
| Legacy.ReferencePassesThrough | src/main/kotlin/com/github/pvoid/androidbp/blueprint/Blueprint.kt:300-301 | a module reference `:name` is kept as it is |
| Legacy.SourceFileGivesDirectory | src/main/kotlin/com/github/pvoid/androidbp/blueprint/Blueprint.kt:305-315 | a `.java` or `.kt` file below a directory stands for that directory under the base |
| Legacy.GlobGivesDirectory | src/main/kotlin/com/github/pvoid/androidbp/blueprint/Blueprint.kt:316-326 | a glob stands for the directory before its first wildcard |
| Legacy.DefaultResources | src/main/kotlin/com/github/pvoid/androidbp/blueprint/Blueprint.kt:255-258 | apps and libraries without `resource_dirs` use `res` under the base; other types have no resources |
| Legacy.Resources | src/main/kotlin/com/github/pvoid/androidbp/blueprint/Blueprint.kt:255-258 | `resources(relative)`: the paths of `resource_dirs`, or of `res` when it is not a list, for apps and libraries, and nothing for other types; `Legacy.DefaultResources` states the fallback |
| Legacy.Create | src/main/kotlin/com/github/pvoid/androidbp/blueprint/Blueprint.kt:284-289 | a module exists exactly when `name` is a string and the directory has a path relative to the root; it keeps type and members and is not from make |
| BlueprintsTable.KnownNameKept | src/main/kotlin/com/github/pvoid/androidbp/blueprint/BlueprintsTable.kt:93-122 | a name the index knows is never rewritten |
| BlueprintsTable.FixUpName | src/main/kotlin/com/github/pvoid/androidbp/blueprint/BlueprintsTable.kt:93-122 | `fixUpName`: an indexed name is kept; otherwise `.stubs` is dropped, and `-java` is dropped or `m-V<v>-java` becomes `m@v`; its cases are the lemmas `KnownNameKept`, `StubsDropped`, `JavaSuffixDropped`, `VersionedInterface` and `NotAVersion` |
| BlueprintsTable.StubsDropped | src/main/kotlin/com/github/pvoid/androidbp/blueprint/BlueprintsTable.kt:94-97 | an unknown `x.stubs` names the module `x`, with no further rewrite |
| BlueprintsTable.JavaSuffixDropped | src/main/kotlin/com/github/pvoid/androidbp/blueprint/BlueprintsTable.kt:101-120 | an unknown `x-java` whose name has no other `-` names `x` |
| BlueprintsTable.VersionedParts | src/main/kotlin/com/github/pvoid/androidbp/blueprint/BlueprintsTable.kt:105-107 | in `m-V<v>-java` the last `-` before the suffix is the one after `m`, and `V` follows it |
| BlueprintsTable.VersionedInterface | src/main/kotlin/com/github/pvoid/androidbp/blueprint/BlueprintsTable.kt:101-120 | an unknown `m-V<v>-java` with `v` made of digits and dots names `m@v`, the inverse of the interface's generated library name |
| BlueprintsTable.NotAVersion | src/main/kotlin/com/github/pvoid/androidbp/blueprint/BlueprintsTable.kt:106-112 | when the text after `-V` is not a version only `-java` is dropped; an empty version is accepted, so `m-V-java` names `m@` |
| BlueprintsTable.FirstWithName | src/main/kotlin/com/github/pvoid/androidbp/blueprint/BlueprintsTable.kt:62-64 | `firstOrNull`: none exactly when no module has the name, and otherwise the module at the first position holding that name, with none of that name before it |
| BlueprintsTable.ParseResult | src/main/kotlin/com/github/pvoid/androidbp/blueprint/BlueprintsTable.kt:67-91 | what `parse` returns: nothing for a missing file, and for a file not in the cache its modules when there is a source root and nothing without one |
| BlueprintsTable.Table.constructor | src/main/kotlin/com/github/pvoid/androidbp/blueprint/BlueprintsTable.kt:35-43 | a new table has the project's source root, no files, an empty index and an empty cache |
| BlueprintsTable.Table.Update | src/main/kotlin/com/github/pvoid/androidbp/blueprint/BlueprintsTable.kt:45-52 | `update` replaces the file list and the name index and keeps the cache |
| BlueprintsTable.Table.Parse | src/main/kotlin/com/github/pvoid/androidbp/blueprint/BlueprintsTable.kt:67-91 | the result is `BlueprintsTable.ParseResult` of the cache before the call: a missing file gives nothing; a cached record with the same timestamp is returned as it is; otherwise nothing without a source root, or the file's modules, cached only when there are any |
| BlueprintsTable.Table.Get | src/main/kotlin/com/github/pvoid/androidbp/blueprint/BlueprintsTable.kt:56-65 | `get` looks up the rewritten name: nothing when the index lacks it or its file is missing; otherwise exactly the first module of that name among those `parse` gives for the indexed file, so a defined module is always found |
| BlueprintsTable.ParseTwice | src/main/kotlin/com/github/pvoid/androidbp/blueprint/BlueprintsTable.kt:67-91 | parsing a file twice with nothing changed on disk gives the same modules |
| SourceSets.SourceLinkIff | src/main/kotlin/com/github/pvoid/androidbp/blueprint/model/BlueprintSourceSet.kt:12-18 | a value is a link exactly when it starts with `:`, and the link's library is the rest of the text |
| SourceSets.SourceSetOf | src/main/kotlin/com/github/pvoid/androidbp/blueprint/model/BlueprintSourceSet.kt:12-18 | `SourceSet(value)`: a link for a value starting with `:`, otherwise a glob of the value; `SourceLinkIff` states it |
| SourceSets.StarEnd | src/main/kotlin/com/github/pvoid/androidbp/blueprint/model/BlueprintSourceSet.kt:35-41 | a wildcard at `next` ends after one `*`, or after two for `**` |
| SourceSets.MakeGlob | src/main/kotlin/com/github/pvoid/androidbp/blueprint/model/BlueprintSourceSet.kt:25-46 | the constructor's loop builds the chunks `SourceSets.Chunks` specifies |
| SourceSets.ChunksRoundTrip | src/main/kotlin/com/github/pvoid/androidbp/blueprint/model/BlueprintSourceSet.kt:25-46 | putting `*` or `**` back between the exact chunks gives the pattern back |
| SourceSets.ChunksAlternate | src/main/kotlin/com/github/pvoid/androidbp/blueprint/model/BlueprintSourceSet.kt:29-44 | the chunks alternate exact and wildcard, starting and ending with an exact chunk |
| SourceSets.GreedyWhereDoubleStar | src/main/kotlin/com/github/pvoid/androidbp/blueprint/model/BlueprintSourceSet.kt:36-41 | a greedy chunk stands exactly where the pattern has `**`; a lone `*` is non-greedy |
| SourceSets.IsPatternIff | src/main/kotlin/com/github/pvoid/androidbp/blueprint/model/BlueprintSourceSet.kt:48 | `isPattern()` holds exactly when the text has a `*` |
| SourceSets.IsPattern | src/main/kotlin/com/github/pvoid/androidbp/blueprint/model/BlueprintSourceSet.kt:48 | `isPattern()` on the text: `IsPatternIff` proves it holds exactly when the text has a `*` |
| SourceSets.LastChunk | src/main/kotlin/com/github/pvoid/androidbp/blueprint/model/BlueprintSourceSet.kt:44-62 | the last chunk, and so the last exact one, is the text after the last `*` |
| SourceSets.IsFolderIff | src/main/kotlin/com/github/pvoid/androidbp/blueprint/model/BlueprintSourceSet.kt:50-56 | a pattern names a folder when its text after the last `*` has no `.`, or a `/` after its first `.` |
| SourceSets.IsFolder | src/main/kotlin/com/github/pvoid/androidbp/blueprint/model/BlueprintSourceSet.kt:50-56 | `isFolder()` on the text; `IsFolderIff` states it in terms of the text after the last `*` |
| SourceSets.FileExtensionOfTail | src/main/kotlin/com/github/pvoid/androidbp/blueprint/model/BlueprintSourceSet.kt:58-62 | there is an extension exactly when the text after the last `*` has a `.`; it is what follows the last `.`, and ends the pattern |
| SourceSets.FileExtension | src/main/kotlin/com/github/pvoid/androidbp/blueprint/model/BlueprintSourceSet.kt:58-62 | `fileExtension()` on the text; `FileExtensionOfTail` states it |
| SourceSets.FullPathUsesHead | src/main/kotlin/com/github/pvoid/androidbp/blueprint/model/BlueprintSourceSet.kt:64-66 | `toFullPath` and `toRelativeString` use only the text before the first `*` |
| SourceSets.ToFullPath | src/main/kotlin/com/github/pvoid/androidbp/blueprint/model/BlueprintSourceSet.kt:64 | `toFullPath(base)`: the base with the text before the first `*`; `FullPathUsesHead` states it |
| DependencyRecord.Empty | src/main/kotlin/com/github/pvoid/androidbp/idea/project/AndroidDependencyRecord.kt:26-36 | a fresh builder has its name, no package name and empty lists |
| DependencyRecord.Step | src/main/kotlin/com/github/pvoid/androidbp/idea/project/AndroidDependencyRecord.kt:38-92 | no call changes the name |
| DependencyRecord.FileCallTouchesOwnList | src/main/kotlin/com/github/pvoid/androidbp/idea/project/AndroidDependencyRecord.kt:38-92 | each `withX(f)` appends a present `f` to its own list, ignores an absent one, and changes nothing else |
| DependencyRecord.PackageNameCall | src/main/kotlin/com/github/pvoid/androidbp/idea/project/AndroidDependencyRecord.kt:80-85 | `withPackageName(p)` overwrites the name when `p` is present, keeps it otherwise, and touches no list |
| DependencyRecord.Apply | src/main/kotlin/com/github/pvoid/androidbp/idea/project/AndroidDependencyRecord.kt:26-96 | no sequence of calls changes the name |
| DependencyRecord.Given | src/main/kotlin/com/github/pvoid/androidbp/idea/project/AndroidDependencyRecord.kt:38-78 | a kind never receives more files than there were calls |
| DependencyRecord.BuiltRecord | src/main/kotlin/com/github/pvoid/androidbp/idea/project/AndroidDependencyRecord.kt:26-96 | `build()` after any calls gives the name, the last package name passed, and for each kind exactly the present files passed for it, in order |
| DependencyRecord.ValidBuild | src/main/kotlin/com/github/pvoid/androidbp/idea/project/AndroidDependencyRecord.kt:22-24 | the built record is valid exactly when some call gave a package name, some a manifest, and some a resource folder or else both a resource package and an `R.txt` |
| DependencyRecord.Record.IsValid | src/main/kotlin/com/github/pvoid/androidbp/idea/project/AndroidDependencyRecord.kt:22-24 | `isValid()`: a package name, a manifest, and a resource folder or both a resource package and an R.txt; `ValidBuild` states it over the builder calls |
| DependencyRecord.NoManifestInvalid | src/main/kotlin/com/github/pvoid/androidbp/idea/project/AndroidDependencyRecord.kt:22-24 | without a manifest the record is never valid |
| DependencyRecord.Builder.constructor | src/main/kotlin/com/github/pvoid/androidbp/idea/project/AndroidDependencyRecord.kt:26-36 | a new builder holds the empty record of its name |
| DependencyRecord.Builder.WithResApk | src/main/kotlin/com/github/pvoid/androidbp/idea/project/AndroidDependencyRecord.kt:38-43 | the builder gains the file as `DependencyRecord.Step` specifies and returns itself |
| DependencyRecord.Builder.WithRes | src/main/kotlin/com/github/pvoid/androidbp/idea/project/AndroidDependencyRecord.kt:45-50 | the builder gains the file as `DependencyRecord.Step` specifies and returns itself |
| DependencyRecord.Builder.WithGeneratedRes | src/main/kotlin/com/github/pvoid/androidbp/idea/project/AndroidDependencyRecord.kt:52-57 | the builder gains the file as `DependencyRecord.Step` specifies and returns itself |
| DependencyRecord.Builder.WithManifest | src/main/kotlin/com/github/pvoid/androidbp/idea/project/AndroidDependencyRecord.kt:59-64 | the builder gains the file as `DependencyRecord.Step` specifies and returns itself |
| DependencyRecord.Builder.WithAssets | src/main/kotlin/com/github/pvoid/androidbp/idea/project/AndroidDependencyRecord.kt:66-71 | the builder gains the file as `DependencyRecord.Step` specifies and returns itself |
| DependencyRecord.Builder.WithR | src/main/kotlin/com/github/pvoid/androidbp/idea/project/AndroidDependencyRecord.kt:73-78 | the builder gains the file as `DependencyRecord.Step` specifies and returns itself |
| DependencyRecord.Builder.WithPackageName | src/main/kotlin/com/github/pvoid/androidbp/idea/project/AndroidDependencyRecord.kt:80-85 | the builder's package name changes as `DependencyRecord.Step` specifies and it returns itself |
| DependencyRecord.Builder.WithJar | src/main/kotlin/com/github/pvoid/androidbp/idea/project/AndroidDependencyRecord.kt:87-92 | the builder gains the file as `DependencyRecord.Step` specifies and returns itself |
| DependencyRecord.Builder.Build | src/main/kotlin/com/github/pvoid/androidbp/idea/project/AndroidDependencyRecord.kt:94-96 | `build()` returns the record gathered so far and changes nothing |
| DependencyRecord.BuildFrom | src/main/kotlin/com/github/pvoid/androidbp/idea/project/AndroidDependencyRecord.kt:26-96 | a fresh builder driven through any calls builds the record `DependencyRecord.Apply` describes, with the last package name and the given manifests |
| FieldsXml.FieldOfType | src/main/kotlin/com/github/pvoid/androidbp/blueprint/completion/FieldsXmlReader.kt:49-58 | a field made for a `type` keeps its name |
| FieldsXml.TypeMapping | src/main/kotlin/com/github/pvoid/androidbp/blueprint/completion/FieldsXmlReader.kt:49-58 | exactly the seven supported types give a field, each is read back from its own type name, and `object` gives an object field with no children |
| FieldsXml.TypeNameRoundTrip | src/main/kotlin/com/github/pvoid/androidbp/blueprint/completion/FieldsXmlReader.kt:49-58 | every field class other than the object field is made from its own type name, so the mapping is one to one |
| FieldsXml.FieldOf | src/main/kotlin/com/github/pvoid/androidbp/blueprint/completion/FieldsXmlReader.kt:43-58 | a `<field>` needs `name` and a supported `type`; `descr` defaults to the empty string |
| FieldsXml.AddField | src/main/kotlin/com/github/pvoid/androidbp/blueprint/completion/FieldsXmlReader.kt:59 | adding a field fails exactly on the empty stack, and otherwise appends it to the innermost frame and changes no other frame |
| FieldsXml.StepEvent | src/main/kotlin/com/github/pvoid/androidbp/blueprint/completion/FieldsXmlReader.kt:35-81 | one event of the read loop: the start tags push a frame or add a field, the end tags pop a frame into the result or the enclosing frame, and the errors the reader throws; `ReadErrors` and `FieldRoundTrip` state it |
| FieldsXml.Read | src/main/kotlin/com/github/pvoid/androidbp/blueprint/completion/FieldsXmlReader.kt:21-86 | the loop over the events with a mutable stack and result list produces what `FieldsXml.ReadAll` specifies |
| FieldsXml.ReadAll | src/main/kotlin/com/github/pvoid/androidbp/blueprint/completion/FieldsXmlReader.kt:21-86 | `read()`: every event in turn, the module types in document order, or the first error; `ReadAppend` and `ReadDocument` state it |
| FieldsXml.ReadAppend | src/main/kotlin/com/github/pvoid/androidbp/blueprint/completion/FieldsXmlReader.kt:29-83 | reading two pieces of a document one after the other is reading their concatenation, and an error stops the read |
| FieldsXml.FieldRoundTrip | src/main/kotlin/com/github/pvoid/androidbp/blueprint/completion/FieldsXmlReader.kt:43-80 | the events written for a field, nested object fields included, add exactly that field to the innermost open frame |
| FieldsXml.FieldsRoundTrip | src/main/kotlin/com/github/pvoid/androidbp/blueprint/completion/FieldsXmlReader.kt:43-80 | the events of a list of fields add exactly those fields, in order |
| FieldsXml.InfoRoundTrip | src/main/kotlin/com/github/pvoid/androidbp/blueprint/completion/FieldsXmlReader.kt:38-75 | one written module type reads back as itself, appended to those read before it |
| FieldsXml.InfosRoundTrip | src/main/kotlin/com/github/pvoid/androidbp/blueprint/completion/FieldsXmlReader.kt:29-83 | written module types read back as themselves, in order |
| FieldsXml.ReadDocument | src/main/kotlin/com/github/pvoid/androidbp/blueprint/completion/FieldsXmlReader.kt:21-86 | reading a whole document gives back the module types it was written from, in order, when each has no description and only writable fields |
| FieldsXml.ReadErrors | src/main/kotlin/com/github/pvoid/androidbp/blueprint/completion/FieldsXmlReader.kt:43-66 | an unknown start tag, or a `<field>` outside any module type, stops the read with an error |
| Completion.Proposals | src/main/kotlin/com/github/pvoid/androidbp/blueprint/completion/BlueprintFieldNameCompletionProvider.kt:100-106 | a proposal is made exactly for each schema field whose name is not used, at the given indent level |
| Completion.FieldNameTexts | src/main/kotlin/com/github/pvoid/androidbp/blueprint/completion/BlueprintFieldNameCompletionProvider.kt:39-43 | the texts collected are exactly those of the field-name elements among the nodes |
| Completion.NestedNamesUsed | src/main/kotlin/com/github/pvoid/androidbp/blueprint/completion/BlueprintFieldNameCompletionProvider.kt:39-43 | a name written in an object nested under the members counts as used for the members themselves |
| Completion.BlueprintCompletions | src/main/kotlin/com/github/pvoid/androidbp/blueprint/completion/BlueprintFieldNameCompletionProvider.kt:52-65 | nothing for an unnamed definition or an unknown type; otherwise exactly the unused fields of the type, at indent level 1 |
| Completion.Completions | src/main/kotlin/com/github/pvoid/androidbp/blueprint/completion/BlueprintFieldNameCompletionProvider.kt:25-50 | `addCompletions`: from the nearest members or object above the caret, module completion or object completion without the names already written; `ModuleMembersCompletion`, `MembersInObject` and `UsedNeverProposed` state it |
| Completion.AddObjectFieldCompletion | src/main/kotlin/com/github/pvoid/androidbp/blueprint/completion/BlueprintFieldNameCompletionProvider.kt:67-107 | the parent walk and the pops down the schema produce what `Completion.ObjectCompletions` specifies |
| Completion.ObjectCompletions | src/main/kotlin/com/github/pvoid/androidbp/blueprint/completion/BlueprintFieldNameCompletionProvider.kt:67-107 | `addObjectFieldCompletion`: the unused fields of the object field reached through the enclosing pairs, nothing for an unknown or non-object field; `ObjectMembersCompletion` and `ObjectCompletionsExclude` state it |
| Completion.FirstContainer | src/main/kotlin/com/github/pvoid/androidbp/blueprint/completion/BlueprintFieldNameCompletionProvider.kt:25-27 | `findFirstParent` finds the nearest members or object element, the position itself first, and none when the chain has neither |
| Completion.ModuleMembersCompletion | src/main/kotlin/com/github/pvoid/androidbp/blueprint/completion/BlueprintFieldNameCompletionProvider.kt:25-65 | in the members of a definition of a known type, the proposals are exactly the fields of the type whose names are not written anywhere in those members |
| Completion.ObjectMembersCompletion | src/main/kotlin/com/github/pvoid/androidbp/blueprint/completion/BlueprintFieldNameCompletionProvider.kt:45-107 | in the members of an object held by a module field, the proposals are the unused fields of that object field at level 1, and nothing when the field is unknown or not an object field |
| Completion.OneStepCompletions | src/main/kotlin/com/github/pvoid/androidbp/blueprint/completion/BlueprintFieldNameCompletionProvider.kt:83-106 | one step below a definition of a known type, object completion proposes the unused fields of the named object field, and nothing otherwise |
| Completion.MembersInObject | src/main/kotlin/com/github/pvoid/androidbp/blueprint/completion/BlueprintFieldNameCompletionProvider.kt:38-48 | in the members of an object, completion is object completion from the object, excluding the used names |
| Completion.UsedNeverProposed | src/main/kotlin/com/github/pvoid/androidbp/blueprint/completion/BlueprintFieldNameCompletionProvider.kt:39-60 | a name already written in the members is never proposed again |
| Completion.ObjectCompletionsExclude | src/main/kotlin/com/github/pvoid/androidbp/blueprint/completion/BlueprintFieldNameCompletionProvider.kt:100-102 | object completion leaves out the names already used |
| Completion.PadStart | src/main/kotlin/com/github/pvoid/androidbp/blueprint/completion/BlueprintFieldNameCompletionProvider.kt:134-135 | `padStart` returns a text already long enough as it is, and otherwise puts spaces in front up to the length |
| Completion.InsertionFor | src/main/kotlin/com/github/pvoid/androidbp/blueprint/completion/BlueprintFieldNameCompletionProvider.kt:118-152 | every insertion starts with `": "` and ends with `,`, and its caret offsets lie inside it, the end offset no larger than the start one |
| Completion.CaretInQuotes | src/main/kotlin/com/github/pvoid/androidbp/blueprint/completion/BlueprintFieldNameCompletionProvider.kt:122-126 | a text field gets empty quotes with the caret between them and nothing selected |
| Completion.CaretInBrackets | src/main/kotlin/com/github/pvoid/androidbp/blueprint/completion/BlueprintFieldNameCompletionProvider.kt:127-131 | a list field gets `[  ]` with the caret between the two spaces |
| Completion.DefaultSelected | src/main/kotlin/com/github/pvoid/androidbp/blueprint/completion/BlueprintFieldNameCompletionProvider.kt:139-152 | a boolean or number field gets `true` or `0` selected, with `,` after the caret |
| Completion.CaretOnObjectLine | src/main/kotlin/com/github/pvoid/androidbp/blueprint/completion/BlueprintFieldNameCompletionProvider.kt:132-138 | an object field gets braces around a blank line one level deeper, with the caret at the end of that line |
| Completion.BuildInsertion | src/main/kotlin/com/github/pvoid/androidbp/blueprint/completion/BlueprintFieldNameCompletionProvider.kt:118-152 | the string builder and the two offsets produce what `Completion.InsertionFor` specifies |
| Completion.ObjectBody | src/main/kotlin/com/github/pvoid/androidbp/blueprint/completion/BlueprintFieldNameCompletionProvider.kt:133-135 | the braces of a new object: `{`, a blank line one level deeper, and `}` at this level |
| Completion.Editor.constructor | src/main/kotlin/com/github/pvoid/androidbp/blueprint/completion/BlueprintFieldNameCompletionProvider.kt:115-116 | a new editor holds its text, its tail offset, the caret at the tail and no selection |
| Completion.Editor.HandleInsert | src/main/kotlin/com/github/pvoid/androidbp/blueprint/completion/BlueprintFieldNameCompletionProvider.kt:154-161 | the suffix goes in at the tail, the caret moves back from the new tail by the end offset, and the default value is selected when the offsets differ |
| Completion.InsertedAroundCaret | src/main/kotlin/com/github/pvoid/androidbp/blueprint/completion/BlueprintFieldNameCompletionProvider.kt:154-161 | after the insertion the caret sits between the text before the caret and the text after it that the insertion specifies |
| ParseDoc.SchemaTypeQuoteFree | tools/parse_doc.py:78-104 | no produced type can close the attribute it is written into |
| ParseDoc.ConvertType | tools/parse_doc.py:78-106 | no type gives no type, and every type produced is one of the schema's types |
| ParseDoc.StringListType | tools/parse_doc.py:83-88 | a string list names modules exactly for the reference fields and the fields ending in `_libs` |
| ParseDoc.ConvertedTypeReadable | tools/parse_doc.py:78-106 | conversion fails exactly for an unsupported type or a nameless string list, with the error text for the former, and every produced type is one the schema reader accepts |
| ParseDoc.ReplaceChar | tools/parse_doc.py:75 | after replacing a character by a text without it, the character is gone and no other character appears or disappears |
| ParseDoc.ReplaceAbsent | tools/parse_doc.py:75 | a text without the character is returned as it is |
| ParseDoc.Descr | tools/parse_doc.py:75 | the description escaping: `"` becomes `&quot;` and a newline becomes `\n`; `DescrEscapes` and `DescrNotInjective` state it |
| ParseDoc.DescrEscapes | tools/parse_doc.py:75 | the escaped description can neither close the attribute nor break the line, and one with neither character is written unchanged |
| ParseDoc.DescrNotInjective | tools/parse_doc.py:75 | `&` is not escaped, so a quote and a literal `&quot;` in its place are written alike |
| ParseDoc.Quotes | tools/parse_doc.py:70-76 | a text has no quotes exactly when its count is zero, and never more than its length |
| ParseDoc.QuotedAttribute | tools/parse_doc.py:71-75 | an attribute with a quote-free value has exactly two quotes |
| ParseDoc.FormatField | tools/parse_doc.py:70-76 | `format_field_`: the name, then the converted type and the escaped description when present, or the conversion error; `FormatFieldLayout` and `FormatFieldQuotes` state it |
| ParseDoc.FormatFieldLayout | tools/parse_doc.py:70-76 | formatting fails exactly when a present type does not convert; otherwise the text starts with the name and ends with the description, and is the name alone without either |
| ParseDoc.FormatFieldQuotes | tools/parse_doc.py:70-76 | with a quote-free name, each attribute present contributes exactly one pair of quotes, whatever the description holds |
| ParseDoc.Dedent | tools/parse_doc.py:35 | `ident[:-4]` drops the last four characters, or leaves nothing of a shorter text |
| ParseDoc.XmlIndentStep | tools/parse_doc.py:43-68 | one call at depth `d` leaves the indent of its new depth |
| ParseDoc.XmlIndentBalanced | tools/parse_doc.py:43-68 | calls that never close more than they opened leave the indent of the depth plus their net change |
| ParseDoc.XmlCloseAtTop | tools/parse_doc.py:49 | closing at the top level leaves the indent empty rather than failing |
| ParseDoc.XmlStep | tools/parse_doc.py:43-68 | a call keeps what was written before it and sets the new indent; it fails exactly for a field whose formatting fails |
| ParseDoc.XmlRun | tools/parse_doc.py:38-68 | a sequence of calls leaves the indent its calls specify |
| ParseDoc.XmlWriter.constructor | tools/parse_doc.py:39-41 | a new XML writer has written nothing and has no indent |
| ParseDoc.XmlWriter.Start | tools/parse_doc.py:43-45 | `start` writes and indents as `ParseDoc.XmlStep` specifies |
| ParseDoc.XmlWriter.End | tools/parse_doc.py:47-49 | `end` writes and dedents as `ParseDoc.XmlStep` specifies |
| ParseDoc.XmlWriter.StartBlueprint | tools/parse_doc.py:51-53 | `start_blueprint` writes and indents as `ParseDoc.XmlStep` specifies |
| ParseDoc.XmlWriter.EndBlueprint | tools/parse_doc.py:55-57 | `end_blueprint` dedents and writes as `ParseDoc.XmlStep` specifies |
| ParseDoc.XmlWriter.Field | tools/parse_doc.py:59-60 | `field` writes the `<field>` line, or reports the error and writes nothing |
| ParseDoc.XmlWriter.StartFieldsList | tools/parse_doc.py:62-64 | `start_fields_list` writes the `<object-field>` line and indents, or reports the error and writes nothing |
| ParseDoc.XmlWriter.EndFieldsList | tools/parse_doc.py:66-68 | `end_fields_list` dedents and writes as `ParseDoc.XmlStep` specifies |
| ParseDoc.TextStep | tools/parse_doc.py:15-36 | a call sets the new indent; the text writer has no document start or end |
| ParseDoc.TextEndResets | tools/parse_doc.py:23-25 | the end of a module type leaves the text writer unindented, whatever came before |
| ParseDoc.TextWriter.constructor | tools/parse_doc.py:16-17 | a new text writer has printed nothing and has no indent |
| ParseDoc.TextWriter.StartBlueprint | tools/parse_doc.py:19-21 | `start_blueprint` prints and indents as `ParseDoc.TextStep` specifies |
| ParseDoc.TextWriter.EndBlueprint | tools/parse_doc.py:23-25 | `end_blueprint` clears the indent and prints as `ParseDoc.TextStep` specifies |
| ParseDoc.TextWriter.Field | tools/parse_doc.py:27-28 | `field` prints as `ParseDoc.TextStep` specifies |
| ParseDoc.TextWriter.StartFieldsList | tools/parse_doc.py:30-32 | `start_fields_list` prints and indents as `ParseDoc.TextStep` specifies |
| ParseDoc.TextWriter.EndFieldsList | tools/parse_doc.py:34-36 | `end_fields_list` dedents and prints as `ParseDoc.TextStep` specifies |
| ParseDoc.FieldCallsBalanced | tools/parse_doc.py:146-153 | a printed field opens exactly what it closes, and never closes more than it opened |
| ParseDoc.BlueprintCallsBalanced | tools/parse_doc.py:178-183 | a printed module type opens exactly what it closes, and never closes more than it opened |
| ParseDoc.XmlPrintRestoresIndent | tools/parse_doc.py:178-183 | printing a module type through the XML writer from any depth restores that depth's indent |
| ParseDoc.XmlDocumentIndent | tools/parse_doc.py:360-372 | writing a whole schema indents each module type by one level and ends unindented |
| ParseDoc.TextPrintResets | tools/parse_doc.py:23-25 | printing a module type through the text writer leaves it unindented, from any indent |
| ParseDoc.TrimDesc | tools/parse_doc.py:112-114 | a description loses one leading `, ` and is otherwise kept |
| ParseDoc.TrimDescOnce | tools/parse_doc.py:114 | only one `, ` is removed |
| ParseDoc.BlueprintField.constructor | tools/parse_doc.py:109-120 | a new field takes `name`, `type` and `desc` from its tag when present, the description without a leading `, `, is not auto-added and has no children |
| ParseDoc.BlueprintField.Add | tools/parse_doc.py:122-125 | the first child creates the list, and children keep their order |
| ParseDoc.BlueprintField.Last | tools/parse_doc.py:127-131 | `last()` fails exactly for a field that never had a child, and otherwise gives the newest child or none |
| ParseDoc.BlueprintField.Field | tools/parse_doc.py:136-144 | `field(name)` gives nothing without children and otherwise the first child with that name |
| ParseDoc.Blueprint.constructor | tools/parse_doc.py:156-159 | a new module type has its name, is not auto-added and has no fields |
| ParseDoc.Blueprint.Add | tools/parse_doc.py:161-162 | `add` appends the field |
| ParseDoc.Blueprint.Last | tools/parse_doc.py:164-168 | `last()` gives the newest field, or none |
| ParseDoc.Blueprint.Field | tools/parse_doc.py:170-176 | `field(name)` gives the first field with that name |
| ParseDoc.LastOf | tools/parse_doc.py:127-131 | the last element exists exactly for a non-empty list, and is its final element |
| ParseDoc.LastAfterAdd | tools/parse_doc.py:122-131 | after `add(f)`, `last()` is `f` |
| ParseDoc.FirstIndexFrom | tools/parse_doc.py:140-144 | the position found holds the name and no earlier one does, or no position holds it |
| ParseDoc.FirstNamedFound | tools/parse_doc.py:140-144 | the lookup finds a field exactly when one has the name, and then the earliest one |
| ParseDoc.Find | tools/parse_doc.py:140-144 | the `for` loop finds what `ParseDoc.FirstNamed` specifies |

## Left out

- The JFlex lexer is not part of this model: the parser takes a token sequence as input, and token texts are given with the tokens.
- Trivia tokens are removed before parsing, as the PSI builder does for the white-space and comment types the parser definition declares. The `item_` alternatives for them and the white space in the `pair` recovery set are kept, but they never match.
- PsiBuilder internals (markers, `report_error_`, `exit_section_`) are modelled only by their effect: an unpinned failure rolls back, a pinned rule reports missing parts as empty error elements and succeeds, and a recovery rule skips tokens into an error element up to its stop set. The diagnostic texts are reduced to the missing rule's name. The model emits one empty error element per missing part, so a definition that ends right after its type (`android_app` at the end of the file) gets two, one for `{` and one for `}`, where the platform may report only one error at that offset; the leaves are the same either way.
- `recursion_guard_` (nesting depth 1000) is not modelled: the grammar functions accept any nesting depth.
- The PSI tree is an immutable datatype. A parent link is the list of enclosing nodes, nearest first, so PSI identity and mutation are not captured. PSI `children` are read as all child nodes, tokens included. On the IntelliJ platform `getChildren()` of an `ASTWrapperPsiElement` gives only composite children, so there the STRING tokens of a string expression would not be among them; the model deliberately does not follow the platform here.
- PsiUtils.GetValue: under the all-children reading above, `getValue` joins the raw STRING texts, quotes included, with `joinToString`'s default `, ` separator, and `PsiUtils.GetValueOfSum` states that reading. With the platform's `getChildren()` the filter would find no STRING child and give the empty text; neither reading concatenates the unquoted texts.
- The field schema tables (`BLUEPRINT_FIEDLS` and the generated field files) are a parameter of completion and `getFieldDef`, not constant data.
- Files, directories and "does this path exist" are parameters: a path is a list of segments, the disk is a map from paths to timestamps and parsed modules, and existence checks are sets of paths. `FileUtil.getRelativePath` is an `Option` parameter. Path normalisation is not modelled.
- `readMakefile` takes the logical lines of an included file from a function parameter (none for a missing file). Read errors inside the recursion are not modelled.
- Reading a file's text, the XML pull parser and the HTML documentation parser are I/O. The schema reader runs over a sequence of start and end events. `SoongDocParser` and `main` in `tools/parse_doc.py` are not part of this model.
- The documentation writers produce strings instead of writing to a stream or standard output. `print` on the containers is modelled as the sequence of writer calls it makes, over `FieldTree` values.
- Kotlin `trim`, `trimStart`, `trimEnd` and `isBlank` use `Text.IsWhitespace`, which lists the characters `Char.isWhitespace` accepts; Unicode data is not otherwise modelled.
- Kotlin `isDigit` is taken as the ASCII digits, and `toIntOrNull` as optional sign and ASCII digits within the 32-bit range.
- The legacy `Blueprint` methods that touch the file system or the build output are not part of this model: `manifest`, `packageName` with its timestamp cache, `outputJars`, `generatedSources` and `generatedResources`.
- The legacy `Blueprint` methods `assets` and the `aidl_includes_*` pair only read `members` through `toSourcePaths` and `toStringList`; they lie outside the modelled core and are not part of this model.
- Legacy.DependencySet and Legacy.Defaults are Dafny sets. Kotlin's `mutableSetOf()` is a `LinkedHashSet` that iterates in insertion order; the declared type is `Set<String>` and no modelled caller depends on that order, so the order is not modelled.
- Concurrency (`synchronized`, background tasks, the message bus), IDE integration and UI are not modelled.
- The table cache is a map returned by the methods of the `Table` class. The Kotlin `MutableMap` values of the make-file builder are whole-map updates, not in-place list updates.
- The duplicated token mapping in `model/BlueprintSymbolFactory.kt` and the duplicated name fix-up in `AospSdkHelper.createLibrary` are modelled once, by `SymbolFactory` and `BlueprintsTable`.
- Makefile.ParamStep: `LOCAL_SRC_FILES` is scanned with the corrected call offset (`SourcesFrom(value, 0, false)`), not offset 7 of the whole value as `Makefile.kt:94` reads it, so `x $(call all-java-files-under,s)` gives `x`, `s` where the program gives `x` alone. The as-written scan is `SourcesFrom` with `asWritten` true, and the Findings table records the difference.
- Makefile.BlueprintBuilder.AddSource: uses the corrected call offset, as `Makefile.ParamStep` does.
- Makefile.BlueprintBuilder.Param: uses the corrected call offset through `Makefile.ParamStep`.
- Makefile.ParseLine: uses the corrected call offset through `Makefile.LineStep` and `Makefile.ParamStep`.
- Makefile.Parse: uses the corrected call offset through `Makefile.ParseMakefile`; so do `Makefile.ParseLines` and the lemmas about it.
- Makefile.ParseFile: uses the corrected call offset through `Makefile.ParseMakefile`.
- Schema.FieldsOf: takes an optional name and gives no fields for none, where `fields(name: String)` takes a non-null name; the modelled callers only reach it with a name.
- DependencyRecord.Builder.Build: the record is a value. The Kotlin `build()` hands out the builder's own mutable lists, so later `withX` calls on the builder show through a record already built; that aliasing is not modelled.

## Findings

| source | as written | input that shows it | evidently intended | confidence | as-written member | corrected member |
|---|---|---|---|---|---|---|
| src/main/kotlin/com/github/pvoid/androidbp/blueprint/Blueprint.kt:75-77 | `isJavaImport()` tests `JAVA_TYPES`, so it is `isJavaProject()` again, and `JAVA_IMPORT_TYPES` is never used | a module of type `java_import` | true exactly for `java_import` and `java_import_host` | high, not executed | Legacy.JavaImportAsWritten | Legacy.JavaImportCorrected |
| src/main/kotlin/com/github/pvoid/androidbp/blueprint/Makefile.kt:94 | the parameters of `$(call …)` are read by `value.substring(7, end)`, from offset 7 of the whole value | `LOCAL_SRC_FILES := x $(call all-java-files-under,s)` yields only `x` | read from `start + 7`, yielding `x` and `s`; the make-file parse of the model uses this corrected scan | high, not executed | Makefile.CallOffsetAsWritten | Makefile.CallOffsetCorrected |
