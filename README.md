# n8n core pieces in Dafny

This project models four small parts of n8n, the workflow automation tool, and proves
properties of them.

- **Node-reference utilities** (`NodeReferenceParserUtils`). These rewrite expressions that refer
  to other nodes of a workflow.
  - `hasDotNotationBannedChar`, `backslashEscape` and `dollarEscape` are the escaping helpers.
  - `applyAccessPatterns` renames every reference to one node inside an expression text. It knows
    the forms `$node["N"]`, `$node.N`, `$items("N", …` and `$("N")`.
  - `extractReferencesInNodeExpressions` prepares a subgraph of nodes to become a sub-workflow.
    Every reference to a node outside the subgraph is replaced by a read from the new start node,
    when it is written with an accessor (`.item`, `.first()`, `.last()`, `.all()`,
    `.itemMatching(…)`) or with `.json` and a field path straight after the call (the implicit
    `item`). The references are collected as variables with unique names.
  - The module files are `reference_escape.dfy`, `access_patterns.dfy`,
    `access_pattern_pieces.dfy`, `access_pattern_vectors.dfy`, `reference_scanner.dfy`,
    `reference_syntax.dfy`, `variable_names.dfy`, `naming_vectors.dfy`,
    `reference_extractor.dfy` and `extraction_vectors.dfy`.
- **Data-store service** (`data_store_service.dfy`). It holds user tables ("data stores") per
  project.
  - Creating a store refuses a name its project already uses.
  - Renaming a store trims the name and refuses an empty name, a missing store or a taken name.
  - Row validation checks each row against the store's columns. It converts date cells to ISO
    text in place.
- **Code-node output clean-up** (`code_output.dfy`). `standardizeOutput` replaces every
  non-plain object with content by its JSON text. It descends through plain objects only.
- **Community node type cache** (`community_node_types.dfy`). It caches the vetted community node
  types. It refreshes them from the registry's answer every eight hours or when there are none,
  and looks nodes up by name or by package name.

`text.dfy` and `wrappers.dfy` hold shared string utilities and the `Option`/`Result` types.

The implementation file of the node-reference utilities is not part of this model. Their
behaviour is fixed by the unit tests in `packages/workflow/test/NodeReferenceParserUtils.test.ts`.
The escaping and access-pattern vectors are proved as instances of general lemmas. Every
extraction vector except the two listed under "## Left out" is proved as an exact
`Extract(...) == Success(...)` or `Failure(...)` fact in `extraction_vectors.dfy`, assembled from
general lemmas about one written reference. The rest of
the code is modelled branch by branch from its source.

The source's state is modelled as follows:

- The mutable services are classes whose methods update fields in place.
- Row validation works on an `array` of rows, as the source updates rows in place. Each row is
  a value, so the same row object listed twice is not modelled (see "## Left out").
- `standardizeOutput` is a loop over the entries of one object, proved against a function on
  values.

### Where the model follows the code rather than its description

- `extractReferencesInNodeExpressions` scans every string parameter, including ones without the
  leading `=` of an expression. The Code node example (test lines 237-269) rewrites a `jsCode`
  parameter.
- The "unknown node" error is raised for a subgraph node whose name is missing from `nodeNames`
  (test lines 308-312). It is not raised for a referenced name.
- `standardizeOutput` is documented as stringifying a `Date`. A bare `Date` has no own enumerable
  key, so `isTraversable` is false and the value is kept (`CodeOutput.BareDateKept`).
- `standardizeOutput` does not enter arrays: `isTraversable` is false for an array, so
  `{a: [new Foo(1)]}` keeps the `Foo` instance. `CodeOutput.ArrayKept` states this.
- Renaming a data store to its own current name is refused as a name clash. The clash query does
  not exclude the store being renamed (`DataStoreService.RenameKeepsValid`).

## Model

| member | source | states |
|---|---|---|
| ReferenceEscape.HasDotNotationBannedChar | packages/workflow/test/NodeReferenceParserUtils.test.ts:17-27 | true exactly when the name starts with a digit or holds a character outside `[A-Za-z0-9_]`; a name it admits is made of identifier characters |
| ReferenceEscape.DotNotationVectors | packages/workflow/test/NodeReferenceParserUtils.test.ts:17-27 | `1abc`, `abc!`, `abc@` are banned; `abc`, `validName` are not |
| ReferenceEscape.BackslashEscape | packages/workflow/test/NodeReferenceParserUtils.test.ts:30-40 | the escaped text is one character longer per regular-expression metacharacter |
| ReferenceEscape.BackslashEscapeIsLiteral | packages/workflow/test/NodeReferenceParserUtils.test.ts:30-40 | the escaped name, read as a regular expression, matches exactly the original name (round trip) |
| ReferenceEscape.BackslashEscapeIdentity | packages/workflow/test/NodeReferenceParserUtils.test.ts:37-39 | a name without metacharacters is unchanged |
| ReferenceEscape.BackslashEscapeConcat | packages/workflow/test/NodeReferenceParserUtils.test.ts:30-40 | escaping distributes over concatenation |
| ReferenceEscape.EscapeOneMeta | packages/workflow/test/NodeReferenceParserUtils.test.ts:31-35 | a metacharacter between plain text gets exactly one backslash |
| ReferenceEscape.BackslashEscapeVectors | packages/workflow/test/NodeReferenceParserUtils.test.ts:30-40 | `abc.def`, `[abc]`, `a+b`, `abc` escape as the tests expect |
| ReferenceEscape.DollarEscape | packages/workflow/test/NodeReferenceParserUtils.test.ts:42-52 | the escaped text is one character longer per `$` |
| ReferenceEscape.DollarEscapeIsLiteral | packages/workflow/test/NodeReferenceParserUtils.test.ts:42-52 | the escaped name, used as a replacement string, inserts exactly the original name (round trip) |
| ReferenceEscape.DollarEscapeIdentity | packages/workflow/test/NodeReferenceParserUtils.test.ts:49-51 | a name without `$` is unchanged |
| ReferenceEscape.DollarEscapeConcat | packages/workflow/test/NodeReferenceParserUtils.test.ts:42-52 | escaping distributes over concatenation |
| ReferenceEscape.DollarThenText | packages/workflow/test/NodeReferenceParserUtils.test.ts:43-46 | a `$` before `$`-free text is doubled and the text kept |
| ReferenceEscape.DollarEscapeVectors | packages/workflow/test/NodeReferenceParserUtils.test.ts:42-52 | `$abc`, `abc$`, `$a$b$c`, `abc` escape as the tests expect |
| AccessPatterns.QuoteLenAt | packages/workflow/test/NodeReferenceParserUtils.test.ts:128-133 | a quote, bare or backslash-escaped, is at most two characters and lies inside the text |
| AccessPatterns.MatchPrefix | packages/workflow/test/NodeReferenceParserUtils.test.ts:55-140 | a recognised reference starts with `$`, and its name slice is the old name inside the text |
| AccessPatterns.PlainCharKept | packages/workflow/test/NodeReferenceParserUtils.test.ts:122-127 | a character other than `$` is copied and the scan goes on with the next one |
| AccessPatterns.ReferenceStep | packages/workflow/test/NodeReferenceParserUtils.test.ts:74-79 | a recognised reference is rewritten and the scan resumes right after it |
| AccessPatterns.PlainTextKept | packages/workflow/test/NodeReferenceParserUtils.test.ts:122-127 | a stretch without `$` is copied in front of the rewritten rest |
| AccessPatterns.PlainTextUnchanged | packages/workflow/test/NodeReferenceParserUtils.test.ts:122-127 | a text without `$` is unchanged |
| AccessPatterns.RenameToSelfIsIdentity | packages/workflow/test/NodeReferenceParserUtils.test.ts:55-140 | renaming a node to its own name changes no expression |
| AccessPatterns.AbsentNameIsIdentity | packages/workflow/test/NodeReferenceParserUtils.test.ts:68-73 | an expression in which the old name does not occur is unchanged |
| AccessPatterns.CallMatches | packages/workflow/test/NodeReferenceParserUtils.test.ts:92-103 | `$(q N q)` is recognised as the call form with the name between the quotes |
| AccessPatterns.RenameCall | packages/workflow/test/NodeReferenceParserUtils.test.ts:92-103 | `$(q OLD q)` becomes `$(q NEW q)` with both quotes kept, followed by the rewritten rest |
| AccessPatterns.NodeBracketMatches | packages/workflow/test/NodeReferenceParserUtils.test.ts:56-61 | `$node[q N q]` is recognised as the bracket form |
| AccessPatterns.RenameNodeBracket | packages/workflow/test/NodeReferenceParserUtils.test.ts:56-61 | `$node[q OLD q]` becomes `$node[q NEW q]` with both quotes kept |
| AccessPatterns.ItemsMatches | packages/workflow/test/NodeReferenceParserUtils.test.ts:80-91 | `$items(q N q,` is recognised as the items form |
| AccessPatterns.RenameItems | packages/workflow/test/NodeReferenceParserUtils.test.ts:80-91 | `$items(q OLD q,` becomes `$items(q NEW q,` with both quotes kept |
| AccessPatterns.NodeDotMatches | packages/workflow/test/NodeReferenceParserUtils.test.ts:62-67 | `$node.N` is recognised when dot notation admits N and the identifier ends after it |
| AccessPatterns.RenameNodeDot | packages/workflow/test/NodeReferenceParserUtils.test.ts:62-67 | `$node.OLD` becomes `$node.NEW`, or `$node["NEW"]` when dot notation does not admit the new name |
| AccessPatternPieces.RenameEveryReference | packages/workflow/test/NodeReferenceParserUtils.test.ts:55-140 | in any expression made of `$`-free text and references in the four forms, every reference to the old name is renamed and everything else is kept |
| AccessPatternVectors.OtherBracketUnmatched | packages/workflow/test/NodeReferenceParserUtils.test.ts:68-73 | a bracket reference to a name that does not start with the old name is not recognised |
| AccessPatternVectors.OtherBracketKept | packages/workflow/test/NodeReferenceParserUtils.test.ts:68-73 | such a reference is kept as written |
| AccessPatternVectors.BracketVector | packages/workflow/test/NodeReferenceParserUtils.test.ts:56-61 | `$node["oldName"].data` becomes `$node["newName"].data` |
| AccessPatternVectors.DotToBracketVector | packages/workflow/test/NodeReferenceParserUtils.test.ts:62-67 | `$node.oldName.data` becomes `$node["new.Name"].data` |
| AccessPatternVectors.OtherNodeVector | packages/workflow/test/NodeReferenceParserUtils.test.ts:68-73 | `$node["someOtherName"].data` is kept |
| AccessPatternVectors.TwoBracketsVector | packages/workflow/test/NodeReferenceParserUtils.test.ts:74-79 | both references in one expression are renamed |
| AccessPatternVectors.ItemsVector | packages/workflow/test/NodeReferenceParserUtils.test.ts:80-85 | `$items("oldName", 0)` becomes `$items("newName", 0)` |
| AccessPatternVectors.ItemsSingleQuoteVector | packages/workflow/test/NodeReferenceParserUtils.test.ts:86-91 | `$items('oldName', 0)` becomes `$items('newName', 0)` |
| AccessPatternVectors.CallSingleQuoteVector | packages/workflow/test/NodeReferenceParserUtils.test.ts:92-97 | `$('oldName')` becomes `$('newName')` |
| AccessPatternVectors.CallVector | packages/workflow/test/NodeReferenceParserUtils.test.ts:98-103 | `$("oldName")` becomes `$("newName")` |
| AccessPatternVectors.MixedFormsVector | packages/workflow/test/NodeReferenceParserUtils.test.ts:104-109 | bracket, items and call forms in one expression are all renamed |
| AccessPatternVectors.BannedNewNameVector | packages/workflow/test/NodeReferenceParserUtils.test.ts:110-115 | the new name `new-Name` is written into the quoted forms as it is |
| AccessPatternVectors.BannedOldNameVector | packages/workflow/test/NodeReferenceParserUtils.test.ts:116-121 | the old name `old-Name` is still found in the quoted forms |
| AccessPatternVectors.UnrelatedCallVector | packages/workflow/test/NodeReferenceParserUtils.test.ts:122-127 | `someRandomExpression("oldName")` is kept |
| AccessPatternVectors.EscapedQuotesVector | packages/workflow/test/NodeReferenceParserUtils.test.ts:128-133 | `$("old\"Name")` becomes `$("n\'ew\"Name")` |
| ReferenceScanner.Sanitize | packages/workflow/test/NodeReferenceParserUtils.test.ts:386-399 | the variable-name fragment made from a node name is no longer than the name and holds only identifier characters |
| ReferenceScanner.SanitizeConcat | packages/workflow/test/NodeReferenceParserUtils.test.ts:400-431 | sanitising works character by character |
| ReferenceScanner.SanitizeKeepsIdentifiers | packages/workflow/test/NodeReferenceParserUtils.test.ts:173-200 | a name made of identifier characters is its own fragment |
| ReferenceScanner.SanitizeIdempotent | packages/workflow/test/NodeReferenceParserUtils.test.ts:400-431 | sanitising twice is sanitising once |
| ReferenceScanner.NamedNode | packages/workflow/test/NodeReferenceParserUtils.test.ts:143-171 | a found node is one of the listed names and the call at that index names it; none means no listed name fits |
| ReferenceScanner.ClosingParen | packages/workflow/test/NodeReferenceParserUtils.test.ts:345-357 | a found index holds the `)` that closes the open parentheses |
| ReferenceScanner.AccessorAt | packages/workflow/test/NodeReferenceParserUtils.test.ts:316-357 | a recognised accessor is not empty and lies inside the text |
| ReferenceScanner.IdentifierEnd | packages/workflow/test/NodeReferenceParserUtils.test.ts:143-171 | the run of identifier characters ends at the end of the text or at a non-identifier character |
| ReferenceScanner.FieldsFrom | packages/workflow/test/NodeReferenceParserUtils.test.ts:143-171 | the field chain is empty exactly when reading did not advance |
| ReferenceScanner.JsonFieldsAt | packages/workflow/test/NodeReferenceParserUtils.test.ts:386-399 | the `.json` field path is empty exactly when reading did not advance |
| ReferenceScanner.ReferenceAt | packages/workflow/test/NodeReferenceParserUtils.test.ts:143-432 | a found reference names a listed node and ends inside the text |
| ReferenceSyntax.DotPath | packages/workflow/test/NodeReferenceParserUtils.test.ts:143-171 | the written field path is empty exactly when there are no fields |
| ReferenceSyntax.IdentifierEndAt | packages/workflow/test/NodeReferenceParserUtils.test.ts:143-171 | a run of identifier characters followed by a word end is read to exactly that end |
| ReferenceSyntax.ClosingParenAfter | packages/workflow/test/NodeReferenceParserUtils.test.ts:345-357 | a balanced argument followed by `)` is closed by exactly that `)` |
| ReferenceSyntax.AccessorAtText | packages/workflow/test/NodeReferenceParserUtils.test.ts:143-357 | a written accessor (`.item`, `.first()`, `.last()`, `.all()`, `.itemMatching(arg)`) is read back, ending right after it |
| ReferenceSyntax.ItemMatchingAtText | packages/workflow/test/NodeReferenceParserUtils.test.ts:316-357 | `.itemMatching(arg)` with a balanced argument is read back with that argument |
| ReferenceSyntax.FieldsFromPath | packages/workflow/test/NodeReferenceParserUtils.test.ts:143-171 | a written field path is read back as the same fields, ending right after it |
| ReferenceSyntax.JsonFieldsAtText | packages/workflow/test/NodeReferenceParserUtils.test.ts:143-171 | a written `.json.a.b` part is read back as the same fields |
| ReferenceSyntax.ReadBack | packages/workflow/test/NodeReferenceParserUtils.test.ts:143-432 | a text holding the parts of a reference one after another is read as that signature, ending after the last part |
| ReferenceSyntax.ImplicitItemRoundTrip | packages/workflow/test/NodeReferenceParserUtils.test.ts:143-171 | a call followed directly by `.json` and a field path is read as the `item` accessor with those fields, ending right after them |
| ReferenceSyntax.NoAccessorBeforeJson | packages/workflow/test/NodeReferenceParserUtils.test.ts:143-171 | where `.json` follows the call, no written accessor is read |
| ReferenceSyntax.ReferenceRoundTrip | packages/workflow/test/NodeReferenceParserUtils.test.ts:143-432 | a written reference, in either quote, is read back as the same signature and ends right after its text (round trip) |
| VariableNames.EmptyTableValid | packages/workflow/test/NodeReferenceParserUtils.test.ts:143-171 | the empty resolver table is consistent |
| VariableNames.NamesDistinguishSignatures | packages/workflow/test/NodeReferenceParserUtils.test.ts:173-235 | in a consistent table, two different references never share a variable name |
| VariableNames.NumberedInjective | packages/workflow/test/NodeReferenceParserUtils.test.ts:202-235 | different numbers give different numbered candidates |
| VariableNames.FirstFreeNumber | packages/workflow/test/NodeReferenceParserUtils.test.ts:202-235 | the smallest free numbered candidate: it is free and every smaller one is taken |
| VariableNames.FreshName | packages/workflow/test/NodeReferenceParserUtils.test.ts:173-235 | the chosen name is free and is the key, the prefixed key or a numbered prefixed key |
| VariableNames.FreshNameEscalates | packages/workflow/test/NodeReferenceParserUtils.test.ts:173-235 | the key is used when free, else the prefixed key when free, else the first free `prefixed_n` with every smaller `n` taken |
| VariableNames.ResolveReuses | packages/workflow/test/NodeReferenceParserUtils.test.ts:358-385 | a reference seen before keeps its name and adds no variable |
| VariableNames.ResolveValid | packages/workflow/test/NodeReferenceParserUtils.test.ts:143-432 | resolving keeps the table consistent, binds the reference to the returned name and only appends a new variable |
| VariableNames.BindFreshValid | packages/workflow/test/NodeReferenceParserUtils.test.ts:173-235 | binding a new reference to a free name keeps the table consistent |
| VariableNames.VariableTable.Resolve | packages/workflow/test/NodeReferenceParserUtils.test.ts:173-235 | the in-place resolver returns the name and leaves the state `ResolveIn` gives |
| NamingVectors.KeyVectors | packages/workflow/test/NodeReferenceParserUtils.test.ts:155-160 | the keys `myField`, `myField_anotherField_first` and, as in test line 331, `myField_itemMatching_20` |
| NamingVectors.PrefixedKeyVectors | packages/workflow/test/NodeReferenceParserUtils.test.ts:173-200 | the prefixed keys `D_myField` and, as in test line 330, `C_myField_itemMatching_1` |
| NamingVectors.ClashChain | packages/workflow/test/NodeReferenceParserUtils.test.ts:202-235 | four references resolved in turn from an empty table: the first two get their keys, the third (key taken) its prefixed key, the fourth (key and prefixed key taken) the prefixed key numbered `_1` |
| NamingVectors.ComplexClashVector | packages/workflow/test/NodeReferenceParserUtils.test.ts:202-235 | the complex clash example yields `myField`, `Node_Name_With_Gap_myField`, `D_Node_Name_With_Gap_myField`, `Node_Name_With_Gap_myField_1` |
| ReferenceExtractor.ExternalAt | packages/workflow/test/NodeReferenceParserUtils.test.ts:270-288 | a reference to a node inside the subgraph is not external |
| ReferenceExtractor.FirstUnknown | packages/workflow/test/NodeReferenceParserUtils.test.ts:308-312 | none exactly when every subgraph node is listed; otherwise a subgraph node's name that is not listed |
| ReferenceExtractor.RewriteExternalStep | packages/workflow/test/NodeReferenceParserUtils.test.ts:143-171 | an external reference is replaced by a read from the start node with the resolved variable, and the scan resumes after it |
| ReferenceExtractor.RewriteCopyStep | packages/workflow/test/NodeReferenceParserUtils.test.ts:270-288 | a character at which no reference starts is copied, and the scan goes on from the next one (a reference to a subgraph node is copied whole by `InternalReferenceKept`) |
| ReferenceExtractor.RewriteStep | packages/workflow/test/NodeReferenceParserUtils.test.ts:143-432 | one scan step advances and produces the next piece of `Rewritten` |
| ReferenceExtractor.RewriteText | packages/workflow/test/NodeReferenceParserUtils.test.ts:237-269 | the scanning loop over one text returns the rewritten text and table of `Rewritten` |
| ReferenceExtractor.RewriteParameterValue | packages/workflow/test/NodeReferenceParserUtils.test.ts:237-269 | a string parameter is rewritten, any other value is kept |
| ReferenceExtractor.RewriteNodeParameters | packages/workflow/test/NodeReferenceParserUtils.test.ts:316-344 | the loop over one node's parameters threads the table through them in order |
| ReferenceExtractor.ExtractReferencesInNodeExpressions | packages/workflow/test/NodeReferenceParserUtils.test.ts:143-432 | the loops over nodes and parameters give exactly `Extract`: the errors, the rewritten nodes and the variables |
| ReferenceExtractor.ExtractFails | packages/workflow/test/NodeReferenceParserUtils.test.ts:289-312 | fails exactly when a subgraph node is named like the start node or is not listed; the start-name clash wins; an unknown node is a subgraph node that is not listed |
| ReferenceExtractor.InternalReferenceKept | packages/workflow/test/NodeReferenceParserUtils.test.ts:270-288 | at a reference to a subgraph node the whole reference is copied unchanged, nothing inside it is scanned, and the table is unchanged |
| ReferenceExtractor.CallFreePrefixKept | packages/workflow/test/NodeReferenceParserUtils.test.ts:237-269 | text in which no `$(` starts is copied as it is, and what follows it is rewritten as if it stood alone |
| ReferenceExtractor.CallFreeKept | packages/workflow/test/NodeReferenceParserUtils.test.ts:386-399 | text in which no `$(` starts is kept and names nothing |
| ReferenceExtractor.ReadsBackWhole | packages/workflow/test/NodeReferenceParserUtils.test.ts:143-432 | a well-formed written reference to a listed node, followed by text that does not extend it, is found whole at the start of the text |
| ReferenceExtractor.ExternalReferenceReplaced | packages/workflow/test/NodeReferenceParserUtils.test.ts:155-171 | a written reference to a node outside the subgraph is replaced by the same accessor on the start node reading the resolved variable, and the scan resumes after it with the extended table |
| ReferenceExtractor.InternalReferenceCopied | packages/workflow/test/NodeReferenceParserUtils.test.ts:270-288 | a written reference to a subgraph node is copied unchanged, and the scan resumes after it with the same table |
| ReferenceExtractor.ImplicitReadsWhole | packages/workflow/test/NodeReferenceParserUtils.test.ts:143-171 | a reference with the implicit `item`, followed by text that does not extend it, is found whole at the start of the text |
| ReferenceExtractor.ImplicitReferenceReplaced | packages/workflow/test/NodeReferenceParserUtils.test.ts:143-171 | a reference with the implicit `item` outside the subgraph is replaced by `.item` on the start node reading the resolved variable, and the scan resumes after it |
| ReferenceExtractor.ExtendsTransitive | packages/workflow/test/NodeReferenceParserUtils.test.ts:358-385 | extending the variable table is transitive |
| ReferenceExtractor.RewrittenValid | packages/workflow/test/NodeReferenceParserUtils.test.ts:143-432 | scanning a text keeps the table consistent and only extends it |
| ReferenceExtractor.RewriteParametersValid | packages/workflow/test/NodeReferenceParserUtils.test.ts:316-344 | scanning a node's parameters keeps the table consistent and only extends it |
| ReferenceExtractor.RewriteNodesValid | packages/workflow/test/NodeReferenceParserUtils.test.ts:358-385 | scanning all nodes keeps the table consistent and only extends it |
| ReferenceExtractor.ExtractedNamesDistinct | packages/workflow/test/NodeReferenceParserUtils.test.ts:202-235 | the extracted variables have pairwise distinct names |
| ReferenceExtractor.NoExternalKept | packages/workflow/test/NodeReferenceParserUtils.test.ts:270-288 | a text without external references is kept and names nothing |
| ReferenceExtractor.NoExternalParametersKept | packages/workflow/test/NodeReferenceParserUtils.test.ts:270-288 | parameters without external references are kept and name nothing |
| ReferenceExtractor.NoExternalNodesKept | packages/workflow/test/NodeReferenceParserUtils.test.ts:270-288 | nodes without external references are kept and name nothing |
| ReferenceExtractor.NoExternalExtractsNothing | packages/workflow/test/NodeReferenceParserUtils.test.ts:270-288 | a subgraph that refers only to itself is extracted unchanged with no variables |
| DataStoreService.KeysOf | packages/cli/src/modules/data-store/data-store.service.ts:196 | the keys of a row, in order |
| DataStoreService.ColumnNames | packages/cli/src/modules/data-store/data-store.service.ts:193 | every column's name is in the name set |
| DataStoreService.ColumnTypeOf | packages/cli/src/modules/data-store/data-store.service.ts:194 | a type is found exactly for a column name |
| DataStoreService.StoredRow | packages/cli/src/modules/data-store/data-store.service.ts:213-217 | a stored row is the row with each entry stored (dates as ISO text) |
| DataStoreService.CheckCell | packages/cli/src/modules/data-store/data-store.service.ts:204-226 | a cell passes exactly when it fits its column type (`null` always does); a date becomes ISO text; a mismatch reports the cell and the type |
| DataStoreService.ConvertFrom | packages/cli/src/modules/data-store/data-store.service.ts:200-227 | checking a row's keys never changes its length or keys |
| DataStoreService.AfterRow | packages/cli/src/modules/data-store/data-store.service.ts:195-228 | the row list keeps its length after one row's check |
| DataStoreService.ValidateFrom | packages/cli/src/modules/data-store/data-store.service.ts:195-228 | the row list keeps its length |
| DataStoreService.ConvertFromPasses | packages/cli/src/modules/data-store/data-store.service.ts:200-227 | a row's check passes exactly when every checked entry names a column and fits its type |
| DataStoreService.ConvertFromStores | packages/cli/src/modules/data-store/data-store.service.ts:200-227 | when it passes, earlier entries are kept and the checked ones are stored |
| DataStoreService.ConvertFromError | packages/cli/src/modules/data-store/data-store.service.ts:200-226 | a failure happens at the first bad entry, as an unknown column or a type mismatch of that cell |
| DataStoreService.ConvertRowOutcome | packages/cli/src/modules/data-store/data-store.service.ts:195-228 | a row with the right key count passes exactly when it conforms, and is then stored |
| DataStoreService.ValidateFromOutcome | packages/cli/src/modules/data-store/data-store.service.ts:195-228 | earlier rows and all keys are untouched; success exactly when every later row conforms, each then stored |
| DataStoreService.ValidateRowsAccepts | packages/cli/src/modules/data-store/data-store.service.ts:187-229 | validation passes exactly when the store has columns and every row conforms; then every row is stored; no columns gives the no-columns error with rows untouched |
| DataStoreService.ValidateRowsKeepsKeys | packages/cli/src/modules/data-store/data-store.service.ts:187-229 | validation never adds, removes or renames a key, whatever its outcome |
| DataStoreService.ValidateFromFailure | packages/cli/src/modules/data-store/data-store.service.ts:195-228 | a failure happens at the first bad row: the rows before it are already stored, the rows after it untouched, and the error is that row's |
| DataStoreService.RenameKeepsValid | packages/cli/src/modules/data-store/data-store.service.ts:70-97 | a rename that goes through changes only the name, to the trimmed non-empty name, and keeps names unique per project; a rename to the current name is refused |
| DataStoreService.CreateKeepsValid | packages/cli/src/modules/data-store/data-store.service.ts:58-67 | adding a store under a name its project does not use keeps names unique per project |
| DataStoreService.Service.CreateDataStore | packages/cli/src/modules/data-store/data-store.service.ts:58-67 | fails exactly when the project already has the name, changing nothing; otherwise adds the new store |
| DataStoreService.Service.UpdateDataStore | packages/cli/src/modules/data-store/data-store.service.ts:70-97 | returns the error of `RenameOutcome` changing nothing, or `true` with the store renamed |
| DataStoreService.Service.ValidateRows | packages/cli/src/modules/data-store/data-store.service.ts:187-229 | the rows array and the error become what `ValidateRowsSpec` gives |
| DataStoreService.ConvertStep | packages/cli/src/modules/data-store/data-store.service.ts:200-217 | a passing key is stored in place and the check goes on with the next key |
| DataStoreService.ConvertRow | packages/cli/src/modules/data-store/data-store.service.ts:200-227 | the key loop leaves the row and error `ConvertFrom` gives, other rows untouched |
| CodeOutput.KeysOf | packages/nodes-base/nodes/Code/utils.ts:28 | the keys of an object's entries, in order |
| CodeOutput.IsObject | packages/nodes-base/nodes/Code/utils.ts:23-25 | true exactly for an object (not `null`, not an array, not a primitive) |
| CodeOutput.IsTraversable | packages/nodes-base/nodes/Code/utils.ts:27-29 | true exactly for an object with at least one own key |
| CodeOutput.Standardized | packages/nodes-base/nodes/Code/utils.ts:10-21 | the constructor, the number of entries and every key are kept |
| CodeOutput.StandardizedKeepsKeys | packages/nodes-base/nodes/Code/utils.ts:10-21 | the key list and the constructor are unchanged |
| CodeOutput.StandardizedEntries | packages/nodes-base/nodes/Code/utils.ts:11-18 | a non-traversable value is kept, a traversable non-plain object becomes its JSON text, a traversable plain object is standardised |
| CodeOutput.BareDateKept | packages/nodes-base/nodes/Code/utils.ts:7-12 | a `Date` with no own key is not stringified |
| CodeOutput.ArrayKept | packages/nodes-base/nodes/Code/utils.ts:7-12 | an array is kept as it is, objects inside it included |
| CodeOutput.StandardizedIsStandard | packages/nodes-base/nodes/Code/utils.ts:7-21 | no traversable non-plain object remains as a value of a plain object at any depth of nested plain objects; arrays are not entered |
| CodeOutput.StandardIsFixed | packages/nodes-base/nodes/Code/utils.ts:10-21 | an already standard object is unchanged |
| CodeOutput.StandardizedIdempotent | packages/nodes-base/nodes/Code/utils.ts:10-21 | standardising twice is standardising once |
| CodeOutput.StandardizeOutput | packages/nodes-base/nodes/Code/utils.ts:10-21 | the loop over the entries gives exactly `Standardized` |
| CommunityNodeTypes.Descriptions | packages/cli/src/services/community-node-types.service.ts:91 | one description per entry, in order |
| CommunityNodeTypes.VettedNames | packages/cli/src/services/community-node-types.service.ts:92 | the description's node name for each entry, in order |
| CommunityNodeTypes.CatalogueKeysMatch | packages/cli/src/services/community-node-types.service.ts:88-93 | the key list has no repeats, lists exactly the map's names, which are exactly the entries' names |
| CommunityNodeTypes.CacheStep | packages/cli/src/services/community-node-types.service.ts:88-93 | one more entry assigns its attributes under its name and appends its description and name |
| CommunityNodeTypes.CatalogueLastWins | packages/cli/src/services/community-node-types.service.ts:90 | a name maps to the attributes of its last entry |
| CommunityNodeTypes.UpdateDueWindow | packages/cli/src/services/community-node-types.service.ts:104-107 | with a non-zero timestamp, no update is due for eight hours after it, one is due after that, and once due it stays due |
| CommunityNodeTypes.FirstOccurrence | packages/cli/src/services/community-node-types.service.ts:122 | the first index from `i` where the pattern occurs; none when it never does |
| CommunityNodeTypes.RemoveFirst | packages/cli/src/services/community-node-types.service.ts:122 | the text with the first occurrence of the pattern removed, unchanged when there is none |
| CommunityNodeTypes.FirstKeyContaining | packages/cli/src/services/community-node-types.service.ts:127-128 | the first key containing the pattern; none when no key does |
| CommunityNodeTypes.Service.constructor | packages/cli/src/services/community-node-types.service.ts:37-43 | an empty, consistent cache with timestamp 0 |
| CommunityNodeTypes.Service.UpdateData | packages/cli/src/services/community-node-types.service.ts:83-96 | an empty answer changes nothing; otherwise the cache is exactly what the entries give and the timestamp is now |
| CommunityNodeTypes.Service.ResetData | packages/cli/src/services/community-node-types.service.ts:98-102 | the three collections are emptied and the timestamp kept |
| CommunityNodeTypes.Service.GetDescriptions | packages/cli/src/services/community-node-types.service.ts:109-115 | refreshes from a successful non-empty answer when an update is due or there are no descriptions, otherwise changes nothing; returns the descriptions |
| CommunityNodeTypes.Service.GetCommunityNodeAttributes | packages/cli/src/services/community-node-types.service.ts:121-124 | the attributes under the name with the preview token removed; none when the catalogue has no entry of its own under that name |
| CommunityNodeTypes.Service.FindVetted | packages/cli/src/services/community-node-types.service.ts:126-131 | the attributes under the first key, in key order, containing the package name; none when no key contains it; when the first containing key is the empty string the answer is none too (the source tests the key for truthiness) |
| Text.TrimSlice | packages/cli/src/modules/data-store/data-store.service.ts:71 | the trimmed name is a slice of the input with only whitespace cut on either side, and starts and ends with non-whitespace |
| Text.TrimIdempotent | packages/cli/src/modules/data-store/data-store.service.ts:71 | trimming twice is trimming once |
| Text.Contains | packages/cli/src/services/community-node-types.service.ts:128 | true exactly when the pattern occurs in the text |
| Text.DecimalRoundTrip | packages/workflow/test/NodeReferenceParserUtils.test.ts:202-235 | the decimal spelling of a number, read back, is the number |
| Text.DecimalInjective | packages/workflow/test/NodeReferenceParserUtils.test.ts:202-235 | distinct numbers have distinct spellings, so numbered names differ |
| VariableNames.ResolveNew | packages/workflow/test/NodeReferenceParserUtils.test.ts:173-235 | a reference seen for the first time gets the first free candidate; exactly one variable with that name and the reference's text is appended, and the name is taken from then on |
| ExtractionVectors.ExtractsUsedExpressions | packages/workflow/test/NodeReferenceParserUtils.test.ts:155-171 | the first test vector: the two external references become `myField` and `myField_anotherField_first`, read from the start node |
| ExtractionVectors.ExtractsSimpleClashes | packages/workflow/test/NodeReferenceParserUtils.test.ts:173-200 | three references to `myField` in A, D and F: A keeps `myField`, D and F are prefixed with their node names |
| ExtractionVectors.ExtractsComplexClashes | packages/workflow/test/NodeReferenceParserUtils.test.ts:202-235 | the complex clash vector: `myField`, `Node_Name_With_Gap_myField`, `D_Node_Name_With_Gap_myField` and `Node_Name_With_Gap_myField_1`, with the node texts rewritten accordingly |
| ExtractionVectors.ExtractsFromCode | packages/workflow/test/NodeReferenceParserUtils.test.ts:237-269 | a reference inside a Code node's `jsCode` is replaced by `$('Start').first().json.uid_first` and the rest of the code is kept |
| ExtractionVectors.ExtractsOnlyExternal | packages/workflow/test/NodeReferenceParserUtils.test.ts:270-288 | a reference to a subgraph node is kept as written; only the external one becomes a variable |
| ExtractionVectors.RefusesStartNameClash | packages/workflow/test/NodeReferenceParserUtils.test.ts:289-293 | a subgraph node named like the start node fails with the start-name error, whatever its parameters |
| ExtractionVectors.ExtractsWithOtherStart | packages/workflow/test/NodeReferenceParserUtils.test.ts:295-307 | a subgraph node may be called `Start` when the start node has another name, and the replacement reads from that name |
| ExtractionVectors.RefusesUnknownNode | packages/workflow/test/NodeReferenceParserUtils.test.ts:308-312 | a subgraph node missing from the node names fails with the unknown-node error, whatever its parameters |
| ExtractionVectors.ExtractsItemMatching | packages/workflow/test/NodeReferenceParserUtils.test.ts:316-344 | `itemMatching` arguments go into the names: `myField_itemMatching_0`, `myField_itemMatching_1`, `C_myField_itemMatching_1`, `myField_itemMatching_20` |
| ExtractionVectors.ExtractsMultipleExpressions | packages/workflow/test/NodeReferenceParserUtils.test.ts:358-385 | the reference repeated in D reuses `myField`, D's reference to the subgraph node B is kept, and the variables are `myField` and `anotherField` in order |
| ExtractionVectors.ExtractsImplicitItem | packages/workflow/test/NodeReferenceParserUtils.test.ts:155-171 | not a test vector: the implicit `item` next to the written `.item` of these lines; `$("A").json.myField` and then `$("A").item.json.myField` in one node both become `$('Start').item.json.myField`, with the single variable `myField` holding the first text |
| ExtractionVectors.ExtractsAccessorCalls | packages/workflow/test/NodeReferenceParserUtils.test.ts:386-399 | `$("B B").first()` with no field path becomes the variable `B_B_first`, read as `$('Start').first().json.B_B_first`, and the calls after it are kept |

## Left out

- The implementation of the node-reference utilities is not part of this model. The model is
  built from their unit tests, and every test vector is proved except the two below.
- ExtractionVectors.ExtractsFromCode: the Code node's type, version, position and id are not
  modelled, only its `jsCode` parameter. The code text is given in literal parts joined together.
- ExtractionVectors: a node's parameters are a list in key order, so the test's parameter objects
  become lists `p0`, `p1`, and so on.
- ReferenceScanner.Sanitize: the special-character vector of test lines 400-431 is not proved.
  Sanitising that long literal name is too costly for the verifier. The rule it follows (space
  becomes `_`, identifier characters are kept, every other character is dropped) is the one the
  model uses.
- ReferenceScanner.ReferenceAt: only the `$("N")` and `$('N')` forms are recognised as references
  to extract. These are the only forms the extraction tests use. The regular-expression engine
  and the `$node`/`$items` forms in extraction are not modelled.
- ReferenceScanner.AccessorAt: a call followed by neither an accessor nor `.json` with a field
  (a bare `$("A")`, `$("A").params…`, `$("A").isExecuted`, `$("A").json` alone) is not read as a
  reference. Such text is copied unchanged and names no variable.
- ReferenceSyntax.ImplicitItemRoundTrip: a reference with the implicit `item` (`$("A").json.f`)
  has the signature of `$("A").item.json.f`, so the two share one variable. Its replacement writes
  `.item` out: `$('Start').item.json.f`. No unit test fixes either choice.
- ReferenceScanner.AccessorAt: the `itemMatching` argument is read up to its balancing `)`. The
  argument is not parsed as JavaScript, so a `)` inside a string literal in the argument closes it.
- ReferenceExtractor.Rewritten: within one text, references are named in text order, left to
  right, and then node by node and parameter by parameter. A search done name by name over
  `nodeNames` would name them in `nodeNames` order instead. For `$("C").item.json.f` followed by
  `$("A").item.json.f`, the model gives `f` to C and `A_f` to A. No unit test tells the two orders
  apart.
- ReferenceExtractor.ExtractReferencesInNodeExpressions: parameters are flat key/value lists. A
  nested parameter object or array is kept as an opaque value and not scanned.
- The test vector "does not throw for complex itemMatching example" (lines 345-357) is covered
  only by totality: the model has no exceptions other than the two error cases.
- CodeOutput.StandardizeOutput: the update happens on values, not in place. Aliasing (the same
  object reachable twice) and the mutation of the caller's object are not modelled.
- CodeOutput: `JSON.stringify` is a function parameter. Null-prototype objects, getters,
  `toJSON` and cycles are not modelled, and numbers are reals.
- DataStoreService.CheckCell: `Date.prototype.toISOString` is a function parameter, and the
  `RangeError` it throws for an invalid date is not modelled. Error messages are datatype values,
  not text.
- DataStoreService.Service.ValidateRows: rows are independent values in the array. In the
  source the same row object can be listed twice; its date cell is then already ISO text on the
  second visit, and the check fails there. The model converts both entries and succeeds.
- DataStoreService.ValidateRows: the key order of a JavaScript object (integer-like keys first)
  is taken as given by the row's entry order.
- DataStoreService.Service.CreateDataStore: the repository is an in-memory map and the new id is
  a parameter the caller supplies, required to be fresh. TypeORM, the database, transactions and
  column creation are not modelled.
- DataStoreService.CreateKeepsValid: names stay unique only for calls that run one after another.
  `createDataStore` and `updateDataStore` check for a clash and then write in two separate
  awaited steps, so two concurrent requests for the same name can both pass the check. The model
  runs each call as one step.
- DataStoreService.RenameKeepsValid: the same check-then-write race applies to a rename.
- DataStoreService: the other service operations (deleting, listing, row insertion and queries)
  are outside this model.
- CommunityNodeTypes.Service.GetDescriptions: the HTTP request, its pagination and the logging of
  its failure become the parameter `fetched` (`None` for a failed request). The clock is the
  parameter `now`.
- CommunityNodeTypes.Service.FindVetted: the order of `Object.keys(communityNodes)` is taken as
  insertion order (`CommunityNodeTypes.CatalogueKeys`). In JavaScript, integer-like package names
  come first in ascending order, and a name `__proto__` sets the prototype instead of adding a
  key. For such names the first matching key in the model can differ from the source's.
- CommunityNodeTypes.Service.GetCommunityNodeAttributes: the catalogue is a plain `{}` object, so
  the source's lookup also finds members inherited from `Object.prototype`. For `constructor`,
  `toString` or `hasOwnProperty` it returns a function, and for `__proto__` the prototype. The
  model has no inherited members and returns none for these names.
- CommunityNodeTypes.Service.GetCommunityNodeAttributes: the preview token's value is not part of
  this model, so it is a parameter.
- CommunityNodeTypes: `getVettedNodes` only returns a field and is not modelled separately.
  Concurrent refreshes are not modelled.
