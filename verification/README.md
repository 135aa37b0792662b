# asp-adli-python instrumenter, modelled in Dafny

asp-adli-python instruments a Python program so that its run can be
replayed against its design. Every statement of interest becomes a
*checkpoint* (a log type) with an entry in the `ltMap`, the table that
describes each log type. Log statements and positional tags are
injected around the statement. The variables a statement assigns are
collected and numbered so that their values can be logged. Local imports
are followed so that the whole program is instrumented, and a small
runtime (`AdliLogger`, `varLog`) writes the log records.

This project models the instrumenter's core as pure Dafny functions
over a small Python syntax tree (module `PyAst`):

- statements with their nested statement lists;
- expressions with their load/store context;
- positions;
- placeholder statements (`Marker`) and expressions (`Hook`) for the
  injected code whose builders are not part of this model.

Python's `ast.walk` is modelled as a level-order traversal in `Walk`, and
`generic_visit` as a structural recursion. Things the program gets from
outside are function parameters:

- `ast.unparse` (`render`);
- `uuid.uuid4` (`uid`, `uuid`);
- `json.loads` (`decode`);
- source segments;
- the file system (`opens`, `FileSystem`).

Python exceptions become the `Err` case of `Wrappers.Result`.

The modules follow the source files:

- `LogInjectorDesign`: the design-driven injector.
- `NodeExtractor`: the per-statement extractor.
- `Sst`: the structured syntax tree.
- `InlineInjector`, `InjectClassUid`, `SetUniqueId`, `LogInjector`,
  `ValueKeyInjector` and `UpdateVariableInfo`: the smaller transformers.
- `VariableCollectorBase`, `CollectAssignVarInfo`, `CollectCallVariables`,
  `CollectVariableDefault`, `CollectFunctionArgInfo`,
  `CollectVarDependencies`, `CollectVariables`, `CollectVariableNames` and
  `CollectVariableInfo`: the variable collectors.
- `CallCollector`, `DisabledVariables`, `DesignConfiguration`,
  `LocalImports` and `Helper`: the collectors and helpers.
- `AdliLogger` and `InjectedFunctions`: the runtime.

`NameMap`, `NodeVisitor`, `Walk`, `Text` and `Wrappers` are the shared
machinery.

## Model

| member | source | states |
|---|---|---|
| LogInjectorDesign.NewCheckpoint | injector/LogInjectorDesign.py:62-96 | it succeeds exactly when the node has a position and any abstraction on its line is one of `sdg_meta`'s; a missing position fails with the TypeError the shadowed `type` causes, an unknown abstraction with a KeyError, and a `None` `sdg_meta` with a TypeError; on success the counter rises by exactly one and the new id is a fresh `ltMap` key whose entry has that id, the node's lines, the stripped node's text and the line's abstraction id |
| LogInjectorDesign.NewCheckpointAsWritten | injector/LogInjectorDesign.py:11-34 | with the attributes the constructor really assigns, a checkpoint cannot be made: without `funcId` every call fails; with it, the call is the corrected `NewCheckpoint` |
| LogInjectorDesign.ConstructorCannotCheckpoint | injector/LogInjectorDesign.py:11-34 | the object the constructor builds has no `funcId`, so its first checkpoint always fails |
| LogInjectorDesign.AbstractionOf | injector/LogInjectorDesign.py:79-80 | an abstraction id exists exactly when the file's map is non-empty and holds the line, and it is that entry |
| LogInjectorDesign.ApplyDirective | injector/LogInjectorDesign.py:164-176 | a disable-variable directive extends the global list at `funcId == 0` and the local list otherwise; metadata is stored; counter and `ltMap` are untouched |
| LogInjectorDesign.VisitSimple | injector/LogInjectorDesign.py:118-162 | pattern A: it succeeds exactly when the checkpoint can be built, and then hands out one fresh checkpoint and returns log, "next" tag, statement |
| LogInjectorDesign.VisitExpr | injector/LogInjectorDesign.py:164-195 | an encode-output directive yields its replacement with no checkpoint (an IndexError without a value); a triple-quoted string yields the statement unchanged with no checkpoint, after the directive's effect; any other expression follows pattern A after the directive's effect, and fails exactly when its checkpoint cannot be built |
| LogInjectorDesign.VisitStmt | injector/LogInjectorDesign.py:98-310 | the walk of one statement hands out consecutive fresh ids, keeps every old `ltMap` entry, and its output holds exactly the input's ids plus the new ones, each new one with a tag |
| LogInjectorDesign.VisitBlockNode | injector/LogInjectorDesign.py:237-303 | patterns B, C, D and the function pattern keep the same id bookkeeping as every visitor |
| LogInjectorDesign.VisitChildren | injector/LogInjectorDesign.py:98-109 | `generic_visit` of a block node returns one node of the same statement class whose ids are the input's plus the new ones |
| LogInjectorDesign.VisitBlock | injector/LogInjectorDesign.py:98-310 | a statement list's visit hands out fresh consecutive ids and nothing else changes in `ltMap` |
| LogInjectorDesign.VisitStmtSucceeds | injector/LogInjectorDesign.py:62-303 | a statement's visit fails exactly when some checkpoint inside it cannot be built or some encode-output directive inside it has no value |
| LogInjectorDesign.VisitBlockNodeSucceeds | injector/LogInjectorDesign.py:237-303 | a block node's visit succeeds exactly when its own checkpoint can be built and its four statement lists succeed |
| LogInjectorDesign.VisitChildrenSucceeds | injector/LogInjectorDesign.py:98-109 | `generic_visit` of a block node succeeds exactly when each of its four lists does |
| LogInjectorDesign.VisitBlockSucceeds | injector/LogInjectorDesign.py:98-310 | a statement list's visit succeeds exactly when every statement in it does |
| LogInjectorDesign.CheckpointFacts | injector/LogInjectorDesign.py:102-105 | a checkpointed statement takes id `count + 1`, its entry records its lines, text and whether it is a function, the output has its pattern's shape, and every id handed out inside it is larger (pre-order numbering) |
| LogInjectorDesign.ShapeHasShape | injector/LogInjectorDesign.py:237-303 | types B, C, D and the function wrap the node as the source does: log and "next" tag before it, or "prev" tag and log at the head of the body, or the same log appended to the body's end |
| LogInjectorDesign.VisitBlockErase | injector/LogInjectorDesign.py:98-310 | removing the injected logs and tags from the output gives the input back, so the injector only adds statements |
| LogInjectorDesign.VisitStmtErase | injector/LogInjectorDesign.py:118-162 | the same inverse for one statement |
| LogInjectorDesign.FileAbsMap | injector/LogInjectorDesign.py:20-23 | an empty or absent abstraction map gives no file map; otherwise the file's entry is looked up, and a missing file is a KeyError |
| LogInjectorDesign.Inject | injector/LogInjectorDesign.py:11-34 | the `ltMap` keys are exactly `minLogTypeCount + 1 .. maxLogTypeCount`, so the difference counts the entries; each entry carries its own id and the file; the root-uid statement is first and has no checkpoint |
| LogInjectorDesign.InjectSucceeds | injector/LogInjectorDesign.py:11-34 | the constructor succeeds exactly when the file is found in a non-empty abstraction map and the walk of its body succeeds |
| LogInjectorDesign.RelocateOne | injector/LogInjectorDesign.py:45-59 | one walked constant changes at most `injectedLineno` of the checkpoint its tag names, and nothing else |
| LogInjectorDesign.Relocate | injector/LogInjectorDesign.py:36-60 | the keys are kept, only `injectedLineno` can change, and a checkpoint no tag names keeps its entry |
| LogInjectorDesign.RelocateLastTag | injector/LogInjectorDesign.py:45-59 | the last "prev"/"next" tag of a checkpoint in walk order sets its line to the tag's line minus or plus one |
| LogInjectorDesign.RelocateUntouched | injector/LogInjectorDesign.py:45-59 | a checkpoint without a tag keeps its entry |
| LogInjectorDesign.RelocateOneTag | injector/LogInjectorDesign.py:50-57 | one directed tag moves its checkpoint's line one above ("prev") or below ("next") itself |
| NodeExtractor.New | injector/NodeExtractor.py:14-52 | the syntax and variables come from the body-stripped node; a collector error or a missing position fails; the entry is "function" with the function's name exactly for a function definition and "child" otherwise; variables are numbered on from the counter and flagged global exactly when their name is in `globalsInFunc` |
| NodeExtractor.MarkGlobals | injector/NodeExtractor.py:51-52 | each variable keeps its record and is global exactly when its name is a string in `globalsInFunc` |
| NodeExtractor.VariableLogStatements | injector/NodeExtractor.py:54-64 | one parsed `aspAdliLog` statement per variable, in collection order |
| NodeExtractor.VariableLogsDecode | injector/NodeExtractor.py:54-64 | the i-th log statement decodes back to the i-th variable's name and id |
| NodeExtractor.DecodeLogText | injector/NodeExtractor.py:60-62 | the `aspAdliLog(name, varId)` text is decodable: name and id are recovered |
| NodeExtractor.InjectA | injector/NodeExtractor.py:78-88 | type A is the log of the node's own id followed by the node |
| NodeExtractor.InjectB | injector/NodeExtractor.py:90-104 | type B is type A followed by one variable log per variable |
| NodeExtractor.InjectC | injector/NodeExtractor.py:106-120 | a node without a body is an AttributeError; otherwise the log, then the node whose body starts with the variable logs and is otherwise unchanged |
| NodeExtractor.InjectD | injector/NodeExtractor.py:122-133 | a node without a body is an AttributeError; otherwise only the node, whose body starts with the log and the variable logs |
| NodeExtractor.InjectE | injector/NodeExtractor.py:135-150 | a node without a body is an AttributeError; otherwise the log, then the node with the variable logs first and the log appended last |
| NodeExtractor.FunctionEntry | injector/NodeExtractor.py:21-33 | `def f(a: t)` is typed "function" named `f`, has the one variable `a`, and type D puts the log and `a`'s variable log at the head of its body |
| Sst.New | injector/SST.py:5-15 | a new tree has an empty root and hands out `ltCount` first |
| Sst.CreateNode | injector/SST.py:17-30 | a new node is a leaf with the current id, and the counter moves on by one |
| Sst.AddAstNode | injector/SST.py:32-55 | a function definition is typed "function" whatever the caller says; the extractor is stamped with exactly the id its node gets; the node goes to `siblings` iff `isSibling`, else `children`, and the other list is unchanged |
| Sst.AddCustomNode | injector/SST.py:58-70 | the node has the given type and the next id, and is attached as `addAstNode` attaches |
| Sst.RunNumbered | injector/SST.py:17-70 | any sequence of additions keeps each list in creation order, no id in both lists, and all ids together exactly the range handed out, without gaps |
| Sst.FromNew | injector/SST.py:5-30 | from a new tree, the ids are consecutive from `ltCount` and their number is the number of additions |
| InlineInjector.RewriteInline | injector/Injectors/InlineInjector.py:21-63 | a generator's element and a lambda's body become `(ltLog, original, varLogs...)[1]` with one variable log per collected variable; the collector's variables are extended by exactly those records |
| InlineInjector.VarLogs | injector/Injectors/InlineInjector.py:29-32 | one variable log per collected record, in the records' order, each carrying that record's syntax and id |
| InlineInjector.WrapSelects | injector/Injectors/InlineInjector.py:25-40 | the wrapping tuple has length two plus the number of variables and selects the original expression |
| InlineInjector.RewriteE | injector/Injectors/InlineInjector.py:21-63 | removing the wrappers gives the expression back; one with no generator or lambda is untouched and adds no record; records are only appended |
| InlineInjector.RewriteS | injector/Injectors/InlineInjector.py:9-19 | the same for a statement's header expressions |
| InlineInjector.Inject | injector/Injectors/InlineInjector.py:9-19 | the result is the stripped node with its generators and lambdas wrapped; erasing the wrappers gives the stripped node; records are numbered on from the starting counter |
| InlineInjector.GeneratorInAssignment | injector/Injectors/InlineInjector.py:21-41 | `x = (y for y in ys)` logs the one variable `y` inside the rewritten element, which still selects `y` |
| InjectClassUid.Inject | injector/InjectClassUid.py:10-15 | a node that is not a class is returned unchanged; a class keeps its header and number of statements |
| InjectClassUid.VisitS | injector/InjectClassUid.py:18-52 | a method gains exactly its prologue at `body[0]` (the uid assignment in `__init__`, placed at line 1 column 0 as `ast.fix_missing_locations` leaves it, the uid log elsewhere, with no location) and is not searched further; a simple statement is unchanged |
| InjectClassUid.EraseVisitS | injector/InjectClassUid.py:18-52 | dropping the first statement of every method reached gives the input back, so nothing else changes |
| InjectClassUid.InjectErase | injector/InjectClassUid.py:10-52 | the same inverse for a whole class |
| InjectClassUid.TwoMethods | injector/InjectClassUid.py:13-50 | `__init__` assigns the uid and another method logs it, with the same uid |
| SetUniqueId.VisitS | injector/LoggerInstance/getLoggerInstance.py:15-19 | an assignment to `ADLI_UNIQUE_ID` as first target gets the uid as value and keeps its targets; other simple statements are unchanged; an assignment with no target is an IndexError |
| SetUniqueId.VisitSets | injector/LoggerInstance/getLoggerInstance.py:5-19 | afterwards every such assignment holds the uid, and nothing but those values changed |
| SetUniqueId.VisitIdempotent | injector/LoggerInstance/getLoggerInstance.py:5-19 | a second pass changes nothing |
| LogInjector.Inject | injector/LogInjector.py:3-7 | the output is one statement longer per top-level assignment; nested statement lists are duplicated alike, and `UndupDupL` undoes the duplication |
| LogInjector.UndupDupL | injector/LogInjector.py:5-7 | removing one of each doubled assignment gives the input back: statements stay in place and in order |
| LogInjector.DupKeepsAssigns | injector/LogInjector.py:7 | every output statement is an input statement, so assignments are repeated rather than changed |
| ValueKeyInjector.GetVariable | injector/VariableInjectors/ValueKeyInjector.py:17-23 | the result is the first entry visible by name and by equal `funcId` or `global`, and there is none exactly when no entry is visible |
| ValueKeyInjector.Inject | injector/VariableInjectors/ValueKeyInjector.py:6-15 | the statement's lists are emptied and its position kept |
| ValueKeyInjector.InjectUnwraps | injector/VariableInjectors/ValueKeyInjector.py:25-33 | removing the `asp_value` subscripts gives the stripped statement back: only names are wrapped |
| ValueKeyInjector.WrapsVisibleLoads | injector/VariableInjectors/ValueKeyInjector.py:28-33 | a loaded name that is found is wrapped once; other names are unchanged |
| UpdateVariableInfo.Update | injector/UpdateVariableInfo.py:3-36 | the statement keeps its class and position, and afterwards no name the visit reaches is a loaded name in scope |
| UpdateVariableInfo.RewritesLoadsInScope | injector/UpdateVariableInfo.py:24-36 | a name becomes `name["value"]` exactly when it is loaded and in scope; any other name is kept |
| NameMap.MapNamesS | injector/UpdateVariableInfo.py:24-36 | when the visitor only ever returns nodes whose names satisfy a property, every name reached in the rewritten statement satisfies it |
| UpdateVariableInfo.UpdateRestores | injector/UpdateVariableInfo.py:24-36 | undoing the `["value"]` subscripts gives the statement back |
| UpdateVariableInfo.UpdateIdempotent | injector/UpdateVariableInfo.py:24-36 | a second pass changes nothing, because the identifier string is no longer a name |
| UpdateVariableInfo.UpdateExample | injector/UpdateVariableInfo.py:9-12 | `a = b + 1` becomes `a = b["value"] + 1` |
| NameMap.UnmapMapS | injector/UpdateVariableInfo.py:24-36 | a name rewrite that can be undone leaves no other trace in a statement |
| NameMap.MapTwiceS | injector/VariableInjectors/ValueKeyInjector.py:28-33 | a name rewrite that does not descend into its result is idempotent over a statement |
| VariableCollectorBase.New | injector/VariableCollectors/BaseVariableCollector.py:10-13 | no variables yet, and `logType` and `funcId` as given |
| VariableCollectorBase.GetVarInfo | injector/VariableCollectors/BaseVariableCollector.py:15-28 | exactly one record is appended with the next id, `isTemp` exactly when an assigned value is stored, and `logType`, `funcId` copied |
| VariableCollectorBase.IdsIncrease | injector/VariableCollectors/BaseVariableCollector.py:19-21 | ids of later records are larger |
| CollectAssignVarInfo.TempName | injector/VariableCollectors/CollectAssignVarInfo.py:30-35 | temp names start with `asp_temp_var_` and the uuid part has no hyphen |
| CollectAssignVarInfo.VisitE | injector/VariableCollectors/CollectAssignVarInfo.py:37-71 | afterwards every index is a constant or a name, and an expression whose indices already are is returned as it is with no temp |
| CollectAssignVarInfo.ChainVisit | injector/VariableCollectors/CollectAssignVarInfo.py:59-71 | on an access chain the keys are collected root first |
| CollectAssignVarInfo.Collect | injector/VariableCollectors/CollectAssignVarInfo.py:11-28 | records are only appended and every record but the last one is a temp; in terms of the visit's keys and slice flag, IndexError exactly for a slice with no key, a slice records the whole variable under its first key with no keys and its name as syntax, no slice records the first key with the remaining keys and the rendered target, and no key and no slice records nothing |
| CollectAssignVarInfo.SlicedTargetRecord | injector/VariableCollectors/CollectAssignVarInfo.py:18-25 | `a[lo:] = v` records `a` with no keys and `a` as syntax, although the bound added a key |
| CollectAssignVarInfo.ChainRecord | injector/VariableCollectors/CollectAssignVarInfo.py:26-28 | a chain target gives one record named by its root with the remaining keys and the rendered target |
| CollectAssignVarInfo.EmptySliceFails | injector/VariableCollectors/CollectAssignVarInfo.py:18-25 | a subscript with no keys fails |
| CollectAssignVarInfo.HoistedIndex | injector/VariableCollectors/CollectAssignVarInfo.py:47-54 | a computed index is recorded as a temp before the main record and replaced by the temp's name |
| CollectCallVariables.Receiver | injector/VariableCollectors/CollectCallVariables.py:62 | the syntax is the text before the last dot |
| CollectCallVariables.Save | injector/VariableCollectors/CollectCallVariables.py:27-62 | fewer than two keys change nothing; otherwise the first and last keys are popped, a slice records the whole variable with no keys and its name as syntax without checking that it exists, a known variable is recorded with the keys in between and the receiver's syntax, and an unknown one adds no record |
| CollectCallVariables.Collect | injector/VariableCollectors/CollectCallVariables.py:12-25 | as written, with keys shared across calls: records are only appended, numbered on from the counter, and each is a temp, a whole sliced variable with no keys, or one whose name is an existing variable |
| CollectCallVariables.CollectPerCall | injector/VariableCollectors/CollectCallVariables.py:12-25 | with keys reset for each call, the same three kinds of record |
| CollectCallVariables.PerCallRecordsReceiver | injector/VariableCollectors/CollectCallVariables.py:47-62 | for a method call on a chain of an existing variable, one record of the receiver with the method name dropped |
| CollectCallVariables.StaleKeyNamesRecord | injector/VariableCollectors/CollectCallVariables.py:14-16 | with the key `f` left over from an earlier call, `x.y.z()` is recorded as variable `f` with keys `x, y` |
| CollectCallVariables.PerCallIgnoresStaleKey | injector/VariableCollectors/CollectCallVariables.py:47-62 | with keys reset per call, `x.y.z()` is recorded as `x` |
| CollectVariableDefault.Collect | injector/VariableCollectors/CollectVariableDefault.py:14-25 | one record per stored name of the stripped node, in walk order, with no keys, syntax = name and no temp |
| CollectVariableDefault.RecordsAreStores | injector/VariableCollectors/CollectVariableDefault.py:23-25 | every record comes from a stored name in the walk |
| CollectVariableDefault.ForTarget | injector/VariableCollectors/CollectVariableDefault.py:17-25 | `for x in xs` records `x` alone |
| CollectVariableDefault.GeneratorTarget | injector/VariableCollectors/CollectVariableDefault.py:23-25 | `(y for y in ys)` records `y` once |
| CollectFunctionArgInfo.Collect | injector/VariableCollectors/CollectFunctionArgInfo.py:11-16 | one record per parameter in the subtree, in walk order, with no keys and syntax = its name |
| CollectFunctionArgInfo.TwoParameters | injector/VariableCollectors/CollectFunctionArgInfo.py:15-16 | `def f(a, b)` records `a` then `b` |
| CollectVarDependencies.Extract | injector/CollectVarDependencies/CollectVarDependencies.py:41-55 | the access path reaches the root through the chain; a chain not rooted at a name has no name and no keys |
| CollectVarDependencies.ExtractAgreesWithChain | injector/CollectVarDependencies/CollectVarDependencies.py:41-64 | on a name-rooted chain the keys are root to leaf, as the assignment collector reads them |
| CollectVarDependencies.Save | injector/CollectVarDependencies/CollectVarDependencies.py:15-19 | a store appends the access to `vars`, a load to `deps`, any other context records nothing |
| CollectVarDependencies.ExtractMarksSpine | injector/CollectVarDependencies/CollectVarDependencies.py:41-55 | a chain marks only the nodes reached through `value` links, never an index, so names inside an index are reported on their own |
| CollectVarDependencies.Heads | injector/CollectVarDependencies/CollectVarDependencies.py:22-38 | every chain start is a walked attribute, subscript or name whose node no earlier chain marked |
| CollectVarDependencies.Accesses | injector/CollectVarDependencies/CollectVarDependencies.py:15-19 | every chain whose outermost node has the given context contributes its access, and there are at most as many accesses as chains |
| CollectVarDependencies.AccessesFrom | injector/CollectVarDependencies/CollectVarDependencies.py:15-19 | every routed access is the access of a chain whose outermost node has that context |
| CollectVarDependencies.FoldRoutes | injector/CollectVarDependencies/CollectVarDependencies.py:15-38 | from any state, the walk appends the stored chains' accesses to `vars` and the loaded chains' accesses to `deps`, one per chain, in walk order |
| CollectVarDependencies.Collect | injector/CollectVarDependencies/CollectVarDependencies.py:4-39 | `vars` is the access of every chain whose outermost node stores, `deps` of every chain whose outermost node loads, in walk order; at most one record per walked node |
| CollectVarDependencies.AttributeTarget | injector/CollectVarDependencies/CollectVarDependencies.py:15-26 | `a.b = c` stores `a` with key `b` and reads nothing: the chain's inner name is not recorded again |
| CollectVarDependencies.IndexNameIsRead | injector/CollectVarDependencies/CollectVarDependencies.py:22-64 | `x = y[k]` stores `x`, reads `y` with key `k`, and reads the index `k` again as its own name |
| CollectVariables.Collect | injector/CollectVariables.py:10-57 | records are only appended and numbered on from the counter without gaps |
| CollectVariables.FoldStores | injector/CollectVariables.py:40-43 | with no call or function in the walk, the records are the stored names in walk order |
| CollectVariables.AgreesWithDefault | injector/CollectVariables.py:16-43 | for such a statement the names agree with the default collector's |
| CollectVariables.NestedCallsRepeat | injector/CollectVariables.py:53-57 | `f(g(x))` with `x` existing records `x` twice, once per enclosing call |
| CollectVariableNames.Save | injector/CollectVariableNames.py:61-74 | an empty key list is an IndexError; otherwise one record named by the first key with the next id, and the keys lose their head |
| CollectVariableNames.Visit | injector/CollectVariableNames.py:15-59 | records are only appended; names, constants and attributes only append keys |
| CollectVariableNames.VisitArg | injector/CollectVariableNames.py:34-39 | a parameter's visit keeps earlier records |
| CollectVariableNames.ArgRecordFixed | injector/CollectVariableNames.py:34-39 | with the corrected order a parameter is recorded under its own name |
| CollectVariableNames.TargetRecord | injector/CollectVariableNames.py:15-20 | each assignment target is recorded with keys reset |
| CollectVariableNames.Collect | injector/CollectVariableNames.py:5-13 | ids are consecutive from the counter |
| CollectVariableNames.ExtractVariables | injector/CollectVariableNames.py:77-95 | statements other than the collected classes give no records |
| CollectVariableNames.AssignRecords | injector/CollectVariableNames.py:15-20 | one record per target, with syntax = the target's text |
| CollectVariableNames.SingleTargetRecord | injector/CollectVariableNames.py:22-32 | annotated and augmented assignments record their target |
| CollectVariableNames.AnnotatedArgAsWritten | injector/CollectVariableNames.py:34-39 | as written, `def f(a: int)` records a variable named `int` with key `a` |
| CollectVariableNames.AnnotatedArgFixed | injector/CollectVariableNames.py:34-39 | corrected, `def f(a: int)` records `a` with no keys |
| CollectVariableInfo.GetVarInfo | injector/CollectVariableInfo.py:21-31 | one record is appended with the next id, a temp exactly when a node is stored |
| CollectVariableInfo.VisitS | injector/CollectVariableInfo.py:33-58 | afterwards every index is a constant or a name, and a statement whose indices already are keeps its form and adds only keys |
| CollectVariableInfo.Collect | injector/CollectVariableInfo.py:8-16 | no keys is an IndexError; otherwise temps first and the main record last, named by the first key, numbered on from the counter |
| CollectVariableInfo.NamedStatement | injector/CollectVariableInfo.py:15-16 | for a statement without computed indices the main record's name and keys are its collected keys |
| CollectVariableInfo.SliceIsHoisted | injector/CollectVariableInfo.py:33-41 | a slice index is hoisted to a temp too |
| CallCollector.FuncName | injector/CallCollectors/CallCollector.py:21-25 | a name gives its id, an attribute its last `attr`, anything else nothing |
| CallCollector.Collect | injector/CallCollectors/CallCollector.py:11-19 | every collected name is non-empty |
| CallCollector.CallsArePreOrderCallees | injector/CallCollectors/CallCollector.py:15-19 | the names are the callee names of the calls in pre-order, arguments included even when the callee has no name |
| CallCollector.CollectExample | injector/CallCollectors/CallCollector.py:8-9 | `print(bar(baz(2)), qux())` gives `print, bar, baz, qux` |
| DisabledVariables.DisabledVariables | injector/CommentCollectors/getDisabledVariable.py:4-26 | no constant gives nothing; a non-string constant is a TypeError; no marker gives nothing; every name is non-empty and without whitespace |
| DisabledVariables.OnlyFirstLine | injector/CommentCollectors/getDisabledVariable.py:21-24 | only the text after the first marker up to the end of its line is split |
| DisabledVariables.DisabledThreeNames | injector/CommentCollectors/getDisabledVariable.py:13 | the documented three-name directive yields the three names |
| DisabledVariables.CheckDisabled | injector/CheckDisabledVariable.py:3-13 | the same error and empty cases as the first copy |
| DisabledVariables.CopiesAgree | injector/CheckDisabledVariable.py:3-13 | the two copies agree on every statement |
| DesignConfiguration.ModulePlacements | injector/LoadDesignConfiguration.py:80-87 | each key is `lineDelta + startLine` and each value the abstraction id |
| DesignConfiguration.Place | injector/LoadDesignConfiguration.py:85-87 | keys are the old ones plus the placed lines |
| DesignConfiguration.PlaceLastWins | injector/LoadDesignConfiguration.py:87 | a later abstraction on the same line wins |
| DesignConfiguration.FileMap | injector/LoadDesignConfiguration.py:76-87 | a file has at most as many entries as abstractions |
| DesignConfiguration.FileMapLines | injector/LoadDesignConfiguration.py:80-87 | a line is a key exactly when some abstraction is placed on it, and maps to the last one placed there |
| DesignConfiguration.BuildMap | injector/LoadDesignConfiguration.py:66-91 | one inner map per file path |
| DesignConfiguration.LastEntryWins | injector/LoadDesignConfiguration.py:75-77 | a repeated path resets that file's map to the last entry's |
| DesignConfiguration.EmptyFileGetsMap | injector/LoadDesignConfiguration.py:76 | a file with no abstractions still gets an empty map |
| LocalImports.ImportPaths | injector/FindLocalImports.py:40-44 | one candidate per alias, dots replaced by slashes, under the root |
| LocalImports.Candidates | injector/FindLocalImports.py:23-51 | `import` gives one candidate per alias; `from m import ...` gives one per alias under `m` and then `m.py`; a relative import without module is an AttributeError |
| LocalImports.ImportsIn | injector/FindLocalImports.py:53-65 | only candidates that open are kept, in order, and an error is exactly a candidate error |
| LocalImports.CandidatesExample | injector/FindLocalImports.py:40-44 | `import foo.bar` under `/root` is `/root/foo/bar.py` |
| LocalImports.Enqueue | injector/FindLocalImports.py:89-91 | the queue keeps its order, gains only new paths that are not found yet, and has no duplicates |
| LocalImports.FindLocalImports | injector/FindLocalImports.py:67-92 | on success the result starts with the entry file, has no duplicates, and is exactly the files reachable from the entry through local imports, none of which fails; on failure the error is that of some reachable file (IOError when it does not open, SyntaxError when it does not parse, or its import visitor's error); an unreadable entry is an IOError and an unparsable one a SyntaxError |
| LocalImports.ReachableImport | injector/FindLocalImports.py:89-91 | a file imported by a reachable file is reachable |
| LocalImports.ClosedComplete | injector/FindLocalImports.py:67-92 | files that contain the entry and are closed under imports contain every reachable file |
| Helper.Existing | injector/helper.py:19-27 | exactly the candidates that open, in order |
| Helper.ImportCandidates | injector/helper.py:3-17 | only the first alias counts; `from m import n` gives `m/n.py` then `m.py` |
| Helper.CheckImport | injector/helper.py:3-27 | fails exactly when the candidates fail; otherwise the candidates that open, in order |
| Helper.RootLoggingSetup | injector/helper.py:30-46 | seven statements, the handler writing to `./<name>.cdl` |
| Helper.RootLoggingSetupInjective | injector/helper.py:37-46 | different log file names give different setups |
| Helper.LoggingSetup | injector/helper.py:48-55 | two statements |
| Helper.LoggingSetupIsPartOfRoot | injector/helper.py:48-55 | they are the root setup's import and logger lines |
| Helper.LoggingStatement | injector/helper.py:57-67 | a `logger.info` of exactly the given constant |
| Helper.LoggingStatementInjective | injector/helper.py:57-67 | different constants give different statements |
| Helper.ExceptionLog | injector/helper.py:69-79 | the handler logs the exception with the log type and re-raises it |
| InjectedFunctions.VarLog | injector/injectedFunctions.py:7-32 | a dict with `asp_uid` is returned unchanged, anything else is wrapped with a fresh uid; the record logs the returned value |
| InjectedFunctions.VarLogIdempotent | injector/injectedFunctions.py:19-32 | applied to its own result, `varLog` returns it unchanged |
| InjectedFunctions.ValueIgnoresSerialiser | injector/injectedFunctions.py:27-32 | a serialisation failure changes only the text, never the value |
| InjectedFunctions.WrapKeepsValue | injector/injectedFunctions.py:19-25 | a wrapped value keeps the original under `asp_value` |
| AdliLogger.Init | injector/LoggerInstance/AdliLogger.py:26-31 | the four counters start at zero |
| AdliLogger.VariableRecord | injector/LoggerInstance/AdliLogger.py:33-43 | a variable record starts `# <varid> ` on both paths |
| AdliLogger.Apply | injector/LoggerInstance/AdliLogger.py:33-76 | each call raises `count` and only its own counter; a header raises `count` only; encode and decode do nothing |
| AdliLogger.CountInvariant | injector/LoggerInstance/AdliLogger.py:33-66 | `count` equals the three counters plus the header calls, and one record is written per counted call |
| PyAst.Strip | injector/NodeExtractor.py:42-49 | a node's statement lists are emptied and the rest kept; other statements are unchanged |
| PyAst.StripIgnoresBodies | injector/NodeExtractor.py:42-49 | the stripped copy does not depend on the bodies |

## Left out

- Reading and writing files, `json` serialisation and `ast.parse` are parameters or are left out. This covers the design files (`getSdgFile`, `getSdgMetaFile`, `getAbsMapFile`), the logger file read by `getLoggerInstanceWithUid`, and the log handler set-up of the runtime.
- `ast.unparse`, `uuid` and `get_source_segment` are parameters. A temp name is keyed by the collector's counter.
- The injected code whose builders are not in `helper.py` is a placeholder: `getTag`, `getLtLogStmt`, `getVarLogStmt`, `getEncodedOutputStmt`, `getRootUidAssign` and the logging-setup injection. Its placeholders record only the ids and direction.
- `getEmptyRootNode` is not in `helper.py`. It is modelled as `PyAst.Strip`, which empties a node's statement lists; a lambda's body is an expression and is kept.
- `match` statements, call keywords and argument defaults are not in the syntax tree. `print` calls in the collectors and in `visit_Call` are omitted.
- `getMetadata`, `CollectVarDependencies_old`, the command line (`adli.py`, `ProgramProcessor`, `processFile`) and the sample programs are not part of this model.
- LogInjectorDesign.Inject: the four fields the constructor never assigns (`funcId`, `globalsInFunc`, the two disabled lists) are given initial values 0 and empty; as written the first checkpoint fails (see Findings).
- LogInjectorDesign.Inject: stamping `logTypeCount` on the walked statements and the SST built alongside are not modelled.
- LogInjectorDesign.NewCheckpoint: an `sdg_meta` without an `"abstractions"` entry (a KeyError in the source) is not distinguished: `sdgAbstractions` is that entry's keys, or nothing when `sdg_meta` is `None`.
- LogInjectorDesign.Relocate: a constant that `json.loads` rejects is modelled as the `decode` oracle returning nothing.
- NodeExtractor.New: the source imports a name, `CollectVariableNames`, that its module does not define. The model uses that module's class `CollectVariable`, with the corrected argument order (see Findings).
- NodeExtractor.VariableLogStatements: the `aspAdliLog(...)` text is kept as text, because `ast.parse` is not modelled.
- Sst.AddAstNode: the extractor has no `lineno` of its own in the source; the model's extractor record carries the node's line. The root node's type, id and fields are not modelled, and the active node never moves.
- InlineInjector.Inject: the copy depth of `getEmptyRootNode` is unknown, so the result is the rewritten stripped copy.
- InjectClassUid.VisitS: the context of the built `self` name (the class `ast.Store` rather than an instance) is modelled as no context.
- CollectCallVariables.Collect: returns the records only. Which calls of the statement get a record is stated per call, by `Save` and `PerCallRecordsReceiver`, and not over the whole walk: the walk rewrites each callee in place and threads one key list through all calls, which makes a walk-level statement a proof over every level of `ast.walk`.
- CollectCallVariables.CollectPerCall: which calls get a record is likewise stated per call only (`Save`, `PerCallRecordsReceiver`), not over the whole walk.
- CollectVarDependencies.Extract: the `return None` branch of `_get_subscript_key` is taken only when the `ast` module has no `unparse` (Python before 3.9); the model assumes `ast.unparse` exists, so a computed index is always rendered.
- ValueKeyInjector.Inject: the source returns nothing and rewrites in place. The model's result stands for the rewritten node. For a simple statement that is the caller's node. For a node with a body the source rewrites a `getEmptyRootNode` copy and discards it; that copy's depth is unknown, so what the caller observes is not modelled.
- CollectVariables.Collect: states numbering and, for call-free statements, the stored names. The records under calls are shown only by example (`NestedCallsRepeat`).
- CollectVariableNames.Visit: clearing the annotation in the caller's tree is not modelled; only the records are returned.
- CollectVariableInfo.GetVarInfo: its records carry no log type or function id, as in the source's constructor.
- DesignConfiguration.BuildMap: a file entry missing a key (a KeyError in the source) is not modelled; entries are well-formed records.

## Findings

| source | as written | input that shows it | evidently intended | confidence | as-written member | corrected member |
|---|---|---|---|---|---|---|
| injector/LogInjectorDesign.py:11-34 | the constructor never assigns `funcId`, yet `generateLtLogStmts` reads it for every `ltMap` entry | any module with one checkpointed statement, e.g. `x = 1` | `funcId` starts at 0 (module level), as the `funcId == 0` test in `visit_Expr` presumes | high, not executed | LogInjectorDesign.NewCheckpointAsWritten | LogInjectorDesign.NewCheckpoint |
| injector/VariableCollectors/CollectCallVariables.py:14-16 | `keys` and `containsSlice` are set once and never reset between calls | a call whose keys were not consumed, followed by `x.y.z()` | keys reset for each call | medium, not executed | CollectCallVariables.StaleKeyNamesRecord | CollectCallVariables.PerCallIgnoresStaleKey |
| injector/CollectVariableNames.py:34-39 | `generic_visit` runs before the arg name is appended, so an annotation's name becomes the first key | `def f(a: int): ...` records a variable `int` with key `a` | the parameter `a` recorded with no keys | high, not executed | CollectVariableNames.AnnotatedArgAsWritten | CollectVariableNames.AnnotatedArgFixed |
