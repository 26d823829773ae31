# JSON Schema core: a Dafny model

This project models the core of `@hyperjump/json-schema-core`, the engine that
JSON Schema dialects plug into. It covers these parts:

- **The schema store** (`lib/schema.js`).
  - Per-dialect configuration.
  - `add` with its recursive `processSchema` walk, which records embedded resources, anchors and
    recursive anchors.
  - The stored-resource table and its aliases.
  - `get`, which turns a URL into a frozen *view* of a stored resource and follows
    `$ref`/`$recursiveRef` references.
  - The `uri`/`value`/`step`/`entries` operations on views.
- **The engine** (`lib/core.js`).
  - The keyword and vocabulary registry.
  - `compileSchema`, with its version check, vocabulary registration, meta-validation and
    `markValidated`.
  - `interpretSchema`.
  - `validate`, with its output-format check.
  - The `outputHandler` that assembles keyword results into FLAG, BASIC, DETAILED or VERBOSE output.
- **The `validate` keyword** (`lib/keywords/validate.js`): `compile` builds the AST, `interpret`
  evaluates it, and `collectEvaluatedProperties` gathers evaluated property names.
- **The instance cursor** (`lib/instance.js`), **the reference record**
  (`lib/reference.js`), **the media-type plugin registry** (`lib/media-types.js`) and
  **the small helpers** (`lib/common.js`).

Code that updates module state in place is modelled as classes:
- `Schema.Store` holds the four store tables.
- `Core.Engine` holds the keyword, vocabulary and meta-validator tables.
- `ValidateKeyword.Compiler` holds the AST being filled.
- `Output.OutputHandler` holds the result stack.
- `MediaTypes.Registry` holds the plugin table.

Each method's contract states its result and what it does to its object's state. In the
store, the registry and the output handler, the contract equates the result and the new
state with a pure function of the old state. These are the `add` walk (`Schema.AddOf`),
vocabulary registration (`Core.Register`), `compileSchema`'s first-use checks
(`Core.CheckOf`, over the keyword table, the meta-validators and the store together) and
the handler's run over the events (`Output.Run`). The properties the engine relies on are
proved as lemmas about those functions. The compiler's methods do not give the grown AST
exactly. They state that the table only grows and that every entry they add is the
finished node of the view it was compiled from (`ValidateKeyword.Witnessed`). Those views
are traced back to the compiled schema: the compiler keeps, as a ghost, the views whose
compilation began, in order. Each one after the first is a subschema that a keyword selected
for an earlier one asks to compile, and every recorded view is among them
(`ValidateKeyword.Reached`). They also state that a schema's own entry is the node its body
calls for.

The model has these modules:
- `Base`: JSON values, `Option`/`Result` and errors.
- `Common` and `Url`: URL splitting, scheme detection and a simplified resolver.
- `JsonPointer`.
- `Reference` and `Instance`.
- `MediaTypes`.
- `Schema`.
- `Output`.
- `Ast`: the compiled table and the keyword handlers.
- `ValidateKeyword` and `Core`.

Keyword handlers other than `validate` are oracles: each is a triple of functions
(`compile`, `interpret`, `collect`). The compile oracle also returns the subschemas it
compiles through `validate`, so that nested compilation is explicit.

## Model

| member | source | states |
|---|---|---|
| Common.SplitUrl | lib/common.js:13-20 | the reference part has no `#`; a URL without `#` is all reference; otherwise URL = reference + `#` + fragment |
| Common.SplitJoin | lib/common.js:13-20 | splitting `reference#fragment` (reference without `#`) gives back both parts |
| Common.IsObject | lib/common.js:1 | true exactly on values that are neither null, booleans, numbers, strings nor arrays: objects and the reference placeholder |
| Common.JsonTypeOf | lib/common.js:1-11 | succeeds exactly for the seven type names and fails with unknown-type for any other; for each name it is true exactly on the values of that type: `null` on null, `boolean` on booleans, `object` on objects (never arrays), `array` on arrays (never objects), `number` and `integer` on numbers, `string` on strings |
| Common.TypesPartition | lib/common.js:1-11 | `object` and `array` exclude each other, and every value has at least one of the type names |
| Url.GetScheme | lib/schema.js:202-205 | a non-empty scheme is a prefix followed by `://`; empty iff no `scheme://` separator occurs; the last separator is the one used |
| Url.ResolveFragmentOnly | lib/schema.js:193-200 | resolving `#fragment` keeps the base's resource and gives that fragment |
| Url.ResolveEmpty | lib/schema.js:193-200 | resolving the empty reference gives the base without its fragment |
| Url.SchemeOfFragmentExtension | lib/schema.js:193-200 | adding a fragment to an id does not turn a non-`file` id into a `file` URL |
| JsonPointer.UnescapeEscape | lib/schema.js:220-223 | unescaping an escaped reference token gives back the key |
| JsonPointer.NatToStringRoundTrip | lib/instance.js:20-21 | the decimal string of an array index parses back to that index |
| JsonPointer.SegmentsAppend | lib/schema.js:220-223 | appending a key to a pointer adds exactly that key as its last segment |
| JsonPointer.GetAppend | lib/schema.js:217 | reading an appended pointer is one child step from reading the original pointer |
| JsonPointer.AppendExtends | lib/instance.js:11-15 | an appended pointer strictly extends the original pointer |
| Reference.ConsAccessors | lib/reference.js:5-14 | `href`, `value` and `isDynamic` read back what `cons` stored, with `isDynamic` false by default; `isReference` holds iff the href is defined |
| Instance.Cons | lib/instance.js:7 | the root cursor has the empty pointer and the given id, its value is the instance, and it is consistent with its root |
| Instance.Uri | lib/instance.js:8 | the uri is the id, then `#`, then the pointer |
| Instance.ValueOfCons | lib/instance.js:9 | the value of a root cursor is the instance itself, and its uri is `id#` |
| Instance.ValueAsWrittenUnwrapsUndefinedKey | lib/instance.js:3-9 | as written, an instance with a truthy `undefined` property reads as that property's value |
| Instance.Step | lib/instance.js:11-15 | a step keeps id and root, appends the key to the pointer and takes the child value |
| Instance.StepConsistent | lib/instance.js:11-15 | stepping keeps the cursor's value equal to what its pointer denotes in the root |
| Instance.StepIndexValue | lib/instance.js:20-21 | stepping to an array index yields that item |
| Instance.ObjectKeys | lib/instance.js:17-18 | an object gives its keys in order; an array gives the decimal index strings `0` … `n-1` in order; any other value gives no key |
| Instance.Entries | lib/instance.js:17-18 | one pair per key, in key order, each with `step(key)` of the cursor, which keeps its id and root and holds the child value |
| Instance.Map | lib/instance.js:20-21 | defined exactly on arrays; item i is `fn(step(i), i)` |
| Instance.FilterFromMembers | lib/instance.js:23-25 | the filtered range holds exactly the item cursors `fn` accepts |
| Instance.FilterFromSplit | lib/instance.js:23-25 | filtering a range is filtering its two halves one after the other, so kept cursors stay in index order |
| Instance.FilterFromOne | lib/instance.js:23-25 | a single item is kept exactly when `fn` accepts its cursor |
| Instance.Filter | lib/instance.js:23-25 | defined exactly on arrays; the result is the range filter over all items, so it holds exactly the accepted item cursors, in index order |
| Instance.Reduce | lib/instance.js:27-28 | defined exactly on arrays; the result is the forward fold `FoldFrom` from the seed over every item cursor in index order; the seed on an empty array, one application on a single item |
| Instance.FoldFromItems | lib/instance.js:27-28 | the forward fold from item `i` on, started from the fold of the first `i` items, is the fold of all of them |
| Instance.ReduceSnoc | lib/instance.js:27-28 | folding one more item applies `fn` to the fold so far, that item's cursor and its index |
| Instance.Every | lib/instance.js:30-31 | true iff `fn` holds for the cursor of every key |
| Instance.Any | lib/instance.js:33-34 | true iff `fn` holds for the cursor of some key |
| MediaTypes.Find | lib/media-types.js:12-15 | finds a plugin iff its content type is registered, and returns that plugin |
| MediaTypes.Put | lib/media-types.js:6-8 | the new plugin is found under its type; other types are unchanged; the key set gains that type |
| MediaTypes.PutDistinct | lib/media-types.js:6-8 | content types stay distinct after a put |
| MediaTypes.Registry.AddPlugin | lib/media-types.js:6-8 | the table becomes `Put(old, type, plugin)`; lookups of other types are unchanged |
| MediaTypes.Registry.Parse | lib/media-types.js:10-16 | fails with "not a schema" iff no plugin is registered for the type; otherwise it is that plugin's parse |
| MediaTypes.Registry.GetContentType | lib/media-types.js:18-26 | the first plugin whose matcher accepts the path, in registration order, or `application/octet-stream` when none does |
| Output.ParseFormat | lib/core.js:14-16 | exactly FLAG, BASIC, DETAILED and VERBOSE are accepted; any other name is an unsupported-format error |
| Output.AbsorbKeepsFields | lib/core.js:32-45 | the pop loop leaves the result's keyword, locations and validity intact, and pops only a suffix of the stack |
| Output.AbsorbSplices | lib/core.js:34-45 | in every format the result's errors become the popped suffix of the stack, each entry as it is spliced (under BASIC followed by its own errors), in stack order, in front of the errors the result had |
| Output.MovedAllOutsideBasic | lib/core.js:37-40 | outside BASIC a popped entry is spliced in as itself |
| Output.AbsorbKeepsOrder | lib/core.js:34-41 | outside BASIC, the popped entries go in front of the result's errors in their stack order: nothing is lost or reordered |
| Output.AbsorbPopsOnlyChildren | lib/core.js:34-45 | every popped entry is a child of the result it joins |
| Output.AbsorbStopsAtNonChild | lib/core.js:34-45 | popping ends at the bottom of the stack, at an entry that is no child of the result, or at a reference result |
| Output.AbsorbPopsChildren | lib/core.js:34-59 | only children of the result are popped; a reference result pops at most one entry; popping stops at a non-child |
| Output.AbsorbBasicFlat | lib/core.js:37-40 | under BASIC the result's errors carry no nested errors |
| Output.BasicIsOneLevel | lib/core.js:29-53 | every BASIC output and stack entry is one level deep |
| Output.FlagHasNoErrors | lib/core.js:47-48 | under FLAG nothing is kept on the stack and the output has no errors |
| Output.AbsorbInvalid | lib/core.js:47-48 | errors gathered under a result are failures all the way down |
| Output.FailuresOnly | lib/core.js:29-53 | outside VERBOSE the stack and the output's error tree hold only invalid results |
| Output.OutputIsLast | lib/core.js:51 | the output is the last result received, with its keyword, locations and validity |
| Output.OutputHandler.Receive | lib/core.js:32-52 | the handler's new stack and output are `Handle` of the old ones and the result |
| Output.Deliver | lib/core.js:18-23 | a fresh handler fed the whole event stream returns the output `Run` specifies |
| Schema.GetConfig | lib/schema.js:23-28 | an aliased dialect reads the setting of the dialect it aliases; a dialect without an alias reads its own; a missing dialect or key gives `undefined` (`None`); any value returned is some dialect's setting |
| Schema.Store.SetConfig | lib/schema.js:16-21 | sets one key of one dialect's configuration; other keys and tables are unchanged |
| Schema.SafeResolveUrl | lib/schema.js:193-200 | fails iff a `file` URL is reached from a non-empty context whose scheme is not `file`; otherwise it is the resolved URL |
| Schema.SafeResolveEmptyContext | lib/schema.js:193-200 | from an empty context, resolution always succeeds |
| Schema.SafeResolveFragment | lib/schema.js:193-200 | a fragment reference from a fragment-free id succeeds and stays in that id |
| Schema.DeclaredVersion | lib/schema.js:38 | a non-empty string `$schema` without its fragment, otherwise the default without its fragment; never contains `#` |
| Schema.IdentifierOf | lib/schema.js:44-54 | fails iff neither the URL nor the body id gives a resource; otherwise the external id is the URL without fragment, and the stored id is the body id resolved against it |
| Schema.IdentifierWithoutBodyId | lib/schema.js:44-54 | without a body id, both ids are the URL without fragment |
| Schema.IdentifierOfFragmentsOnly | lib/schema.js:44-54 | fragment-only URL and id give an undetermined identifier |
| Schema.IdStep | lib/schema.js:87-101 | without a string id the node is kept untouched; the node is an embedded resource exactly when its id resolves to a resource other than the current one, carrying the original reference, the resolved target and the node without its id keyword; a kept node whose id resolves stays in the current resource; a kept node has no anchor fields yet |
| Schema.CombinedIdStep | lib/schema.js:87-101 | under a combined id/anchor keyword, a fragment-only id stays in the resource and is rewritten as `#fragment` |
| Schema.AnchorStep | lib/schema.js:117-121 | the anchor keyword is removed; an anchor is recorded iff the node declares one |
| Schema.NodeStepConsumesKeywords | lib/schema.js:87-121 | a kept node no longer carries its id or anchor keywords |
| Schema.RecursiveAnchorKeepsString | lib/schema.js:103-114 | outside the string style, the recursive-anchor step leaves a string-valued keyword in place |
| Schema.CombinedIdAnchor | lib/schema.js:93-95 | when id and anchor share a keyword, `#name` records anchor `name` |
| Schema.SeparateAnchor | lib/schema.js:117-121 | a separate anchor keyword records its value |
| Schema.WithoutKey | lib/schema.js:42 | deleting a key removes only that key and never grows the value |
| Schema.VocabularyOf | lib/schema.js:55-66 | a declared `$vocabulary` is taken and removed when the dialect reads vocabularies; otherwise the schema is untouched and the vocabulary is the dialect itself for its own meta-schema, empty for any other schema |
| Schema.Store.Add | lib/schema.js:34-80 | the new store tables and the result are exactly `AddOf` of the old tables |
| Schema.AddIdent | lib/schema.js:34-51 | `null` fails as a null schema; otherwise an undetermined dialect fails as such; a settled stored id has no fragment |
| Schema.AddOf | lib/schema.js:34-80 | `null`, an undetermined dialect or an undetermined identifier fails and changes nothing; otherwise the external id is aliased; on success the stored id has an unvalidated record with that dialect and the alias points at a stored resource; tables only grow, every changed alias points at a stored resource, and resources stay under their own ids |
| Schema.AddKeepsAliasesWithin | lib/schema.js:34-80 | a successful add makes no alias dangle that did not dangle before |
| Schema.AddAliasStored | lib/schema.js:52-54 | after a successful add under a URL, the store has that URL and reads back the resource it aliases |
| Schema.AddThenGet | lib/schema.js:34-80 | after a successful add under a URL with a scheme, getting that URL gives the root view of the resource it aliases, whose uri is `id#` |
| Schema.AddWithoutEmbedded | lib/schema.js:34-133 | a schema with no embedded resource is added successfully: the URL becomes an alias of exactly its id, the resources gain exactly that id, and no other alias changes |
| Schema.AddResourceWithoutEmbedded | lib/schema.js:55-79 | a body with no embedded resource is stored: the resources gain exactly its id and the aliases do not change |
| Schema.WalkWithoutEmbedded | lib/schema.js:82-133 | a walk that meets no embedded resource succeeds and leaves the store tables unchanged |
| Schema.AddAsWritten | lib/schema.js:34-83 | as written, `add` fails once the alias is recorded, with resources and configuration unchanged |
| Schema.AddAsWrittenLeavesDanglingAlias | lib/schema.js:52-58 | as written, a new URL is left aliased to an id that was never stored: the store reports the URL present but reading it fails |
| Schema.GetAsWritten | lib/schema.js:179-180 | as written, every `get` fails, and one whose view is built fails at the reference test |
| Schema.Store.AddResource | lib/schema.js:55-79 | the new store tables and the result are exactly `AddResourceOf` of the old tables |
| Schema.AddResourceOf | lib/schema.js:55-79 | on success the record under the id has that id and dialect, is unvalidated, holds the vocabulary `VocabularyOf` gives, has every anchor inside the resource and every recursive anchor naming it; tables only grow and changed aliases point at stored resources |
| Schema.AddResourceScalar | lib/schema.js:71-79 | a body that is neither object nor array is stored as it is, with no anchors, and nothing else changes |
| Schema.Store.ProcessSchema | lib/schema.js:82-133 | the new store tables and the result are exactly `WalkOf` of the old tables |
| Schema.WalkOf | lib/schema.js:82-133 | scalars come back unchanged with the tables; a reference placeholder becomes an empty object; strings stay strings; arrays keep their length; objects take the id/anchor/recursive-anchor outcome, and an embedded resource is stored under its own id; anchor tables only grow, and only below the pointer or for this resource |
| Schema.WalkObjectOf | lib/schema.js:83-127 | an object takes the outcome its node step calls for; an embedded resource is stored under its own id; anchor tables only grow, and only below the pointer or for this resource |
| Schema.EmbedOf | lib/schema.js:97-100 | an embedded subschema is added under its resolved target and the node becomes a placeholder for the original reference; the added resource is stored under its own id |
| Schema.KeepOf | lib/schema.js:103-127 | a node that stays keeps its keys, loses its id and anchor keywords, records its anchor at the pointer and its recursive anchor for the resource |
| Schema.KeptOutcome | lib/schema.js:117-127 | once a kept node's entries are walked, it has the outcome promised for it and its anchors only grew |
| Schema.Store.ProcessEntries | lib/schema.js:123-127 | the new store tables and the result are exactly `WalkEntriesOf` of the old tables |
| Schema.WalkEntriesOf | lib/schema.js:123-127 | the entries walked before stay as they are; every later entry keeps its key, and string values stay strings; anchor tables only grow |
| Schema.Store.ProcessItems | lib/schema.js:128-129 | the new store tables and the result are exactly `WalkItemsOf` of the old tables |
| Schema.WalkItemsOf | lib/schema.js:128-129 | one processed item per array item, the items before kept; anchor tables only grow, and only below the pointer or for this resource |
| Schema.HasStoredSchema | lib/schema.js:135 | every id `getStoredSchema` can read is known; a known id can be read while no alias dangles; an unknown id is neither a resource nor an alias |
| Schema.GetStoredSchema | lib/schema.js:135-136 | a resource is found through its alias, or under its own id; otherwise the lookup fails |
| Schema.GetStoredSchemaAsWrittenMisreads | lib/schema.js:136 | as written, a non-alias id reads the resource stored under `undefined` |
| Schema.GetStoredSchemaAgrees | lib/schema.js:136 | while no resource is named `undefined`, the written lookup equals the intended one |
| Schema.Store.MarkValidated | lib/schema.js:138-140 | marks exactly that stored resource validated; fails without changes when it is not stored |
| Schema.Uri | lib/schema.js:216 | splitting a view's uri gives back its id and pointer |
| Schema.GetAnchorPointer | lib/schema.js:207-213 | succeeds iff the anchor is recorded, with its pointer; otherwise an anchor-not-found error |
| Schema.Value | lib/schema.js:217 | a view without a schema denotes `undefined`, and the root pointer denotes the whole schema |
| Schema.ViewAt | lib/schema.js:145-176 | fails as the resolution fails; otherwise the view carries the stored record's id, dialect, schema and validated flag, a pointer fragment is its pointer, and it keeps every recursive anchor of its context |
| Schema.ViewAtOverlay | lib/schema.js:174 | the view's recursive anchors are the stored ones overlaid by the context's |
| Schema.ViewAtAnchor | lib/schema.js:172 | a plain-name fragment resolves to its anchor's pointer, or fails with anchor-not-found |
| Schema.GetNotStored | lib/schema.js:147-165 | getting a resource that is not stored fails with a retrieval error for it |
| Schema.Get | lib/schema.js:145-191 | a successful get ends at a view that is no reference and keeps the context's recursive anchors |
| Schema.Chase | lib/schema.js:178-190 | a view that is no reference is the result; a reference with no fuel left fails as too long; otherwise the result is the get of the reference in the view; a success ends at a non-reference and keeps the view's recursive anchors |
| Schema.GetNotReference | lib/schema.js:145-191 | a URL whose view is no reference is got as that view |
| Schema.GetFollowsReference | lib/schema.js:178-187 | a URL whose view is a reference is got as the reference's target resolved in that view |
| Schema.GetByAlias | lib/schema.js:145-176 | getting the URL a resource was added under gives its root view, whose uri is `id#` |
| Schema.RecursiveRefUsesAnchor | lib/schema.js:145-190 | a `$recursiveRef` is followed recursively, resolved against the recorded recursive anchor |
| Schema.StepTarget | lib/schema.js:220-223 | a step resolves to the same resource at the appended pointer |
| Schema.All | lib/schema.js:225-230 | succeeds iff every keyed result does, pairing keys with values in order; a failure is one of the results' failures |
| Schema.KeysOf | lib/schema.js:225-227 | `undefined` and `null` have no keys to take (an error); an object gives its keys, an array its index strings, any other value none |
| Schema.Entries | lib/schema.js:225-230 | fails exactly when the keys cannot be taken or a step fails; otherwise one entry per key, in order, each the step to that key |
| ValidateKeyword.Selected | lib/keywords/validate.js:17-22 | keeps exactly the entries whose dialect-qualified id has a handler and is not `validate`, qualifying their keys |
| ValidateKeyword.SelectedConcat | lib/keywords/validate.js:17-22 | selection distributes over concatenation, so schema key order is kept |
| ValidateKeyword.ChildrenOf | lib/keywords/validate.js:23-27 | one AST triple per selected keyword, with its id and its schema's uri |
| ValidateKeyword.BodyFrom | lib/keywords/validate.js:12-29 | a boolean schema's body is its value; otherwise it is the children of the selected keywords, and it fails exactly when the keyword entries cannot be got |
| ValidateKeyword.BodyOf | lib/keywords/validate.js:13-29 | the body is computed iff the keyword entries can be got |
| ValidateKeyword.Compiler.Compile | lib/keywords/validate.js:8-32 | an already-present uri changes nothing; on success the uri holds its `validate` node, and every subschema a child compiles is present; a failing entry lookup leaves the placeholder; a uri outside the reachable set fails with a retrieval error and changes nothing; the table only grows, and every entry added is the node of the view recorded for it; the compilation of a new uri is begun on the trail, from the root or from a subschema of a view begun before, and every recorded view is on the trail |
| ValidateKeyword.Compiler.CompileNew | lib/keywords/validate.js:11-30 | a placeholder goes in first; on success the uri holds the node its body calls for, and every entry added is witnessed; a failing entry lookup leaves the placeholder; every subschema begun on the way is asked for by a keyword of a view already begun |
| ValidateKeyword.Compiler.CompileBody | lib/keywords/validate.js:12-29 | a boolean schema's node holds its value; otherwise the node's children are the compiled selected keywords, with every subschema present; the table only grows |
| ValidateKeyword.NodePlaced | lib/keywords/validate.js:13-30 | replacing the placeholder by the finished node keeps every earlier entry and witnesses the new one |
| ValidateKeyword.WitnessedChain | lib/keywords/validate.js:23-28 | two stretches of compilation whose added entries are witnessed make one |
| ValidateKeyword.TracedSnoc | lib/keywords/validate.js:23-25 | beginning the compilation of a subschema that a keyword of a view already begun asks for keeps every begun view traced to an earlier one |
| ValidateKeyword.SubschemasOfEntry | lib/keywords/validate.js:22-25 | every subschema a selected keyword's `compile` asks for is a subschema of the view whose keywords were selected |
| ValidateKeyword.Compiler.CompileChildren | lib/keywords/validate.js:23-28 | compiles the selected keywords into exactly `ChildrenOf`, with all their subschemas present |
| ValidateKeyword.Compiler.CompileEntry | lib/keywords/validate.js:23-27 | compiles one selected keyword into exactly its `ChildOf` triple, with its subschemas present; the table only grows |
| ValidateKeyword.Compiler.CompileAll | lib/keywords/validate.js:25 | every given subschema is compiled into the table |
| ValidateKeyword.Compiler.CompileView | lib/keywords/validate.js:25 | a compiled subschema is present, and everything added is finished |
| ValidateKeyword.CompileInto | lib/core.js:119-120 | a uri outside the reachable set fails with a retrieval error; on success the uri is in the grown table, and every added entry is the node compiled from the view recorded under its uri, with that view's keyword selection; the recorded views are all on the trail, which starts at the schema and in which every later view is a subschema asked for by a keyword selected for an earlier one; a uri not compiled before gets the node its body calls for, with every subschema present; an already-compiled uri changes nothing |
| ValidateKeyword.EvalChild | lib/keywords/validate.js:38-47 | an unknown keyword fails; a keyword's evaluation ends with its own result event |
| ValidateKeyword.EvalChildren | lib/keywords/validate.js:37-48 | valid iff every child passes |
| ValidateKeyword.EvalChildrenLast | lib/keywords/validate.js:37-48 | the last event is that of the first failing child, or of the last child |
| ValidateKeyword.EvalStopsAtFailure | lib/keywords/validate.js:37-48 | evaluation stops at the first failing child |
| ValidateKeyword.Interpret | lib/keywords/validate.js:34-57 | an uncompiled uri fails; the last event is the node's own verdict; a boolean node gives its value with one event; an object node is valid iff all its keywords pass |
| ValidateKeyword.Gather | lib/keywords/validate.js:68-71 | names are concatenated in order while every keyword yields some; a `false` from any keyword makes the whole result `false` |
| ValidateKeyword.GatherAbsorbs | lib/keywords/validate.js:68-71 | once a keyword yields `false`, the result is `false` |
| ValidateKeyword.Considered | lib/keywords/validate.js:67 | at top level drops exactly the `unevaluatedProperties` keywords; elsewhere keeps all |
| ValidateKeyword.ConsideredConcat | lib/keywords/validate.js:67 | the filter distributes over concatenation, so keyword order is kept |
| ValidateKeyword.ConsideredOne | lib/keywords/validate.js:67 | a single keyword is kept exactly when it is not a top-level `unevaluatedProperties` |
| ValidateKeyword.CollectEvaluatedProperties | lib/keywords/validate.js:59-72 | `true` gives no names, `false` gives `false`; otherwise the names of the considered keywords |
| Core.Engine.GetKeyword | lib/core.js:67-69 | a handler is found iff one is registered |
| Core.Engine.AddKeyword | lib/core.js:70-72 | registers the handler under the id; other ids are unchanged |
| Core.Engine.AddVocabulary | lib/core.js:74-77 | records the vocabulary under its id; nothing else changes |
| Core.Engine.SetMetaOutputFormat | lib/core.js:63-65 | keeps any string as the meta-validation output format, and changes nothing else |
| Core.AddAll | lib/core.js:96-100 | adds `version#keyword` for each keyword; other ids are unchanged; a later duplicate wins |
| Core.Engine.RegisterVocabulary | lib/core.js:96-100 | the keyword table becomes `AddAll` of the old one |
| Core.Register | lib/core.js:93-104 | succeeds iff every declared vocabulary is known or optional; otherwise fails naming the first required unknown one |
| Core.RegisterComplete | lib/core.js:94-104 | after a successful registration every keyword of every known declared vocabulary is registered |
| Core.Engine.RegisterDeclared | lib/core.js:94-104 | the loop leaves the keywords and the failure that `Register` specifies |
| Core.MarkOf | lib/core.js:115 | marks exactly the stored resource validated; an id that is not stored fails and changes nothing |
| Core.MetaCheckOf | lib/core.js:109-113 | a meta output format outside the four fails with unsupported-format; a schema the meta-validator rejects fails as invalid; both change nothing; a valid schema is marked |
| Core.BuildOf | lib/core.js:91-107 | a meta-schema that cannot be got fails and changes nothing; otherwise the keyword table is `Register`'s, and the dialect's validator is recorded exactly when no required vocabulary is missing; the store is unchanged (the meta-schema's own compilation by the nested `validate` is not modelled, see Left out) |
| Core.Engine.BuildMetaValidator | lib/core.js:91-107 | the result and the new engine state are exactly `BuildOf` of the old state |
| Core.CheckOf | lib/core.js:81-117 | an unknown dialect fails with unsupported-version and changes nothing; success holds exactly when the dialect is known, the schema is stored and, where meta-validation applies, the meta-validator exists or is built, the meta format is supported and the schema passes; on success the store is the old one with the schema's resource marked validated, and on failure the store is unchanged; the meta-schema's own marking and compilation by the nested `validate` are not modelled (Left out) |
| Core.CheckOfKeywords | lib/core.js:91-104 | the keyword table afterwards has the meta-schema's vocabularies registered exactly when the dialect is met for the first time and its meta-schema can be got |
| Core.CheckOfMetaValidators | lib/core.js:106 | the meta-validators gain the dialect exactly when its vocabularies were registered with none missing; a failing compilation of the meta-schema is not modelled (Left out) |
| Core.CheckRegisters | lib/core.js:93-104 | once a first-met dialect passes the checks, every keyword of every known vocabulary its meta-schema declares is registered under it |
| Core.Engine.CheckSchema | lib/core.js:81-117 | the result and the new keyword table, meta-validators and store are exactly `CheckOf` of the old ones; vocabularies and the meta format are unchanged |
| Core.Engine.CompileSchema | lib/core.js:80-122 | the new engine state is the old one for a validated schema and `CheckOf`'s otherwise; a failing check is the result; on success under `validate` every added AST entry is the node of the view recorded for it, every recorded view is reached from the schema through the keywords' subschemas, and a schema not compiled before has its node; another root handler leaves the AST as it was |
| Core.InterpretSchema | lib/core.js:132-135 | an uncompiled uri fails; otherwise it dispatches to the node's keyword handler (`validate` for schema nodes) |
| Core.ValidateVerdict | lib/core.js:20-23 | the output of a run is the root node's verdict, at the root keyword and locations |
| Core.Engine.Validate | lib/core.js:10-27 | the new engine state is `compileSchema`'s; an unsupported format fails before any event; on success under `validate` the AST holds the schema's node and every entry is the node of the view recorded for it, each such view being reached from the schema through the keywords' subschemas; the events are exactly those of interpreting the schema's uri over that AST, the output is the handler's run over them, and under `validate` its validity is the interpretation's verdict |

## Left out

- Fetching (`lib/schema.js:150-165`) and media-type parsing of responses are network I/O. A `get` of a
  resource that is not stored fails with `RetrievalFailed`. `MediaTypes.Registry.Parse` dispatches to
  the plugin's `parse`, which is an oracle, and the content-type header parsing is taken as already done.
- Schema.Get: references are followed at most `fuel` times (`ReferenceChainTooLong`), because the engine
  follows `$ref` cycles without bound.
- ValidateKeyword.Compiler.Compile: a uri outside the compiler's `universe` fails with `RetrievalFailed`.
  The universe is the finite set of schema views a compilation can reach, and termination is argued over it.
- Keyword handlers other than `validate` are oracles; their semantics are not part of this model.
- `validate(metaSchema)` at `lib/core.js:106` (building the meta-validator) is the oracle `metaCheck`.
  A failing meta-validation (`throw metaResults`) is the error `InvalidSchema`.
- Core.CheckOf: `validate(metaSchema)` at `lib/core.js:106` runs `compileSchema` on the meta-schema
  (`lib/core.js:10-12`). That marks the meta-schema validated (`lib/core.js:116`) and compiles it
  (`lib/core.js:120`), which can throw and leave the dialect without a validator. Neither effect is
  modelled: the meta-schema's validated flag stays as it was, and the validator is recorded whenever
  the vocabularies register. Modelling them would make the first-use check recursive in the dialect.
- Core.BuildOf: the same two effects of `validate(metaSchema)` are left out; the store is unchanged.
- Core.CheckOfMetaValidators: the dialect's validator is recorded without the meta-schema's compilation
  having to succeed, for the same reason.
- Core.Engine.Validate: the curried form returned when no instance is given (`lib/core.js:26`) is not
  modelled; the instance is always supplied. PubSub is replaced by the explicit event sequence each
  interpreter returns.
- Core.Engine.CompileSchema: a root keyword handler other than `validate` is not asked to compile
  (`lib/core.js:120` calls its `compile`, which is an oracle here); the AST is returned unchanged.
- ValidateKeyword.Compiler.Compile: the grown AST is not equated with a function of the old one; the
  contract states that it only grows, that each entry added is the node of the view recorded for it,
  that each recorded view is reached from the compiled schema through the keywords' subschemas, and
  which node the compiled schema gets.
- Core.Engine.CompileSchema: `getSchemaVocabulary` reads `#/$vocabulary`, which `add` deletes from
  stored resources, so it sees only what the store holds. A `validate` handler registered under a
  non-`validate` id interprets and collects as `NotCompiled("undefined")`. A custom root keyword gets
  `JStr(uri)` as its AST.
- Concurrency: `Pact` pipelines run their steps concurrently; the model runs them in order, and the
  first failing step's error is the one reported.
- `encodeURI`/`decodeURI` are the identity. URL resolution (`url-resolve`) is a simplified RFC 3986
  resolver (`Url.Resolve`) without dot-segment removal.
- JSON objects keep insertion order; JavaScript's ordering of integer-like keys first is not modelled.
  The JSON deep copy in `add` is the identity on the modelled values, except on the reference
  placeholder `JRef`: its only key is a symbol, which the copy drops, leaving `{}`. No placeholder reaches
  the copy: only the walk creates them, and the nested `add` it makes gets the embedded subschema
  before it is walked.
- Numbers are integers: `number` and `integer` agree. Floating point is not modelled.
- A non-string `$schema` or id value is treated as absent.
- The first arm of the conditional at `lib/schema.js:94` cannot be taken, because the enclosing test
  already requires the id and anchor keywords to be the same. Only the reachable arm (`#fragment`) is
  modelled.
- Schema.AddOf: the value of the alias `add` records is stated only for schemas without embedded
  resources (`AddWithoutEmbedded`). A nested `add` of an embedded resource can overwrite it, for example
  when the embedded resource's id resolves to the outer URL. In general only that the alias points at a
  stored resource is stated.
- `Schema.has` and `Schema.map` are outside the modelled core.
- Instance.Step: stepping into `null` or `undefined` throws in the engine (`lib/instance.js:14`); here it
  gives an undefined child. Stepping into a string by an index gives no child, where the engine gives
  that character.
- Instance.ObjectKeys: a string has no keys here, where the engine lists its character indices; `null`
  and `undefined`, for which the engine throws, also give no keys.
- Schema.KeysOf: a string has no keys here, where the engine lists its character indices and steps into
  a view of each character; stepping into strings is not modelled.

## Findings

| source | as written | input that shows it | evidently intended | confidence | as-written member | corrected member |
|---|---|---|---|---|---|---|
| lib/instance.js:3-9 | `value(doc)` unwraps `doc.value[internalValue]`, but `internalValue` is not exported by the helper it is imported from, so the key read is the property named `undefined` | the instance `{"undefined": 1}` reads as `1` | the value under the cursor, unchanged | medium, not executed | Instance.ValueAsWrittenUnwrapsUndefinedKey | Instance.ValueOfCons |
| lib/schema.js:136 | `getStoredSchema(id)` reads `schemaStore[schemaStoreAlias[id]]` first, so an id without an alias reads the resource stored under `undefined` | stored resources `a` at `http://example.com/a` and `b` at `undefined`; getting `http://example.com/a` gives `b` | the aliased resource, otherwise the resource under the id itself | low, not executed | Schema.GetStoredSchemaAsWrittenMisreads | Schema.GetStoredSchema |
| lib/schema.js:6 | `isObject` is imported from the helper module, which exports only `jsonTypeOf` and `splitUrl` (lib/common.js:22), so each call of `isObject` in `add`, `processSchema` and `get` calls `undefined` and throws a TypeError | `add({"$schema": "https://json-schema.org/draft/2019-09/schema"}, "http://example.com/s")` records the alias `http://example.com/s` at lib/schema.js:53, then throws at lib/schema.js:58 or :83 before anything is stored; the store then reports `http://example.com/s` present, but reading it fails | `isObject` is the helper defined at lib/common.js:1; `add` stores the resource the alias names, and `get` follows references | high, not executed | Schema.AddAsWrittenLeavesDanglingAlias | Schema.AddAliasStored |
