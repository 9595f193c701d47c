# ts-cli-creator, modelled in Dafny

ts-cli-creator reads a TypeScript entry file and generates a yargs
command-line wrapper for it. This project models the part that goes from a
declaration to the generated program:

- **Resolver** picks the command function: an exported function, with a
  default export ranked first and a function tagged `@command` second.
- **Transformer** turns that function into a `TransformResult`:
  - each ordinary parameter becomes a `positional(name, { … })` call;
  - the trailing `option`/`options` interface parameter becomes one
    `option(name, { … })` call per property;
  - the JSDoc blocks supply the descriptions and the `@alias`,
    `@default` and `@demandOption` tags;
  - every enum the calls refer to is recorded in a module reference table,
    and the transform fails when two declarations would be imported under
    the same name.
- **Render** assembles the program around that result:
  - two imports;
  - a default-exported `main`;
  - a `lib.strict().command(usage, description, builder, handler)…argv`
    chain.
- The older pipeline is modelled too:
  - `generator.ts`, the `@command`/default-export selector;
  - `generate.ts`, the fixed `yargs.strict()….argv` program;
  - `transform-option.ts` and `transform-interface-to-yargs-option.ts`, the
    string-valued option converters, with the `TypeError`s they throw: on a
    commented tag after an uncommented one, and on a tag named
    `hasOwnProperty`, whose string value hides the method that rendering calls.

How the model is built:

- TypeScript syntax trees are Dafny datatypes: `Model` holds the
  declarations that ts-morph exposes, and `Ast` the nodes that the code
  builds.
- An object built up key by key is an association list. `Base.Put`
  overwrites a key in place or appends a new one, as a JavaScript object
  keeps its insertion order.
- Where the source changes an array or an accumulator step by step, the
  model is a `method` with a loop. Each such method is proved equal to a
  function, and lemmas state what that function means:
  - the `reduce` calls of `makeOptionsProperties` and `makeCommandProperties`;
  - the `pop`/`push` of `getParams`;
  - the in-place `reverse` of `generateCallableChain`;
  - the in-place `sort` of `getFunctionDeclaration`;
  - the `forEach` loops of the reference table.
- `undefined` and `null` are kept apart (`Base.Maybe`): one bug below turns
  on the difference.

## Model

| member | source | states |
|---|---|---|
| Transformer.GetJSDoc | src/transformer.ts:467-472 | the last JSDoc block, or `undefined` exactly when there is none (never `null`) |
| Transformer.GetJSDocTags | src/transformer.ts:476-485 | no block gives no tags; otherwise the tags of the block that pass the name or predicate test, in order |
| TransformerLemmas.FilterSound | src/transformer.ts:476-485 | the kept tags are tags of the block and pass the test, and there are no more of them than tags |
| TransformerLemmas.FilterEmpty | src/transformer.ts:476-485 | nothing is kept exactly when no tag passes the test |
| TransformerLemmas.FilterAppend | src/transformer.ts:476-485 | filtering works piecewise over a concatenation, so the tags keep their order |
| TransformerLemmas.FilterKeeps | src/transformer.ts:476-485 | every tag that passes the test is kept |
| Transformer.GetJSDocTag | src/transformer.ts:491-496 | the tag at the index of the filtered tags, counting from the end for a negative index; `undefined` exactly when the index is out of range |
| TransformerLemmas.GetJSDocTagEnds | src/transformer.ts:491-496 | index 0 is the first matching tag and index -1 the last, or `undefined` when nothing matches |
| TransformerLemmas.GetJSDocTagAbsent | src/transformer.ts:476-496 | with no JSDoc block there are no tags, and every index gives `undefined` |
| Transformer.ExportTypeOf | src/transformer.ts:406-410 | Default exactly for a default export, Named exactly for another exported declaration, otherwise the "not exported" error naming the declaration |
| Transformer.ExtName | src/transformer.ts:398-404 | what `path.extname` reports for a file name is empty or a proper suffix of the name that starts with its only dot |
| TransformerLemmas.ExtNameNonEmpty | src/transformer.ts:398-404 | a file name has an extension exactly when it is not `..` and has a dot after its first character |
| TransformerLemmas.ExtNameLastDot | src/transformer.ts:398-404 | a non-empty extension runs from the last dot of the name to its end |
| Transformer.LastIndexOf | src/transformer.ts:398-404 | the position of the last occurrence of the character |
| Transformer.StripExtension | src/transformer.ts:398-404 | the base name minus its extension, so that appending the extension gives the base name back |
| Transformer.DefaultName | src/transformer.ts:398-404 | the declared name when there is one, otherwise the file's base name without its extension |
| TransformerLemmas.StripExtensionSpec | src/transformer.ts:398-404 | for every file name, the fallback is the part before the last dot, or the whole name when that dot is the first character, when there is no dot after the first character, or when the name is `..` |
| TransformerLemmas.StripExtensionIndex | src/transformer.ts:398-404 | the file-name fallback of `index.ts` is `index` |
| TransformerLemmas.StripExtensionLast | src/transformer.ts:398-404 | only the last extension is removed (`a.b.ts` gives `a.b`) |
| TransformerLemmas.StripExtensionDotFile | src/transformer.ts:398-404 | a dot file (`.eslintrc`) is kept whole |
| TransformerLemmas.StripExtensionNoDot | src/transformer.ts:398-404 | a name without a dot (`Makefile`) is kept whole |
| Transformer.MakeEnumMembersArrayNode | src/transformer.ts:449-465 | the loop over the members computes `EnumChoices`: the array of `Enum.member` accesses, or the first member's error |
| TransformerLemmas.EnumChoicesFromSpec | src/transformer.ts:449-465 | the fold succeeds exactly when every member has a string value; it then appends one `Name.member` per member, in order; otherwise it fails with the error of the first member that has no value or a non-string value |
| TransformerLemmas.EnumChoicesSpec | src/transformer.ts:449-465 | the choices array holds exactly one `Name.member` access per member, in order, or the error of the first bad member |
| TransformerLemmas.OptionTypeMapping | src/transformer.ts:98-127 | a primitive option type gives `{ type: "<name>" }` with no reference; an array of a non-primitive fails with the element-type error; `any`, interfaces and other types fail with the options-type error |
| TransformerLemmas.OptionArrayType | src/transformer.ts:98-127 | an array of a primitive gives `{ type: "<element>", array: true }` |
| TransformerLemmas.EnumLiteralChoices | src/transformer.ts:98-127 | an enum member type reads like its whole enum, and an enum gives `{ choices: […] }` with the enum's choices array |
| TransformerLemmas.OptionsTypeKeys | src/transformer.ts:98-127 | a successful type expression has exactly the keys `type`, or `type` and `array`, or `choices` |
| TransformerLemmas.PositionalTypeMapping | src/transformer.ts:274-301 | a primitive positional gives `{ type: "<name>" }` without warnings; a successful enum gives only `choices`; arrays, interfaces and other types fail with the positional-type error |
| TransformerLemmas.PositionalAgainstOption | src/transformer.ts:274-301 | a positional has the option mapping except for `any` (a `string` with a warning instead of the options error) and arrays (always an error for a positional) |
| TransformerLemmas.CommandTypeKeys | src/transformer.ts:274-301 | a successful positional type expression has the same three key shapes |
| TransformerLemmas.OptionsDescriptionSpec | src/transformer.ts:129-135 | `description` is present exactly when the interface's last block has a comment, and it is that comment trimmed |
| TransformerLemmas.CommandDescriptionSpec | src/transformer.ts:307-316 | `description` is present exactly when the parameter's tag has a comment; the text is the trimmed comment, and when that starts with `-` the dash is dropped and the rest trimmed again |
| TransformerLemmas.CommandDescriptionUntrimmed | src/transformer.ts:198-204 | the command description is the last block's comment as written, or the empty string |
| Transformer.MakeOptionJSDocTagExpression | src/transformer.ts:137-174 | the reduce over the last block's tags computes `OptionTags` |
| TransformerLemmas.OptionTagsSupported | src/transformer.ts:137-174 | when the tags are read successfully, every tag is one of `alias`, `default` and a demand tag |
| TransformerLemmas.UnsupportedTagFails | src/transformer.ts:137-174 | any other tag in the last block makes the option fail |
| TransformerLemmas.OptionTagsAlias | src/transformer.ts:137-174 | `alias` is the comment of the last `@alias` tag, or the earlier value |
| TransformerLemmas.OptionTagsDefault | src/transformer.ts:137-174 | `default` is the parsed expression of the last `@default` comment, and that comment parses |
| TransformerLemmas.OptionTagsDemand | src/transformer.ts:137-174 | `demandOption: true` is present exactly when a demand tag appears |
| TransformerLemmas.OptionTagsKeys | src/transformer.ts:137-174 | the tag object has no key twice and no key besides `alias`, `default` and `demandOption` |
| Assembly.OptionTagsUnique | src/transformer.ts:137-174 | the same, for the tags of a declaration's last block |
| Assembly.TypeKeysUnique | src/transformer.ts:98-127 | a type expression's keys are distinct |
| Assembly.OptionPropertiesConcat | src/transformer.ts:61-96 | `{ ...typeExpr, ...descExpr, ...tagExpr }` overwrites no key, so it is the concatenation of the three |
| Assembly.PositionalPropertiesConcat | src/transformer.ts:241-272 | `{ ...typeExpr, ...descExpr }` is the concatenation of the two |
| Transformer.MakeOptionsProperties | src/transformer.ts:61-96 | the reduce over the properties, which pushes results and references, computes `OptionsProperties` |
| Assembly.OptionsPropertiesFromSpec | src/transformer.ts:61-96 | on success the fold appends one result per property, in order, each holding the property's type, the interface's description and its tags |
| Assembly.OptionsPropertiesFromSucceeds | src/transformer.ts:61-96 | the fold succeeds exactly when every property's configuration can be built |
| Assembly.OptionsPropertiesSpec | src/transformer.ts:61-96 | `makeOptionsProperties` succeeds exactly when every property converts, and gives one result per property, in order |
| Assembly.EmptyInterfaceIgnoresTags | src/transformer.ts:53-96 | an interface without properties yields no calls and no references, whatever its JSDoc says |
| Assembly.TransformOptionSpec | src/transformer.ts:53-59 | `transformOption` gives one `option("<name>", { … })` call per property, in order |
| Transformer.MakeCommandProperties | src/transformer.ts:241-272 | the reduce over the positional parameters computes `CommandProperties` |
| Assembly.CommandPropertiesFromResults | src/transformer.ts:241-272 | on success the fold appends one result per parameter, in order, each the parameter's name with its positional configuration |
| Assembly.CommandPropertiesFromWarnings | src/transformer.ts:241-272 | on success the fold appends one `any` warning for each parameter typed `any`, in order |
| Assembly.CommandPropertiesFromSpec | src/transformer.ts:241-272 | on success the fold appends one result per parameter, in order, and one `any` warning for each parameter typed `any` |
| Assembly.CommandPropertiesFromSucceeds | src/transformer.ts:241-272 | the fold succeeds exactly when every parameter's configuration can be built |
| Assembly.CommandPositionalsSpec | src/transformer.ts:230-239 | `makeCommandPositionals` succeeds exactly when every parameter converts, and gives one `positional("<name>", { … })` per parameter, in order |
| Transformer.MakeObjectLiteralNode | src/transformer.ts:377-392 | one property assignment per key, in insertion order |
| Transformer.SplitParams | src/transformer.ts:206-217 | the last parameter is the options bag exactly when its name is `option` or `options`; it is then removed, and otherwise every parameter is positional, in order |
| Transformer.GetParams | src/transformer.ts:206-217 | the `pop`/`push` over the parameter array gives exactly `SplitParams` |
| Transformer.OptionsInterfaceDecl | src/transformer.ts:219-228 | succeeds exactly when the options parameter is typed by an interface, which it returns; otherwise fails with "Only Interface supports" |
| Transformer.ConflictLines | src/transformer.ts:498-507 | one message line per conflicting name |
| Transformer.Conflicts | src/transformer.ts:498-507 | every reported name is in the table and has more than one declaration |
| Transformer.ConflictsComplete | src/transformer.ts:498-507 | every table entry with more than one declaration is reported |
| Transformer.NameConflictErrorSpec | src/transformer.ts:498-507 | the conflict error is raised exactly when some entry has more than one declaration, and it lists exactly those entries |
| References.ConflictsNonEmpty | src/transformer.ts:498-507 | a conflict is reported exactly when some name has more than one declaration |
| References.ConflictsSpec | src/transformer.ts:498-507 | over a table without repeated names, a conflict is reported exactly when some name was pushed twice; every such name is reported, and each report lists all its declarations |
| Transformer.AssertNameConflict | src/transformer.ts:498-507 | the loop over the name table computes `NameConflictError`: an error exactly when some entry has more than one declaration, listing exactly those entries, each with its declarations |
| Transformer.MargeRefExport | src/transformer.ts:341-349 | the default and named lists are concatenated, and every added declaration is pushed to the name table |
| Transformer.MergeRefInto | src/transformer.ts:318-340 | the `forEach` over a reference map computes `MergeRef` |
| Transformer.MakeModuleRefencesTable | src/transformer.ts:318-364 | the table starts with the command's own file and default entry, merges the positional and option maps, and fails on a name conflict: it computes `ModuleReferencesTable` |
| References.AddInfoSpec | src/transformer.ts:79-92 | recording a reference appends it to its file's default or named list, creating an empty entry first, and leaves every other file alone |
| References.MergeEntrySpec | src/transformer.ts:329-349 | merging an entry concatenates it onto its file's entry and leaves every other file alone |
| References.AddInfoNames | src/transformer.ts:79-92 | recording a reference adds exactly its name to the names in the table |
| References.MergeEntryNames | src/transformer.ts:329-349 | merging an entry adds exactly its names |
| References.TableNamesPut | src/transformer.ts:329-349 | overwriting one file's entry swaps that entry's names for the new ones |
| References.MergeRefNames | src/transformer.ts:318-340 | merging a map adds exactly the map's names to the table |
| References.MergeAllNames | src/transformer.ts:318-364 | merging every map adds exactly all their names |
| References.PushNameCount | src/transformer.ts:351-363 | pushing a declaration raises its name's count by one and no other count, and keeps the names unique |
| References.PushNamesCount | src/transformer.ts:351-363 | pushing a list raises each name's count by its number of occurrences |
| References.MergeRefCount | src/transformer.ts:318-363 | merging a map pushes every name in it once per declaration |
| References.MergeAllCount | src/transformer.ts:318-363 | the same, over every map |
| References.ModuleNameCounts | src/transformer.ts:318-364 | after merging, each name's count in the name table is its number of occurrences among the command's name and all referenced names |
| References.NameConflictIff | src/transformer.ts:318-364 | the module table fails exactly when some name occurs twice, and the error lists every such name and no other, each with all its declarations |
| References.ModuleTableNames | src/transformer.ts:318-364 | a successful table holds exactly the command's name and the referenced names |
| References.MergeEntryHead | src/transformer.ts:329-349 | merging keeps the command's own entry at the head of the table |
| References.MergeRefHead | src/transformer.ts:318-340 | merging a map keeps it there |
| References.MergeAllHead | src/transformer.ts:318-364 | merging every map keeps it there |
| References.ModuleTableHead | src/transformer.ts:318-364 | the first entry of a successful table is the command's file, with the command first among its defaults |
| Command.CommandTypeInfo | src/transformer.ts:274-301 | a positional records a reference exactly when its type is an enum, under the enum's name |
| Command.OptionsTypeInfo | src/transformer.ts:98-127 | an option records a reference exactly when its type is an enum, under the enum's name |
| Command.CommandRefNames | src/transformer.ts:241-272 | the positional fold adds to the table exactly the enum names of the parameters |
| Command.OptionsRefNames | src/transformer.ts:61-96 | the option fold adds to the table exactly the enum names of the properties |
| Command.TransformCommandParts | src/transformer.ts:180-196 | once the positionals and options convert, `transformCommand` is decided by the module table, with the name, description, calls and warnings of the parts |
| Command.PartsNames | src/transformer.ts:180-196 | the names checked for conflicts are the command's name and exactly the enums its parameters and options use |
| Command.TransformCommandConflict | src/transformer.ts:180-196 | once the parts convert, `transformCommand` fails exactly when some name occurs twice among the command's name and the enums used |
| Command.DuplicateNameFails | src/transformer.ts:180-196 | any such repeated name makes the transform fail |
| Command.SameEnumTwiceFails | src/transformer.ts:180-196 | two positionals typed by the same enum make the transform fail |
| Command.EnumNamedAsCommandFails | src/transformer.ts:180-196 | an enum named like the command makes the transform fail |
| Command.EnumSharedWithOptionFails | src/transformer.ts:180-196 | a positional and an option typed by the same enum make the transform fail |
| Command.TransformCommandSpec | src/transformer.ts:180-196 | a successful result carries the default name, the command description, the positionals, the trailing options and their warnings; its module table starts with the command and holds each name exactly once |
| Chains.PeelChain | src/render.ts:282-299 | the chain built on a receiver reads back as that receiver and the calls, in order |
| Chains.ChainInjective | src/render.ts:282-299 | two chains of the same length are equal only when their receivers and calls are |
| Chains.ChainCons | src/render.ts:282-299 | building on a receiver already holding one call is building on the receiver with that call in front |
| Chains.ChainAppend | src/render.ts:282-299 | chaining more calls onto a chain is chaining the concatenation |
| Chains.ReversedAt | src/render.ts:282-286 | the reversed sequence holds each element at the mirrored position |
| Chains.Reverse | src/render.ts:282-286 | `Array.prototype.reverse` in place: the array becomes its reverse |
| Chains.GenerateCallableChain | src/render.ts:282-299 | the array is left reversed, as the source's `reverse` leaves it, and the result calls them on the receiver in their original order |
| Render.WithDefaultsSpec | src/render.ts:15-24 | no option given means `yargs` with strict, help, the help alias and version on; all given means exactly those |
| Render.MakePositionalCommandString | src/render.ts:128-134 | the usage string is `$0`, the positional tokens and `[options]` when there are options, joined by spaces |
| Render.UsagePartsSpec | src/render.ts:128-134 | the usage has `$0` first, one token per positional, and `[options]` last exactly when there are options; no part contains a space |
| Render.UsageWords | src/render.ts:128-134 | splitting the usage string at spaces gives back those words |
| Render.MakeBuilder | src/render.ts:136-172 | the builder is `Builder(result)` |
| Render.BuilderSpec | src/render.ts:136-172 | the builder has one parameter and returns it with every positional call, then every option call, in order |
| Render.HandlerSpec | src/render.ts:174-280 | the handler destructures its one parameter into `_`, `$0`, the positional names and a rest object, then calls `command` with those positionals in order and the rest object |
| Render.MakeCommandNode | src/render.ts:112-126 | `command(usage, description, builder, handler)` |
| Render.MakeCommandImportDeclarationNode | src/render.ts:70-90 | a default import from the path, with named imports exactly when names are given |
| Render.Render | src/render.ts:23-46 | `render` builds its calls in the order of the flags and gives `Program(result, WithDefaults(options))` |
| Render.ProgramSpec | src/render.ts:23-110 | the program is the library namespace import, the `command` import from `./`, and a default-exported `main` whose one statement is `.argv` of the calls chained on `lib` |
| Render.DefaultTopCalls | src/render.ts:15-46 | with the defaults the calls are `strict`, `command`, `help`, `alias("help", "h")`, `version`, on `yargs` |
| Render.RenderIgnoresRef | src/render.ts:23-110 | the program does not depend on the module reference table |
| Resolver.ExportedFunctions | src/resolver.ts:30-32 | only exported functions of the file are kept |
| Resolver.ExportedFunctionsAppend | src/resolver.ts:30-32 | the filter works piecewise, so order is kept |
| Resolver.ExportedFunctionsKeeps | src/resolver.ts:30-32 | every exported function is kept |
| Resolver.IsTaggedIff | src/resolver.ts:48-53 | a function is tagged exactly when its last JSDoc block has a tag named `command` |
| Resolver.Compare | src/resolver.ts:38-46 | the comparator answers -1, 0 or 1 |
| Resolver.CompareCases | src/resolver.ts:38-46 | -1 exactly when the first is a default export, or neither is and only the first is tagged; 0 exactly when both are tagged non-defaults; two untagged non-defaults give 1 in both orders |
| Resolver.CompareRespectsRank | src/resolver.ts:38-46 | the comparator never puts a worse-ranked function first, and always puts a better-ranked one first |
| Resolver.MinimalRankChoice | src/resolver.ts:34-46 | a best-ranked function is a default export if there is one, and otherwise tagged if any is |
| Resolver.BestIndex | src/resolver.ts:34-46 | the scan returns the index of a function whose rank no other function beats |
| Resolver.GetFunctionDeclaration | src/resolver.ts:34-36 | the array is permuted in place to put a best-ranked function first, and that function is returned; an empty array gives nothing |
| Resolver.Resolve | src/resolver.ts:6-28 | no functions: nothing and the "No function declaration found" warning; none exported: nothing and the "No exported function declaration found" warning; one exported: that one; more: a best-ranked exported one |
| Common.GetJSDoc | src/common.ts:3-8 | the last JSDoc block, or `null` exactly when there is none |
| Common.StringifySpec | src/common.ts:27-29 | for every tag, the text is an `@` (present exactly when the text starts with one), whitespace, the result and whitespace; the result has no whitespace at either end |
| Common.StringifyStripsOneAt | src/common.ts:27-29 | only one `@` is dropped: `@@x` reads as `@x` |
| Common.MatchingSound | src/common.ts:10-20 | the matching tags belong to the block and are accepted, and there are no more of them than tags |
| Common.MatchingAppend | src/common.ts:10-20 | matching works piecewise, so order is kept |
| Common.MatchingEmpty | src/common.ts:10-20 | nothing matches exactly when no tag is accepted |
| Common.MatchingKeeps | src/common.ts:10-20 | every accepted tag is kept |
| Common.GetJSDocTags | src/common.ts:10-20 | `null` exactly when no tag is accepted, otherwise the accepted tags in order (never `undefined`) |
| Common.FirstAccepted | src/common.ts:22-25 | the position of the first accepted tag, or the length when none is |
| Common.MatchingFirst | src/common.ts:22-25 | the first matching tag is the first accepted one |
| Common.GetJSDocTag | src/common.ts:22-25 | the first accepted tag, or `null` exactly when none is accepted |
| Generator.GetDefaultFuncDecl | src/generator.ts:39-47 | the first default export; the "Default command function not found" error exactly when there is none |
| Generator.TaggedFinderAcceptsAll | src/generator.ts:29-37 | as written, the tag finder accepts every declaration |
| Generator.GetCommandFuncDeclAsWrittenFirst | src/generator.ts:23-37 | as written, the selector returns the first declaration, and fails only on an empty list |
| Generator.AsWrittenSelectsUntaggedHelper | src/generator.ts:23-37 | as written, an untagged helper listed before the default export is selected |
| Generator.TaggedFinderIsTagged | src/generator.ts:29-37 | the corrected finder accepts exactly the `@command`-tagged declarations |
| Generator.GetCommandFuncDeclSpec | src/generator.ts:23-47 | corrected: the first tagged declaration; otherwise the first default export; the error exactly when there is neither |
| Generator.SelectsDefaultOverUntaggedHelper | src/generator.ts:23-47 | corrected, the same input selects the default export |
| Generate.WithDefaults | src/generate.ts:30-38 | every given option overrides its default: no calls, `yargs`, strict and help on |
| Generate.Generate | src/generate.ts:37-131 | the pushes and the chain give `Program(WithDefaults(options))` |
| Generate.GenerateCallsSpec | src/generate.ts:40-56 | `strict()` first exactly when strict, then every option call in order, then `help()` and `alias("help", "h")` exactly when help is on |
| Generate.ProgramSpec | src/generate.ts:58-183 | the yargs namespace import, `command` and `Options` from `./index`, and `main`, which binds `args` to `.argv` of the chain, destructures it, and passes only the rest object to `command` |
| Generate.DefaultCalls | src/generate.ts:30-56 | with no options the chain is `strict()`, `help()`, `alias("help", "h")` |
| LegacyOptions.TransformJSDocTag | src/transform-option.ts:82-90 | the reduce over the tags computes `TransformJSDocTags` |
| LegacyOptions.TagsFromFails | src/transform-option.ts:82-90 | the reduce throws, writing to `undefined`, exactly when a commented tag follows an uncommented one |
| LegacyOptions.TagsFromUndefined | src/transform-option.ts:82-90 | a successful reduce ends in `undefined` exactly when some tag has no comment |
| LegacyOptions.LastCommentCons | src/transform-option.ts:82-90 | the last comment of a key is found by reading the tags front to back |
| LegacyOptions.TagsFromCommented | src/transform-option.ts:82-90 | when every tag is commented, each key holds the comment of its last tag |
| LegacyOptions.TransformPropSpec | src/transform-option.ts:63-80 | no JSDoc gives only `type`; otherwise the property fails exactly when its tags break the reduce; on success `type` is the type's text, `description` the comment, and each tag key its last comment (no tag key at all once a tag is uncommented) |
| LegacyOptions.TransformInterfacePropsSpec | src/transform-option.ts:63-73 | the properties convert exactly when each does, one result per property, in order |
| LegacyOptions.TransformInterfacePropsThrows | src/transform-option.ts:63-73 | a failing `map` throws the error of the first property that fails |
| LegacyOptions.TagsFromAssigns | src/transform-option.ts:82-90 | the only error the reduce throws is the assignment on `undefined` |
| LegacyOptions.TransformPropAssigns | src/transform-option.ts:63-80 | the only error a property's transform throws is the assignment on `undefined` |
| LegacyOptions.RenderArgs | src/transform-option.ts:40-61 | rendering throws the `TypeError` of calling `props.hasOwnProperty` exactly when the object has an own `hasOwnProperty` key; otherwise it gives the name as a string literal and an object with the same keys in order, each value as a string literal |
| LegacyOptions.Render | src/transform-option.ts:40-61 | the `for … in` loop, which calls `props.hasOwnProperty` on each key, computes `RenderArgs` |
| LegacyOptions.RenderAllSpec | src/transform-option.ts:22-30 | the `map` over the converted properties succeeds exactly when no object has an own `hasOwnProperty` key, and then gives one rendered call per property, in order |
| LegacyOptions.RenderAllThrows | src/transform-option.ts:22-30 | a failing `map` throws for the first property whose object has an own `hasOwnProperty` key |
| LegacyOptions.HasOwnPropertyTagThrows | src/transform-option.ts:40-90 | a property documented `@hasOwnProperty x` makes `convert` throw when rendering it |
| LegacyOptions.ConvertSpec | src/transform-option.ts:22-90 | `convert` succeeds exactly when every property transforms and no converted object has an own `hasOwnProperty` key; a failing transform is thrown first, as the first failing property's assignment on `undefined`; otherwise the first property whose object has that key throws while rendering; on success it gives one `option` call per property, in order, whose arguments are the property's name as a string literal and an object with the converted property's keys in order, each with its value as a string literal |
| InterfaceToYargs.IsOptionsInterfaceIff | src/transform-interface-to-yargs-option.ts:12-29 | an interface is the options interface exactly when its last block has a tag whose trimmed text is `@cliOptions` |
| InterfaceToYargs.FilterPicksFirst | src/transform-interface-to-yargs-option.ts:12-18 | the first marked interface is picked |
| InterfaceToYargs.Convert | src/transform-interface-to-yargs-option.ts:31-57 | `convert` computes `Converted` |
| InterfaceToYargs.ConvertedNull | src/transform-interface-to-yargs-option.ts:31-43 | `null` exactly when no interface is marked |
| InterfaceToYargs.ConvertedChain | src/transform-interface-to-yargs-option.ts:31-65 | with a marked interface, `convert` fails exactly when converting it fails (a property whose tags break the reduce, or whose object has an own `hasOwnProperty` key); otherwise it gives `yargs` followed by one `option` call per property, in order |

## Left out

- The emitter, the printer with prettier, `generator.ts`'s `generate` and
  `print`, `index.ts`, `cli.ts` and `resolve-entry.ts`: these read and write
  files, format text or resolve module paths. None of them decides what the
  generated program contains.
- ts-morph's queries (`getFunctions`, `getProperties`, `getType`,
  `isExported`, `getJsDocs` and the others) are not modelled. Their answers
  are fields of the `Model` datatypes.
- `parseExprStmt`, which parses a `@default` comment with the TypeScript
  compiler, is a function parameter (`Parser`). Its two errors are the
  `ParseFailed` cases.
- `console.warn` becomes a returned list of `Warning` values. When a
  transform fails, the warnings it had already printed are dropped.
- JavaScript puts integer-like keys of an object ahead of the others. The
  association lists always keep insertion order; the tool's keys are never
  integer-like.
- `{ ...DEFAULT, ...options }` with an option explicitly set to `undefined`
  overrides the default with `undefined`. The overrides (`Option`) only model
  an option that is given or left out.
- Resolver.GetFunctionDeclaration: models only which function ends up first
  after the sort, not the order of the rest. The comparator is inconsistent:
  two untagged functions each compare as 1. This is proved in
  `Resolver.CompareCases`, so the full order depends on the sort algorithm
  of the JavaScript engine.
- Transformer.GetJSDocTag: a non-integer index is not modelled (ts-morph
  indices are integers). A `RegExp` and a function test are one kind of
  predicate test.
- makeHandler's unused accumulator and the source's stale test files are not
  part of this model.
- Chains.Chain: a chain of calls is modelled by the text it prints, as a cleanly nested call on a property access of the shorter chain. `replaceCallableProperty` builds a different node tree that prints the same text: it puts the earlier calls into the property-name slot of the later call (src/render.ts:283-296).
- The copies of shared helpers are each one Dafny member, and each has a
  single row in the table, which cites the first copy. `generateCallableChain`
  is in src/render.ts:282-299 and is repeated at src/generate.ts:4-19 and at
  src/transform-interface-to-yargs-option.ts:45-57. `getJSDoc` is in
  src/common.ts:3-8 and is repeated at src/transform-option.ts:15-20. The older
  converter's reducer, property transform and rendering are in
  src/transform-option.ts:82-90, 63-80 and 40-61, and are repeated at
  src/transform-interface-to-yargs-option.ts:109-117, 90-107 and 67-88.
- The `TypeError` that an unsupported tag predicate would raise cannot arise
  with the closed set of tests, so it is not modelled.
- The errors for ts-morph answers that a type-checked program does not
  produce are not modelled: a type, symbol or declaration that is missing, a
  reference that is not an enum, and an export type outside `Default` and
  `Named` (`Unknown declaration type`).

## Findings

| source | as written | input that shows it | evidently intended | confidence | as-written member | corrected member |
|---|---|---|---|---|---|---|
| src/generator.ts:29-37 | the tag finder's guards compare the results of `getJSDoc` and `getJSDocTag` with `null`, but both return `undefined`, so the finder accepts every declaration and `getCommandFuncDecl` returns the first function | `[helper (exported, untagged, not default), main (default export)]` selects `helper` | the first `@command`-tagged function, otherwise the default export | high; not executed | Generator.AsWrittenSelectsUntaggedHelper | Generator.GetCommandFuncDeclSpec |
