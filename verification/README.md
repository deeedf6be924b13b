# Decoder generation of openapi-typescript-validator, in Dafny

The generator reads an OpenAPI or JSON schema and writes TypeScript
decoders: one typed object per schema definition whose `decode` checks JSON
against the definition's schema and returns it typed. This project models
the part of `generate` that decides which definitions get decoders and how
the decoders are laid out, and the three decoder strategies:

- **compile-based** (`generateCompileBasedDecoders`): one `decoders.ts` that
  compiles the schema with the validation engine when it is loaded, with one
  decoder per definition that looks its schema up by reference;
- **standalone, merged** (`generateStandaloneMergedDecoders`): one
  `decoders.ts` importing precompiled validators from one `validators.js`,
  plus `validators.d.ts` for module output;
- **standalone, per definition** (`generateStandaloneDecoders`): under
  `decoders/<name>/` a `decoder.ts`, a `validator.js` and, for module output,
  a `validator.d.ts` per definition, plus an index `decoders/index.ts`
  re-exporting every decoder.

Every template is modelled as the template literal the source writes
(`Templates.Flatten`), filled by the source's chain of global replacements
(`Templates.Fill`); the theorem `Templates.FillRendersTemplate` shows that the
chain equals slot-wise substitution whenever the values inserted before the
last one contain no `$`. On top of it, every generated text has a closed form
written out line by line. A strategy's result is the list of file writes
(directory, path, content) it performs; lemmas state exactly which files each
output directory receives.

Collaborators outside the model are parameters (`Config.Collaborators`): the
decoder- and validator-naming helpers, the code formatter, the validation
engine's standalone code emitter, and the regular-expression rewrite of
CommonJS exports into `export const` declarations. No property of their
results is assumed unless a lemma's precondition says so; as Dafny
functions, though, they are total, deterministic and never fail.

Modules: `Optional`, `Strings` (JavaScript `trim`, `join`, `filter`),
`Templates`, `Config`, `Artifacts` (files and their fan-out to output
directories), `Linkage` (`createValidatorImportStatement`),
`StandaloneValidators` (`standAloneValidatorOutput`,
`validatorDefinitionsOutput`), `DecoderTexts` (text shared by both decoder
templates), `CompileDecoders`, `StandaloneDecoders`, `Generate`.

## Model

| member | source | states |
|---|---|---|
| Generate.Directories | src/generate.ts:18-21 | a single directory becomes a one-element list; a list of directories is used as given |
| Generate.Whitelist | src/generate.ts:31 | the caller's decoder whitelist wins when given; otherwise the schema's own whitelist, which may be missing too |
| Strings.Filter | src/generate.ts:36-39 | filtering keeps exactly the elements that pass the test, each with its full multiplicity |
| Strings.FilterSubsequence | src/generate.ts:36-39 | filtering keeps the kept names in their original order |
| Generate.SelectDecoders | src/generate.ts:31-39 | the corrected selection keeps a definition iff there is no whitelist or the whitelist lists it |
| Generate.SelectDecodersAsWritten | src/generate.ts:31-39 | the selection as the keyed lookup makes it keeps a definition iff there is no whitelist or the lookup of its name is truthy: whitelisted and non-empty, or a member of `Object.prototype` |
| Generate.DecoderNames | src/generate.ts:29-39 | only definitions of the schema get decoders, and every definition does when neither the options nor the schema give a whitelist |
| Generate.SelectionKeeps | src/generate.ts:32-39 | without a whitelist every definition gets a decoder; with one, exactly the whitelisted definitions do, in schema order and with their multiplicity |
| Generate.KeyByAgrees | src/generate.ts:32-39 | the lookup in the keyed whitelist object selects the same definitions as whitelist membership when no definition is named `""` or after an `Object.prototype` member |
| Generate.KeyByAdmitsPrototypeMember | src/generate.ts:32-39 | a definition named `constructor` passes the keyed lookup although the whitelist does not list it |
| Generate.KeyByDropsEmptyName | src/generate.ts:32-39 | a whitelisted definition named `""` fails the keyed lookup, because its value is falsy |
| Generate.Steps | src/generate.ts:41-87 | the model and helper steps always run; the validation helper runs iff decoders are not skipped and at least one definition is selected |
| Generate.ChooseStrategy | src/generate.ts:44-74 | no standalone options means the compile-based strategy; `mergeDecoders === true` means the merged strategy; anything else means the per-definition strategy |
| Generate.OutputMode | src/generate.ts:58 | ESM forces module output; otherwise the standalone setting is used |
| Generate.Esm | src/generate.ts:59 | the ESM flag is true exactly when `esm` is set to true; it is false when omitted |
| Generate.ExactlyOneStrategy | src/generate.ts:41-75 | the chosen strategy runs exactly once when decoders are not skipped and some definition is selected; otherwise no strategy runs |
| Generate.StrategiesRun | src/generate.ts:41-75 | the strategies listed are exactly those of the decoder-strategy steps |
| Generate.MetaFileStep | src/generate.ts:85-87 | the meta file is generated unless `skipMetaFile === true`, and it receives every definition of the schema rather than only the selected ones |
| Generate.DecoderWritesDispatch | src/generate.ts:41-74 | the decoder step writes nothing unless decoders are generated, and otherwise exactly the files of the strategy `ChooseStrategy` picks |
| Generate.CompileBasedStepDeclarations | src/generate.ts:45-51 | the compile-based strategy writes no validator type declarations |
| Generate.MergedStepDeclarations | src/generate.ts:53-62 | the merged strategy writes declarations into an output directory exactly when the output mode is module output |
| Generate.PerDefinitionStepDeclarations | src/generate.ts:64-73 | the per-definition strategy writes declarations into an output directory exactly for module output and at least one selected definition |
| Generate.DeclarationsIffModule | src/generate.ts:41-74 | `.d.ts` files reach a directory exactly when all of these hold: a standalone strategy runs, decoders are generated, the directory is an output directory, and ESM or module output is set |
| Strings.Trim | src/generate/generate-compile-decoders.ts:19 | trimming removes only ECMAScript whitespace, from both ends, and leaves no whitespace at either end |
| Templates.FillRendersTemplate | src/generate/generate-compile-decoders.ts:16-18 | the chain of global placeholder replacements on the template literal equals substituting each placeholder, provided no inserted value but the last contains `$` |
| DecoderTexts.CommaSeparated | src/generate/generate-compile-decoders.ts:36 | the comma-separated list of model imports contains no `$` when no name does |
| CompileDecoders.CompileDecoderBlockText | src/generate/generate-compile-decoders.ts:66-79 | each decoder declares the decoder-named object typed by the definition, carries the definition name and `#/definitions/<name>`, looks its schema up, throws `Schema ${<decoder>.definitionName} not found` if the schema is missing, and otherwise validates against it |
| CompileDecoders.DecoderBlocksInOrder | src/generate/generate-compile-decoders.ts:14-21 | the decoders text holds every definition's decoder exactly once, in definition order, separated by single line breaks |
| CompileDecoders.ImportsText | src/generate/generate-compile-decoders.ts:24-27 | the format plugin import is present exactly when formats are enabled |
| CompileDecoders.FormatsText | src/generate/generate-compile-decoders.ts:28-35 | the plugin is registered exactly when formats are enabled, with the options' JSON or `undefined` |
| CompileDecoders.DecodersFileFill | src/generate/generate-compile-decoders.ts:48-64 | the file template, filled in source order, is the header, the optional plugin import, the helper, validation and model imports, the schema compile, the optional plugin call, and the decoders |
| CompileDecoders.CompileDecodersFileText | src/generate/generate-compile-decoders.ts:23-37 | the raw `decoders.ts` imports the models of all definitions, comma separated in order, and ends with all the decoders |
| CompileDecoders.GenerateCompileBasedDecoders | src/generate/generate-compile-decoders.ts:7-46 | the compile-based strategy writes only `decoders.ts`, and only into output directories |
| CompileDecoders.CompileBasedWrites | src/generate/generate-compile-decoders.ts:39-45 | each output directory, and no other directory, receives exactly one file: `decoders.ts` holding the formatted text |
| Artifacts.FanOutDirectories | src/generate/generate-compile-decoders.ts:41-45 | every output directory receives every file, and no other directory receives anything |
| Linkage.ImportExtension | src/generate/generate-standalone-decoders.ts:239 | relative imports get `.js` exactly under ESM, and no extension otherwise |
| Linkage.ValidatorFileName | src/generate/generate-standalone-decoders.ts:151 | merged decoders import from `validators`; per-definition decoders import from `validator` |
| Linkage.ValidatorImportStatement | src/generate/generate-standalone-decoders.ts:150-162 | the statement is a destructuring `require` for CommonJS and a named `import` for module output, and the ESM extension appears only in the `import` |
| Linkage.ImportStatementDetermines | src/generate/generate-standalone-decoders.ts:150-162 | the statement determines the imported names, the output mode, whether validators are merged, and, for module output, the ESM flag |
| Linkage.StatementAvoids | src/generate/generate-standalone-decoders.ts:150-162 | the statement adds no `$` to the imported names, so later placeholder replacements cannot match inside it |
| StandaloneValidators.SchemaRef | src/generate/generate-standalone-decoders.ts:183 | a definition's schema reference is `#/definitions/` followed by the definition name |
| StandaloneValidators.Put | src/generate/generate-standalone-decoders.ts:181-184 | one assignment adds at most one entry to the reference map |
| StandaloneValidators.PutKeys | src/generate/generate-standalone-decoders.ts:181-183 | assigning a key adds that key, unless it is `__proto__`, whose setter ignores a string, and adds no other key; an existing key keeps its position |
| StandaloneValidators.PutUnique | src/generate/generate-standalone-decoders.ts:181-183 | assignment keeps the object's keys unique |
| StandaloneValidators.PutGet | src/generate/generate-standalone-decoders.ts:181-183 | an assigned key reads back its new value, except `__proto__`, whose assignment changes nothing; every other key reads as before |
| StandaloneValidators.PutAppends | src/generate/generate-standalone-decoders.ts:181-183 | a new key other than `__proto__` is created after all existing keys |
| StandaloneValidators.PutSemantics | src/generate/generate-standalone-decoders.ts:181-183 | the combined semantics of property assignment on the reference map, including the `__proto__` exception |
| StandaloneValidators.RefMap | src/generate/generate-standalone-decoders.ts:179-187 | the reduce over the definitions yields at most one entry per definition |
| StandaloneValidators.RefMapUnique | src/generate/generate-standalone-decoders.ts:179-187 | the reference map never repeats a key |
| StandaloneValidators.RefMapKeys | src/generate/generate-standalone-decoders.ts:179-187 | the keys of the reference map are exactly the validator names of the definitions, except `__proto__` |
| StandaloneValidators.RefMapLatest | src/generate/generate-standalone-decoders.ts:179-187 | a validator name other than `__proto__` maps to `#/definitions/<d>` for the last definition `d` with that validator name |
| StandaloneValidators.RefMapSkipsProto | src/generate/generate-standalone-decoders.ts:179-187 | a list in which every definition's validator name is `__proto__` yields an empty reference map |
| StandaloneValidators.RefMapDropsProto | src/generate/generate-standalone-decoders.ts:179-187 | for any list of definitions, the reference map equals the one built from the definitions whose validator name is not `__proto__` alone: those definitions leave no trace |
| StandaloneValidators.RefMapDistinct | src/generate/generate-standalone-decoders.ts:179-187 | when validator names are distinct and none is `__proto__`, the map has one entry per definition, in definition order, binding its validator name to `#/definitions/<name>` |
| StandaloneValidators.FormatsPlugin | src/generate/generate-standalone-decoders.ts:174-176 | the format plugin, with its options, is registered exactly when formats are enabled |
| StandaloneValidators.ValidatorsFileText | src/generate/generate-standalone-decoders.ts:221-225 | the validator file template puts the code between the lint banner and one closing line break |
| StandaloneValidators.StandaloneValidatorOutput | src/generate/generate-standalone-decoders.ts:165-205 | the validator file for a list of definitions; no contract of its own, its text is stated by `StandaloneValidatorText` and `CommonJsNotRewritten` |
| StandaloneValidators.StandaloneValidatorText | src/generate/generate-standalone-decoders.ts:189-204 | the formatter receives the banner, the engine's code for the reference map, and a line break; the code is rewritten exactly for module output |
| StandaloneValidators.CommonJsNotRewritten | src/generate/generate-standalone-decoders.ts:191-196 | CommonJS output does not depend on the export rewrite |
| StandaloneValidators.DeclarationLine | src/generate/generate-standalone-decoders.ts:213-214 | a declaration line contains no line break when the validator name contains none |
| StandaloneValidators.ValidatorDeclarations | src/generate/generate-standalone-decoders.ts:207-219 | the formatted declarations; no contract of its own, their lines are stated by `DeclarationsPerLine` |
| StandaloneValidators.DeclarationsPerLine | src/generate/generate-standalone-decoders.ts:211-216 | split at line breaks, the declarations give one `export function <validator>(json: unknown): boolean;` per definition, in order |
| StandaloneDecoders.StandaloneBodyText | src/generate/generate-standalone-decoders.ts:227-236 | the standalone decoder hands the JSON to the precompiled validator, cast to `Validator`, together with the definition name |
| StandaloneDecoders.MergedDecoderBlockText | src/generate/generate-standalone-decoders.ts:96-103 | each merged decoder, after the three replacements and the trim, is exactly the decoder the definition should get |
| StandaloneDecoders.MergedBlocksInOrder | src/generate/generate-standalone-decoders.ts:96-104 | the merged decoders appear once each, in definition order, one line break apart |
| StandaloneDecoders.MergedFileFill | src/generate/generate-standalone-decoders.ts:258-270 | the merged file template, filled in source order, has the banner, the helper and validation imports with the ESM extension, the model import, the validator statement and the decoders |
| StandaloneDecoders.RawMergedDecoders | src/generate/generate-standalone-decoders.ts:106-115 | the unformatted merged `decoders.ts`; no contract of its own, its closed form is stated by `MergedDecodersText` |
| StandaloneDecoders.MergedDecodersText | src/generate/generate-standalone-decoders.ts:106-115 | the merged file imports every definition's model and, through one statement from `validators`, every definition's validator, comma separated in order |
| StandaloneDecoders.DecoderFileFill | src/generate/generate-standalone-decoders.ts:238-250 | the per-definition file template embeds the decoder template before any replacement; filled in source order it gives the imports, then the decoder framed by line breaks |
| StandaloneDecoders.RawDecoderFile | src/generate/generate-standalone-decoders.ts:24-42 | the unformatted `decoder.ts` of one definition; no contract of its own, its closed form is stated by `DecoderFileText` |
| StandaloneDecoders.DecoderFileText | src/generate/generate-standalone-decoders.ts:36-42 | a definition's decoder file imports its own model and, from the adjacent `validator` file, its own validator, then holds its decoder |
| StandaloneDecoders.IndexLine | src/generate/generate-standalone-decoders.ts:51-53 | a re-export line contains no line break when the decoder and definition names contain none |
| StandaloneDecoders.RawIndex | src/generate/generate-standalone-decoders.ts:71-74 | the unformatted `index.ts`; no contract of its own, its closed form is stated by `RawIndexText` |
| StandaloneDecoders.RawIndexText | src/generate/generate-standalone-decoders.ts:252-256 | the index is the lint banner, the re-exports joined by line breaks, and a closing line break |
| StandaloneDecoders.IndexLinesInOrder | src/generate/generate-standalone-decoders.ts:71-74 | read back line by line, the intended index re-exports each definition's decoder from `./<name>/decoder`, with `.js` under ESM, once each and in order |
| StandaloneDecoders.ExportsAtAssembly | src/generate/generate-standalone-decoders.ts:21-74 | by the time the index is assembled, no more re-exports have been recorded than the intended list holds |
| StandaloneDecoders.IndexAsWrittenIsEmpty | src/generate/generate-standalone-decoders.ts:21-74 | as written, the index of a non-empty definition list re-exports nothing, which differs from the intended index |
| StandaloneDecoders.DefinitionFilePaths | src/generate/generate-standalone-decoders.ts:55-68 | a definition gets `decoder.ts` and `validator.js` in its own directory, plus `validator.d.ts` exactly for module output |
| StandaloneDecoders.AllDefinitionFiles | src/generate/generate-standalone-decoders.ts:23-69 | every file of every definition is listed, and every listed path is a path of some definition's files |
| StandaloneDecoders.AllDefinitionFilesOrigin | src/generate/generate-standalone-decoders.ts:23-69 | every listed file, content included, is a file of one of the definitions |
| StandaloneDecoders.DefinitionFileAt | src/generate/generate-standalone-decoders.ts:55-66 | every file of a definition lies in `decoders/<name>/`; `decoder.ts` holds the decoder, `validator.js` the validator, and `validator.d.ts`, present only for module output, the declarations |
| StandaloneDecoders.ListedFileContent | src/generate/generate-standalone-decoders.ts:55-66 | a listed file holds, for its kind, the content of the definition its directory is named after |
| StandaloneDecoders.PerDefinitionWritten | src/generate/generate-standalone-decoders.ts:55-83 | each output directory receives the files of every definition plus the index, and no other directory receives anything |
| StandaloneDecoders.PerDefinitionPaths | src/generate/generate-standalone-decoders.ts:55-83 | a path is written below a directory exactly when the directory is an output directory and the path is the index or a file of some definition |
| StandaloneDecoders.PerDefinitionDeclarationsWritten | src/generate/generate-standalone-decoders.ts:62-67 | declarations are written into a directory exactly when it is an output directory, the output mode is module output, and there is at least one definition |
| StandaloneDecoders.GenerateStandaloneDecoders | src/generate/generate-standalone-decoders.ts:11-84 | the per-definition strategy writes only into output directories, and only below `decoders/` |
| StandaloneDecoders.PerDefinitionLayout | src/generate/generate-standalone-decoders.ts:55-83 | the per-definition strategy writes exactly `decoders/index.ts` and each definition's `decoder.ts`, `validator.js` and, for module output, `validator.d.ts` |
| StandaloneDecoders.PerDefinitionHolds | src/generate/generate-standalone-decoders.ts:55-83 | every output directory receives each definition's decoder and validator, its declarations for module output, and the index, with their contents |
| StandaloneDecoders.DefinitionFileWritten | src/generate/generate-standalone-decoders.ts:55-66 | each file of a definition reaches every output directory |
| StandaloneDecoders.PerDefinitionOnly | src/generate/generate-standalone-decoders.ts:55-83 | no other content is written at a definition's `decoder.ts`, `validator.js` or `validator.d.ts` path, or at the index path |
| StandaloneDecoders.PerDefinitionDeclarations | src/generate/generate-standalone-decoders.ts:62-67 | the per-definition strategy writes `.d.ts` files exactly for module output and at least one definition |
| StandaloneDecoders.PerDefinitionContents | src/generate/generate-standalone-decoders.ts:27-82 | each `decoder.ts` holds the formatted decoder file of its definition; each `validator.js` holds the standalone validator built from that one definition; for module output each `validator.d.ts` holds the declaration of that one definition's validator; `index.ts` holds the formatted re-exports of all definitions; no path holds anything else |
| StandaloneDecoders.MergedValidators | src/generate/generate-standalone-decoders.ts:119-131 | `validators.js` is the already wrapped and formatted validator output, wrapped in the file template and formatted a second time |
| StandaloneDecoders.GenerateStandaloneMergedDecoders | src/generate/generate-standalone-decoders.ts:86-147 | the merged strategy writes only into output directories, and only files directly in them |
| StandaloneDecoders.MergedWritten | src/generate/generate-standalone-decoders.ts:137-146 | each output directory receives `decoders.ts` and `validators.js` plus `validators.d.ts` exactly for module output, and no other directory receives anything |
| StandaloneDecoders.MergedLayout | src/generate/generate-standalone-decoders.ts:137-146 | the merged strategy writes the formatted decoders, the merged validators and, for module output, the declarations of all definitions |
| StandaloneDecoders.MergedDeclarationsWritten | src/generate/generate-standalone-decoders.ts:143-145 | the merged files include a declaration file exactly when the directory is an output directory and the output mode is module output |
| StandaloneDecoders.MergedDeclarations | src/generate/generate-standalone-decoders.ts:143-145 | the merged strategy writes `validators.d.ts` exactly for module output |

## Left out

- I/O: directory creation, file writes and console logging are not modelled. A strategy returns the list of writes it would perform.
- The formatter (prettier), the validation engine's compile and standalone code emitter, and the format plugin are uninterpreted collaborators. So are the naming helpers `createDecoderName` and `createValidatorName`: `generation-utils` is not part of this model.
- The other steps of `generate` appear only as named steps: `parseSchema`, `generateAjvValidator`, `generateModels`, `generateHelpers` and `generateMetaFile`. The schema arrives already parsed.
- `Object.keys(schema.definitions)` is the given list `definitionNames`. JavaScript's ordering of integer-like keys first is not modelled.
- `schemaType` on `src/generate.ts:37` is computed and never used, so it is not modelled.
- The order in which asynchronous steps interleave their writes is not modelled. Only which files each directory ends up with, and their contents, are.
- Templates.Fill: replacement strings are inserted literally. JavaScript reads `$&`, `$'`, `` $` `` and `$$` in a replacement string as patterns. The closed forms therefore require the inserted names to be free of `$`. The validator code inserted by `StandaloneValidators.ValidatorsFileText` and `StandaloneDecoders.MergedValidators` is taken verbatim, whatever it contains.
- StandaloneDecoders.ExportsAtAssembly: its contract only bounds the recorded list by the intended one. The exact as-written value, the empty list, is stated by `StandaloneDecoders.IndexAsWrittenIsEmpty`.
- `GenerateStandaloneDecoders` builds the index from every definition's re-export: the corrected behaviour. The as-written index is the subject of the second finding below.
- Collaborator failures are not modelled. The engine may reject the schema, the formatter may fail to parse, and a write may throw. Nor is how such a failure propagates, for example that a failing per-definition callback of the `async` `forEach` is detached from the promise `generate` returns.
- StandaloneValidators.PutAppends: the record lists keys in the order they are created. JavaScript enumerates array-index keys ("0", "12", ...) first, in ascending numeric order. Validator names are assumed to be ordinary property names, as the export rewrite's `\w+Validator` pattern also presumes.
- StandaloneValidators.PutSemantics: shares the key-order assumption of `PutAppends` for array-index keys.
- StandaloneValidators.RefMapDistinct: the entry order is the creation order, which is JavaScript's enumeration order only when no validator name is an array index.
- Path normalisation is not modelled. A path is kept as its list of segments, where the source joins them with `path.join`. So definitions named `""` and `"."` both write `<outDir>/decoders/decoder.ts`, the later overwriting the earlier, and `"a/../b"` writes into the directory of `b`. The model keeps those paths apart. Definition names are assumed to be single path segments other than `""`, `.` and `..`.
- StandaloneDecoders.PerDefinitionOnly: "nothing else at that path" holds of the segment lists. When two definition names join to the same file path, the source overwrites the file.
- StandaloneDecoders.PerDefinitionLayout: the layout is stated over segment lists. Names that `path.join` normalises to a shared directory share files in the source.
- StandaloneDecoders.PerDefinitionContents: shares the segment-list assumption of `PerDefinitionOnly`.
- Generate.DecoderNames: uses the corrected selection `SelectDecoders`, not the keyed lookup as written. So `Steps`, `DecoderWrites`, `ExactlyOneStrategy`, `DecoderWritesDispatch` and `DeclarationsIffModule` describe the corrected program. The as-written selection is `SelectDecodersAsWritten`, the subject of the first finding below, and `KeyByAgrees` shows the two agree unless a definition is named `""` or after a member of `Object.prototype`.
- `MergedValidators` models the double wrapping and formatting of `validators.js` as written. It is not corrected, because the result is still a valid validator file.

## Findings

| source | as written | input that shows it | evidently intended | confidence | as-written member | corrected member |
|---|---|---|---|---|---|---|
| src/generate.ts:32-39 | the whitelist becomes an object keyed by name and the filter keeps a name when `decoderWhitelistById[name]` is truthy | definitions `["Pet", "constructor"]` with whitelist `["Pet"]` select both, because `constructor` is inherited from `Object.prototype`; definitions `[""]` with whitelist `[""]` select none, because the value `""` is falsy | a definition gets a decoder exactly when the whitelist lists it | not executed | Generate.SelectDecodersAsWritten, Generate.KeyByAdmitsPrototypeMember, Generate.KeyByDropsEmptyName | Generate.SelectDecoders, Generate.SelectionKeeps |
| src/generate/generate-standalone-decoders.ts:21-74 | re-exports are pushed inside an `async` `forEach` callback after its first `await`, and the index is built right after the loop has started every callback | any non-empty list of definitions: the index is assembled from an empty list and is only the lint banner and line breaks | the index re-exports the decoder of every definition, in order | not executed | StandaloneDecoders.ExportsAtAssembly, StandaloneDecoders.IndexAsWrittenIsEmpty | StandaloneDecoders.IndexExports, StandaloneDecoders.IndexLinesInOrder |
