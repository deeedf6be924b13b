/**
  The compile-based strategy (`generateCompileBasedDecoders`): a single
  `decoders.ts` holding one decoder object per definition. The decoders look
  their schema up in an engine instance that compiles the whole schema when
  the file loads.
 */
module CompileDecoders {

  import opened Optional
  import opened Strings
  import opened Templates
  import opened Config
  import opened Artifacts
  import opened DecoderTexts

  // ---------------------------------------------------------------------------
  // The decoder of one definition (`decoderTemplate`).

  /** The compile-based decoder object (src/generate/generate-compile-decoders.ts:67-78), with the
      fixed text around its placeholders as parameters, named after the piece of the template
      each stands for: the declaration line (67), the `definitionName` field (68), the
      `schemaRef` field and blank line (69-70), the `decode` head (71), the schema lookup and its
      guard (72-73), the `throw` for a missing schema (74-75), and the `return` with the
      closing braces (76-78). `DecoderBody` passes the constants below in that order. */
  function CompileBody(
    exportHead: Chunk, decoderType: Chunk, objectOpen: Chunk,
    nameField: Chunk, nameEnd: Chunk, refField: Chunk, refEnd: Chunk,
    decodeHead: Chunk, decodeOpen: Chunk, schemaLookup: Chunk, lookupEnd: Chunk,
    throwHead: Chunk, throwEnd: Chunk, returnHead: Chunk, returnEnd: Chunk): Template
  {
    [Text(exportHead), Hole(DecoderName), Text(decoderType), Hole(Class), Text(objectOpen)]
    + [Text(nameField), Hole(Class), Text(nameEnd)]
    + [Text(refField), Hole(Class), Text(refEnd)]
    + [Text(decodeHead), Hole(Class), Text(decodeOpen)]
    + [Text(schemaLookup), Hole(DecoderName), Text(lookupEnd)]
    + [Text(throwHead), Interpolation, Hole(DecoderName), Text(throwEnd)]
    + [Text(returnHead), Hole(DecoderName), Text(returnEnd)]
  }

  lemma CompileBodyShape(
    exportHead: Chunk, decoderType: Chunk, objectOpen: Chunk,
    nameField: Chunk, nameEnd: Chunk, refField: Chunk, refEnd: Chunk,
    decodeHead: Chunk, decodeOpen: Chunk, schemaLookup: Chunk, lookupEnd: Chunk,
    throwHead: Chunk, throwEnd: Chunk, returnHead: Chunk, returnEnd: Chunk,
    subs: Substitution, dn: string, name: string)
    requires Lookup(subs, DecoderName) == Some(dn)
    requires Lookup(subs, Class) == Some(name)
    ensures Render(CompileBody(exportHead, decoderType, objectOpen, nameField, nameEnd, refField, refEnd,
                               decodeHead, decodeOpen, schemaLookup, lookupEnd, throwHead, throwEnd,
                               returnHead, returnEnd), subs)
            == (exportHead + dn + decoderType + name + objectOpen)
             + (nameField + name + nameEnd)
             + (refField + name + refEnd)
             + (decodeHead + name + decodeOpen)
             + (schemaLookup + dn + lookupEnd)
             + (throwHead + "${" + dn + throwEnd)
             + (returnHead + dn + returnEnd)
  {
    var l0 := [Text(exportHead), Hole(DecoderName), Text(decoderType), Hole(Class), Text(objectOpen)];
    var l1 := [Text(nameField), Hole(Class), Text(nameEnd)];
    var l2 := [Text(refField), Hole(Class), Text(refEnd)];
    var l3 := [Text(decodeHead), Hole(Class), Text(decodeOpen)];
    var l4 := [Text(schemaLookup), Hole(DecoderName), Text(lookupEnd)];
    var l5 := [Text(throwHead), Interpolation, Hole(DecoderName), Text(throwEnd)];
    var l6 := [Text(returnHead), Hole(DecoderName), Text(returnEnd)];
    RenderOf5(Text(exportHead), Hole(DecoderName), Text(decoderType), Hole(Class), Text(objectOpen), subs);
    RenderOf3(Text(nameField), Hole(Class), Text(nameEnd), subs);
    RenderOf3(Text(refField), Hole(Class), Text(refEnd), subs);
    RenderOf3(Text(decodeHead), Hole(Class), Text(decodeOpen), subs);
    RenderOf3(Text(schemaLookup), Hole(DecoderName), Text(lookupEnd), subs);
    RenderOf4(Text(throwHead), Interpolation, Hole(DecoderName), Text(throwEnd), subs);
    RenderOf3(Text(returnHead), Hole(DecoderName), Text(returnEnd), subs);
    RenderAppend(l0 + l1 + l2 + l3 + l4 + l5, l6, subs);
    RenderAppend(l0 + l1 + l2 + l3 + l4, l5, subs);
    RenderAppend(l0 + l1 + l2 + l3, l4, subs);
    RenderAppend(l0 + l1 + l2, l3, subs);
    RenderAppend(l0 + l1, l2, subs);
    RenderAppend(l0, l1, subs);
  }
  const SchemaLookup: Chunk := "    const schema = " + "ajv.getSchema("
  const LookupGuard: Chunk := ".schemaRef);\n    if (!schema) {\n"
  const ThrowMissing: Chunk := "      throw new Error(`Schema "
  const MissingMessage: Chunk := ".definitionName} not found`);\n" + "    }\n"
  const ValidateCall: Chunk := ValidateStart + "schema, "

  const DecoderBody: Template :=
    CompileBody(DeclarationStart, DecoderType, ObjectOpen, DefinitionNameField, FieldEnd, SchemaRefField,
                LastFieldEnd, DecodeSignature, BlockOpen, SchemaLookup, LookupGuard, ThrowMissing,
                MissingMessage, ValidateCall, DecoderEnd)

  /** `decoderTemplate`. */
  const DecoderTemplate: Template := Framed(DecoderBody)

  /** One decoder: the template with `$DecoderName`, then `$Class`, replaced
      for the definition `name`, trimmed. */
  function CompileDecoderBlock(name: string, c: Collaborators): string
  {
    Trim(Fill(Flatten(DecoderTemplate), [(DecoderName, c.decoderName(name)), (Class, name)]))
  }

  /** The decoder of a definition is named by the decoder-name helper, is
      typed by and named after the definition, points at
      `#/definitions/<name>`, and its `decode` looks the schema up by that
      reference, throws `Schema <decoder>.definitionName not found` when the
      engine lacks it, and otherwise validates against it. Every placeholder
      is replaced; the decoder name must not contain `$`, since `$Class` is
      replaced after it is inserted. */
  lemma CompileDecoderBlockText(name: string, c: Collaborators)
    requires '$' !in c.decoderName(name)
    ensures var dn := c.decoderName(name);
      CompileDecoderBlock(name, c)
      == ("export const " + dn + ": Decoder<" + name + "> = {\n")
       + ("  definitionName: '" + name + "',\n")
       + ("  schemaRef: '#/definitions/" + name + "',\n\n")
       + ("  decode(json: unknown): " + name + " {\n")
       + (("    const schema = " + "ajv.getSchema(") + dn + ".schemaRef);\n    if (!schema) {\n")
       + ("      throw new Error(`Schema " + "${" + dn + (".definitionName} not found`);\n" + "    }\n"))
       + (("    return validateJson(json, " + "schema, ") + dn + ".definitionName);\n  }\n}")
  {
    var dn := c.decoderName(name);
    var subs := [(DecoderName, dn), (Class, name)];
    LookupBound(subs, 1);
    FillRendersTemplate(DecoderTemplate, subs);
    TrimFramedTemplate(DecoderBody, subs);
    CompileBodyShape(DeclarationStart, DecoderType, ObjectOpen, DefinitionNameField, FieldEnd, SchemaRefField,
                     LastFieldEnd, DecodeSignature, BlockOpen, SchemaLookup, LookupGuard, ThrowMissing,
                     MissingMessage, ValidateCall, DecoderEnd, subs, dn, name);
  }

  /** The decoders of all definitions, each trimmed, joined by line breaks. */
  function DecoderBlocks(names: seq<string>, c: Collaborators): string
  {
    Join(Map(names, name => CompileDecoderBlock(name, c)), "\n")
  }

  /** One decoder per definition, in definition order: the decoder of the
      i-th name follows the decoders of the names before it and precedes
      those of the names after it, a line break apart. */
  lemma DecoderBlocksInOrder(names: seq<string>, c: Collaborators, i: nat)
    requires i < |names|
    ensures DecoderBlocks(names, c)
      == (if i == 0 then "" else DecoderBlocks(names[..i], c) + "\n")
         + CompileDecoderBlock(names[i], c)
         + (if i + 1 == |names| then "" else "\n" + DecoderBlocks(names[i + 1..], c))
  {
    JoinMapLayout(names, name => CompileDecoderBlock(name, c), "\n", i);
  }

  // ---------------------------------------------------------------------------
  // The file (`decodersFileTemplate`).

  /** The compile-based decoders file (src/generate/generate-compile-decoders.ts:48-64), with its
      fixed texts as parameters, named after the piece of the template each stands for: the
      banner and engine import (48-51), the line break that ends several lines, the helper and
      validation imports (53-54), the model import around `$ModelImports` (55), the schema
      import and blank line (56-57), the engine setup and schema compile (58-59), and the
      decoders heading (61-62). `DecodersFileTemplate` passes the constants below in that order. */
  function CompileFile(
    banner: Chunk, lineBreak: Chunk, helpersImport: Chunk, validateImport: Chunk,
    modelsHead: Chunk, modelsEnd: Chunk, schemaImport: Chunk,
    engineSetup: Chunk, schemaCompile: Chunk, decodersHeading: Chunk): Template
  {
    [Text(banner), Hole(Imports), Text(lineBreak)]
    + [Text(helpersImport), Text(validateImport)]
    + [Text(modelsHead), Hole(ModelImports), Text(modelsEnd)]
    + [Text(schemaImport)]
    + [Text(engineSetup), Text(schemaCompile), Hole(Formats), Text(lineBreak)]
    + [Text(decodersHeading), Hole(Decoders), Text(lineBreak)]
  }

  lemma CompileFileShape(
    banner: Chunk, lineBreak: Chunk, helpersImport: Chunk, validateImport: Chunk,
    modelsHead: Chunk, modelsEnd: Chunk, schemaImport: Chunk,
    engineSetup: Chunk, schemaCompile: Chunk, decodersHeading: Chunk,
    subs: Substitution, imports: string, models: string, formats: string, decoders: string)
    requires Lookup(subs, Imports) == Some(imports)
    requires Lookup(subs, ModelImports) == Some(models)
    requires Lookup(subs, Formats) == Some(formats)
    requires Lookup(subs, Decoders) == Some(decoders)
    ensures Render(CompileFile(banner, lineBreak, helpersImport, validateImport, modelsHead, modelsEnd,
                               schemaImport, engineSetup, schemaCompile, decodersHeading), subs)
            == (banner + imports + lineBreak)
             + (helpersImport + validateImport)
             + (modelsHead + models + modelsEnd)
             + schemaImport
             + (engineSetup + schemaCompile + formats + lineBreak)
             + (decodersHeading + decoders + lineBreak)
  {
    var l0 := [Text(banner), Hole(Imports), Text(lineBreak)];
    var l1 := [Text(helpersImport), Text(validateImport)];
    var l2 := [Text(modelsHead), Hole(ModelImports), Text(modelsEnd)];
    var l3 := [Text(schemaImport)];
    var l4 := [Text(engineSetup), Text(schemaCompile), Hole(Formats), Text(lineBreak)];
    var l5 := [Text(decodersHeading), Hole(Decoders), Text(lineBreak)];
    RenderOf3(Text(banner), Hole(Imports), Text(lineBreak), subs);
    RenderOf2(Text(helpersImport), Text(validateImport), subs);
    RenderOf3(Text(modelsHead), Hole(ModelImports), Text(modelsEnd), subs);
    RenderOf1(Text(schemaImport), subs);
    RenderOf4(Text(engineSetup), Text(schemaCompile), Hole(Formats), Text(lineBreak), subs);
    RenderOf3(Text(decodersHeading), Hole(Decoders), Text(lineBreak), subs);
    RenderAppend(l0 + l1 + l2 + l3 + l4, l5, subs);
    RenderAppend(l0 + l1 + l2 + l3, l4, subs);
    RenderAppend(l0 + l1 + l2, l3, subs);
    RenderAppend(l0 + l1, l2, subs);
    RenderAppend(l0, l1, subs);
  }
  const FileHeader: Chunk := "\n/* eslint-disable */\n\n" + "import Ajv from 'ajv';\n"
  const HelpersImport: Chunk := "import { Decoder } from " + "'./helpers';\n"
  const ValidateImport: Chunk := "import { validateJson } from " + "'./validate';\n"
  const ModelsImportStart: Chunk := "import { "
  const ModelsImportEnd: Chunk := " } from './models';\n"
  const SchemaImport: Chunk := "import jsonSchema from " + "'./schema.json';\n\n"
  const EngineSetup: Chunk := "const ajv = new Ajv(" + "{ strict: false });\n"
  const SchemaCompile: Chunk := "ajv.compile(jsonSchema);\n"
  const DecodersHeading: Chunk := "\n// Decoders\n"

  const DecodersFileTemplate: Template :=
    CompileFile(FileHeader, LineBreak, HelpersImport, ValidateImport, ModelsImportStart, ModelsImportEnd,
                SchemaImport, EngineSetup, SchemaCompile, DecodersHeading)

  const FormatsImport: Chunk := "import addFormats from " + "\"ajv-formats\""
  const FormatsCallStart: Chunk := "addFormats(ajv, "
  const FormatsCallEnd: Chunk := ");"
  const Undefined: Chunk := "undefined"

  /** The text for `$Imports`: the format plugin's import exactly when
      formats are enabled. */
  function ImportsText(addFormats: bool): (r: Chunk)
    ensures addFormats <==> r == "import addFormats from \"ajv-formats\""
    ensures !addFormats <==> r == ""
  {
    if addFormats then FormatsImport else ""
  }

  /** The text for `$Formats`: the plugin registered on the engine, with the
      options' JSON or `undefined`, exactly when formats are enabled. */
  function FormatsText(addFormats: bool, formatOptions: Option<FormatOptions>): (r: string)
    ensures !addFormats <==> r == ""
    ensures addFormats && formatOptions.None? ==> r == "addFormats(ajv, undefined);"
    ensures addFormats && formatOptions.Some? ==> r == "addFormats(ajv, " + formatOptions.value + ");"
    ensures addFormats && formatOptions.Some? && '$' !in formatOptions.value ==> '$' !in r
  {
    if addFormats then FormatsCallStart + formatOptions.GetOr(Undefined) + FormatsCallEnd else ""
  }

  /** The unformatted `decoders.ts`: `$Imports`, `$Formats`, `$ModelImports`
      and `$Decoders` replaced in that order. */
  function RawCompileDecoders(names: seq<string>, addFormats: bool, formatOptions: Option<FormatOptions>,
                              c: Collaborators): string
  {
    Fill(Flatten(DecodersFileTemplate),
         [ (Imports, ImportsText(addFormats)),
           (Formats, FormatsText(addFormats, formatOptions)),
           (ModelImports, CommaSeparated(names)),
           (Decoders, DecoderBlocks(names, c)) ])
  }

  lemma DecodersFileFill(im: string, fm: string, mi: string, ds: string)
    requires '$' !in im && '$' !in fm && '$' !in mi
    ensures Fill(Flatten(DecodersFileTemplate), [(Imports, im), (Formats, fm), (ModelImports, mi), (Decoders, ds)])
      == (("\n/* eslint-disable */\n\n" + "import Ajv from 'ajv';\n") + im + "\n")
       + (("import { Decoder } from " + "'./helpers';\n") + ("import { validateJson } from " + "'./validate';\n"))
       + ("import { " + mi + " } from './models';\n")
       + ("import jsonSchema from " + "'./schema.json';\n\n")
       + (("const ajv = new Ajv(" + "{ strict: false });\n") + "ajv.compile(jsonSchema);\n" + fm + "\n")
       + ("\n// Decoders\n" + ds + "\n")
  {
    var subs := [(Imports, im), (Formats, fm), (ModelImports, mi), (Decoders, ds)];
    LookupBound(subs, 1);
    LookupBound(subs, 2);
    LookupBound(subs, 3);
    FillRendersTemplate(DecodersFileTemplate, subs);
    CompileFileShape(FileHeader, LineBreak, HelpersImport, ValidateImport, ModelsImportStart, ModelsImportEnd,
                     SchemaImport, EngineSetup, SchemaCompile, DecodersHeading, subs, im, mi, fm, ds);
  }

  /** The file imports the engine, the format plugin exactly when formats
      are enabled, the helpers, the validation function and the models of all
      definitions (in definition order, comma separated), compiles the schema,
      registers the plugin when enabled, and ends with the decoders. The
      definition names and the plugin options must not contain `$`. */
  lemma CompileDecodersFileText(names: seq<string>, addFormats: bool, formatOptions: Option<FormatOptions>,
                                c: Collaborators)
    requires forall n :: n in names ==> '$' !in n
    requires addFormats && formatOptions.Some? ==> '$' !in formatOptions.value
    ensures RawCompileDecoders(names, addFormats, formatOptions, c)
      == (("\n/* eslint-disable */\n\n" + "import Ajv from 'ajv';\n") + ImportsText(addFormats) + "\n")
       + (("import { Decoder } from " + "'./helpers';\n") + ("import { validateJson } from " + "'./validate';\n"))
       + ("import { " + Join(names, ", ") + " } from './models';\n")
       + ("import jsonSchema from " + "'./schema.json';\n\n")
       + (("const ajv = new Ajv(" + "{ strict: false });\n") + "ajv.compile(jsonSchema);\n" + FormatsText(addFormats, formatOptions) + "\n")
       + ("\n// Decoders\n" + DecoderBlocks(names, c) + "\n")
  {
    var im, fm, mi, ds := ImportsText(addFormats), FormatsText(addFormats, formatOptions),
                          CommaSeparated(names), DecoderBlocks(names, c);
    DecodersFileFill(im, fm, mi, ds);
  }

  // ---------------------------------------------------------------------------
  // The strategy.

  /** `generateCompileBasedDecoders`: the formatted file, written as
      `decoders.ts` into every output directory. */
  function GenerateCompileBasedDecoders(
    names: seq<string>, addFormats: bool, formatOptions: Option<FormatOptions>,
    outDirs: seq<string>, prettier: PrettierOptions, c: Collaborators): (r: seq<FileWrite>)
    ensures forall w :: w in r ==> w.dir in outDirs && w.file.path == ["decoders.ts"]
  {
    var content := c.format(RawCompileDecoders(names, addFormats, formatOptions, c), prettier);
    FanOut(outDirs, [Artifact(["decoders.ts"], content)])
  }

  /** Every output directory receives exactly one file, `decoders.ts`, with
      the formatted text of the whole file; nothing is written anywhere else. */
  lemma CompileBasedWrites(
    names: seq<string>, addFormats: bool, formatOptions: Option<FormatOptions>,
    outDirs: seq<string>, prettier: PrettierOptions, c: Collaborators, d: string)
    ensures var content := c.format(RawCompileDecoders(names, addFormats, formatOptions, c), prettier);
            var writes := GenerateCompileBasedDecoders(names, addFormats, formatOptions, outDirs, prettier, c);
            && WrittenTo(writes, d) == (if d in outDirs then {Artifact(["decoders.ts"], content)} else {})
            && forall w :: w in writes ==> w.file == Artifact(["decoders.ts"], content)
  {
    var content := c.format(RawCompileDecoders(names, addFormats, formatOptions, c), prettier);
    FanOutDirectories(outDirs, [Artifact(["decoders.ts"], content)], d);
  }
}
