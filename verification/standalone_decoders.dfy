/**
  The standalone strategies (`generateStandaloneDecoders` and
  `generateStandaloneMergedDecoders`): decoders that call validators the
  validation engine has emitted ahead of time, either one decoder and one
  validator file per definition, each in its own directory, with an index
  re-exporting the decoders, or all decoders in one file and all validators
  in another.
 */
module StandaloneDecoders {

  import opened Optional
  import opened Strings
  import opened Templates
  import opened Config
  import opened Artifacts
  import opened DecoderTexts
  import opened Linkage
  import opened StandaloneValidators

  // ---------------------------------------------------------------------------
  // The decoder of one definition (`decoderTemplate`).

  /** The standalone decoder object (src/generate/generate-standalone-decoders.ts:228-235), with the
      fixed text around its placeholders as parameters, named after the piece of the template
      each stands for. Lines 228-232 (the declaration, the `definitionName` and `schemaRef`
      fields and the `decode` head) share their texts with the compile-based decoder; the
      `return` line and closing braces (233-235) wrap the validator name in `validatorCast`.
      `StandaloneDecoderBody` passes the constants in that order. */
  function StandaloneBody(
    exportHead: Chunk, decoderType: Chunk, objectOpen: Chunk,
    nameField: Chunk, nameEnd: Chunk, refField: Chunk, refEnd: Chunk, decodeHead: Chunk, decodeOpen: Chunk,
    returnHead: Chunk, validatorCast: Chunk, returnEnd: Chunk): Template
  {
    [Text(exportHead), Hole(DecoderName), Text(decoderType), Hole(Class), Text(objectOpen)]
    + [Text(nameField), Hole(Class), Text(nameEnd)]
    + [Text(refField), Hole(Class), Text(refEnd)]
    + [Text(decodeHead), Hole(Class), Text(decodeOpen)]
    + [Text(returnHead), Hole(ValidatorName), Text(validatorCast), Hole(DecoderName), Text(returnEnd)]
  }

  lemma StandaloneBodyShape(
    exportHead: Chunk, decoderType: Chunk, objectOpen: Chunk,
    nameField: Chunk, nameEnd: Chunk, refField: Chunk, refEnd: Chunk, decodeHead: Chunk, decodeOpen: Chunk,
    returnHead: Chunk, validatorCast: Chunk, returnEnd: Chunk,
    subs: Substitution, dn: string, name: string, vn: string)
    requires Lookup(subs, DecoderName) == Some(dn)
    requires Lookup(subs, Class) == Some(name)
    requires Lookup(subs, ValidatorName) == Some(vn)
    ensures Render(StandaloneBody(exportHead, decoderType, objectOpen, nameField, nameEnd, refField, refEnd,
                                  decodeHead, decodeOpen, returnHead, validatorCast, returnEnd), subs)
            == (exportHead + dn + decoderType + name + objectOpen)
             + (nameField + name + nameEnd)
             + (refField + name + refEnd)
             + (decodeHead + name + decodeOpen)
             + (returnHead + vn + validatorCast + dn + returnEnd)
  {
    var l0 := [Text(exportHead), Hole(DecoderName), Text(decoderType), Hole(Class), Text(objectOpen)];
    var l1 := [Text(nameField), Hole(Class), Text(nameEnd)];
    var l2 := [Text(refField), Hole(Class), Text(refEnd)];
    var l3 := [Text(decodeHead), Hole(Class), Text(decodeOpen)];
    var l4 := [Text(returnHead), Hole(ValidatorName), Text(validatorCast), Hole(DecoderName), Text(returnEnd)];
    RenderOf5(Text(exportHead), Hole(DecoderName), Text(decoderType), Hole(Class), Text(objectOpen), subs);
    RenderOf3(Text(nameField), Hole(Class), Text(nameEnd), subs);
    RenderOf3(Text(refField), Hole(Class), Text(refEnd), subs);
    RenderOf3(Text(decodeHead), Hole(Class), Text(decodeOpen), subs);
    RenderOf5(Text(returnHead), Hole(ValidatorName), Text(validatorCast), Hole(DecoderName), Text(returnEnd), subs);
    RenderAppend(l0 + l1 + l2 + l3, l4, subs);
    RenderAppend(l0 + l1 + l2, l3, subs);
    RenderAppend(l0 + l1, l2, subs);
    RenderAppend(l0, l1, subs);
  }
  const ValidatorCast: Chunk := " as Validator, "

  const StandaloneDecoderBody: Template :=
    StandaloneBody(DeclarationStart, DecoderType, ObjectOpen, DefinitionNameField, FieldEnd, SchemaRefField,
                   LastFieldEnd, DecodeSignature, BlockOpen, ValidateStart, ValidatorCast, DecoderEnd)

  /** `decoderTemplate`. */
  const StandaloneDecoderTemplate: Template := Framed(StandaloneDecoderBody)

  /** The decoder a definition should get, written out: the object `dn`,
      typed by and named after the definition `name`, pointing at
      `#/definitions/<name>`, whose `decode` hands the JSON to the
      precompiled validator `vn` together with the definition's name. */
  function DecoderText(dn: string, name: string, vn: string): string
  {
    ("export const " + dn + ": Decoder<" + name + "> = {\n")
    + ("  definitionName: '" + name + "',\n")
    + ("  schemaRef: '#/definitions/" + name + "',\n\n")
    + ("  decode(json: unknown): " + name + " {\n")
    + ("    return validateJson(json, " + vn + " as Validator, " + dn + ".definitionName);\n  }\n}")
  }

  /** Whatever else a substitution binds, rendering the decoder with the
      decoder name, class and validator name bound gives the decoder text. */
  lemma StandaloneBodyText(subs: Substitution, dn: string, name: string, vn: string)
    requires Lookup(subs, DecoderName) == Some(dn)
    requires Lookup(subs, Class) == Some(name)
    requires Lookup(subs, ValidatorName) == Some(vn)
    ensures Render(StandaloneDecoderBody, subs) == DecoderText(dn, name, vn)
  {
    StandaloneBodyShape(DeclarationStart, DecoderType, ObjectOpen, DefinitionNameField, FieldEnd, SchemaRefField,
                        LastFieldEnd, DecodeSignature, BlockOpen, ValidateStart, ValidatorCast, DecoderEnd,
                        subs, dn, name, vn);
  }

  // ---------------------------------------------------------------------------
  // The merged decoders file (`mergedDecodersFileTemplate`).

  /** One merged decoder: the template with `$DecoderName`, `$Class` and
      `$ValidatorName` replaced in that order for the definition `name`,
      trimmed. */
  function MergedDecoderBlock(name: string, c: Collaborators): string
  {
    Trim(Fill(Flatten(StandaloneDecoderTemplate),
              [(DecoderName, c.decoderName(name)), (Class, name), (ValidatorName, c.validatorName(name))]))
  }

  /** Each merged decoder is exactly the decoder the definition should get.
      The decoder name and the definition name must not contain `$`, since
      later placeholders are replaced after they are inserted. */
  lemma MergedDecoderBlockText(name: string, c: Collaborators)
    requires '$' !in c.decoderName(name) && '$' !in name
    ensures MergedDecoderBlock(name, c) == DecoderText(c.decoderName(name), name, c.validatorName(name))
  {
    var dn, vn := c.decoderName(name), c.validatorName(name);
    var subs := [(DecoderName, dn), (Class, name), (ValidatorName, vn)];
    LookupBound(subs, 1);
    LookupBound(subs, 2);
    FillRendersTemplate(StandaloneDecoderTemplate, subs);
    TrimFramedTemplate(StandaloneDecoderBody, subs);
    StandaloneBodyText(subs, dn, name, vn);
  }

  /** The merged decoders of all definitions joined by line breaks. */
  function MergedDecoderBlocks(names: seq<string>, c: Collaborators): string
  {
    Join(Map(names, name => MergedDecoderBlock(name, c)), "\n")
  }

  /** One decoder per definition, in definition order, a line break apart. */
  lemma MergedBlocksInOrder(names: seq<string>, c: Collaborators, i: nat)
    requires i < |names|
    ensures MergedDecoderBlocks(names, c)
      == (if i == 0 then "" else MergedDecoderBlocks(names[..i], c) + "\n")
         + MergedDecoderBlock(names[i], c)
         + (if i + 1 == |names| then "" else "\n" + MergedDecoderBlocks(names[i + 1..], c))
  {
    JoinMapLayout(names, name => MergedDecoderBlock(name, c), "\n", i);
  }

  /** The merged standalone decoders file (src/generate/generate-standalone-decoders.ts:260-269),
      with its fixed texts and the import extension `ext` as parameters, named after the piece
      of the template each stands for: the indented banner (260-262), the helper import up to the
      extension (263), the `';` and line break that end each import, the validation import
      (264), the model import around `$ModelImports` (265), the indentation before
      `$ValidatorImports` (266), the gap before `$Decoders` (267-268), and the closing line
      break (269). `MergedFileTemplate` passes the constants in that order. */
  function MergedFile(
    banner: Chunk, helpersImport: Chunk, ext: Chunk, importEnd: Chunk, validateImport: Chunk,
    modelsHead: Chunk, modelsFrom: Chunk, indent: Chunk, decodersGap: Chunk, closing: Chunk): Template
  {
    [Text(banner), Text(helpersImport), Text(ext), Text(importEnd)]
    + [Text(validateImport), Text(ext), Text(importEnd)]
    + [Text(modelsHead), Hole(ModelImports), Text(modelsFrom), Text(ext), Text(importEnd)]
    + [Text(indent), Hole(ValidatorImports), Text(decodersGap), Hole(Decoders), Text(closing)]
  }

  lemma MergedFileShape(
    banner: Chunk, helpersImport: Chunk, ext: Chunk, importEnd: Chunk, validateImport: Chunk,
    modelsHead: Chunk, modelsFrom: Chunk, indent: Chunk, decodersGap: Chunk, closing: Chunk,
    subs: Substitution, models: string, imports: string, decoders: string)
    requires Lookup(subs, ModelImports) == Some(models)
    requires Lookup(subs, ValidatorImports) == Some(imports)
    requires Lookup(subs, Decoders) == Some(decoders)
    ensures Render(MergedFile(banner, helpersImport, ext, importEnd, validateImport,
                              modelsHead, modelsFrom, indent, decodersGap, closing), subs)
            == (banner + helpersImport + ext + importEnd)
             + (validateImport + ext + importEnd)
             + (modelsHead + models + modelsFrom + ext + importEnd)
             + (indent + imports + decodersGap + decoders + closing)
  {
    var l0 := [Text(banner), Text(helpersImport), Text(ext), Text(importEnd)];
    var l1 := [Text(validateImport), Text(ext), Text(importEnd)];
    var l2 := [Text(modelsHead), Hole(ModelImports), Text(modelsFrom), Text(ext), Text(importEnd)];
    var l3 := [Text(indent), Hole(ValidatorImports), Text(decodersGap), Hole(Decoders), Text(closing)];
    RenderOf4(Text(banner), Text(helpersImport), Text(ext), Text(importEnd), subs);
    RenderOf3(Text(validateImport), Text(ext), Text(importEnd), subs);
    RenderOf5(Text(modelsHead), Hole(ModelImports), Text(modelsFrom), Text(ext), Text(importEnd), subs);
    RenderOf5(Text(indent), Hole(ValidatorImports), Text(decodersGap), Hole(Decoders), Text(closing), subs);
    RenderAppend(l0 + l1 + l2, l3, subs);
    RenderAppend(l0 + l1, l2, subs);
    RenderAppend(l0, l1, subs);
  }
  const MergedBanner: Chunk := "\n  /* eslint-disable */\n  \n"
  const MergedHelpersImport: Chunk := "  import { Decoder } from " + "'./helpers"
  const ImportEnd: Chunk := "';\n"
  const MergedValidateImport: Chunk := "  import { validateJson, " + "Validator } from './validate"
  const IndentedImport: Chunk := "  import { "
  const MergedModelsFrom: Chunk := " } from './models"
  const Indent: Chunk := "  "
  const MergedGap: Chunk := "\n  \n  "
  const IndentedLineBreak: Chunk := "\n  "

  /** `mergedDecodersFileTemplate(esm)`. */
  function MergedFileTemplate(esm: bool): Template
  {
    MergedFile(MergedBanner, MergedHelpersImport, ImportExtension(esm), ImportEnd, MergedValidateImport,
               IndentedImport, MergedModelsFrom, Indent, MergedGap, IndentedLineBreak)
  }

  /** The validators a merged file imports: the validator names of the
      definitions, comma separated. */
  function ValidatorImportList(names: seq<string>, c: Collaborators): string
  {
    CommaSeparated(Map(names, c.validatorName))
  }

  /** The unformatted merged `decoders.ts`: `$ValidatorImports`,
      `$ModelImports` and `$Decoders` replaced in that order. */
  function RawMergedDecoders(names: seq<string>, output: ValidatorOutput, esm: bool, c: Collaborators): string
  {
    Fill(Flatten(MergedFileTemplate(esm)),
         [ (ValidatorImports, ValidatorImportStatement(ValidatorImportList(names, c), output, true, esm)),
           (ModelImports, CommaSeparated(names)),
           (Decoders, MergedDecoderBlocks(names, c)) ])
  }

  lemma MergedFileFill(esm: bool, imports: string, models: string, decoders: string)
    requires '$' !in imports && '$' !in models
    ensures Fill(Flatten(MergedFileTemplate(esm)),
                 [(ValidatorImports, imports), (ModelImports, models), (Decoders, decoders)])
      == ("\n  /* eslint-disable */\n  \n" + ("  import { Decoder } from " + "'./helpers") + ImportExtension(esm) + "';\n")
       + (("  import { validateJson, " + "Validator } from './validate") + ImportExtension(esm) + "';\n")
       + ("  import { " + models + " } from './models" + ImportExtension(esm) + "';\n")
       + ("  " + imports + "\n  \n  " + decoders + "\n  ")
  {
    var subs := [(ValidatorImports, imports), (ModelImports, models), (Decoders, decoders)];
    LookupBound(subs, 1);
    LookupBound(subs, 2);
    FillRendersTemplate(MergedFileTemplate(esm), subs);
    MergedFileShape(MergedBanner, MergedHelpersImport, ImportExtension(esm), ImportEnd, MergedValidateImport,
                    IndentedImport, MergedModelsFrom, Indent, MergedGap, IndentedLineBreak,
                    subs, models, imports, decoders);
  }

  /** The merged file imports the helpers, the validation function, the
      models of all definitions (comma separated, in order) and, by the
      statement the output mode and ESM flag fix, the validators of all
      definitions from the shared validator file; then come the decoders.
      Definition and validator names must not contain `$`. */
  lemma MergedDecodersText(names: seq<string>, output: ValidatorOutput, esm: bool, c: Collaborators)
    requires forall n :: n in names ==> '$' !in n && '$' !in c.validatorName(n)
    ensures RawMergedDecoders(names, output, esm, c)
      == ("\n  /* eslint-disable */\n  \n" + ("  import { Decoder } from " + "'./helpers") + ImportExtension(esm) + "';\n")
       + (("  import { validateJson, " + "Validator } from './validate") + ImportExtension(esm) + "';\n")
       + ("  import { " + Join(names, ", ") + " } from './models" + ImportExtension(esm) + "';\n")
       + ("  " + ValidatorImportStatement(Join(Map(names, c.validatorName), ", "), output, true, esm)
          + "\n  \n  " + MergedDecoderBlocks(names, c) + "\n  ")
  {
    var vns := Map(names, c.validatorName);
    forall v | v in vns
      ensures '$' !in v
    {
      var i :| 0 <= i < |vns| && vns[i] == v;
      assert names[i] in names;
    }
    var list := CommaSeparated(vns);
    StatementAvoids(list, output, true, esm);
    MergedFileFill(esm, ValidatorImportStatement(list, output, true, esm), CommaSeparated(names),
                   MergedDecoderBlocks(names, c));
  }

  // ---------------------------------------------------------------------------
  // The per-definition decoder file (`decoderFileTemplate`).

  /** The file of one standalone decoder (src/generate/generate-standalone-decoders.ts:240-249)
      around an embedded decoder template, with its fixed texts and the import extension `ext` as
      parameters, named after the piece of the template each stands for: the indented banner
      (240-242), the helper import up to the extension (243), the `';` and line break that end
      each import, the validation import (244), the model import around `$Class` (245), the
      indentation before `$ValidatorImports` (246), the gap before the embedded decoder
      (247-248), the decoder template itself, and the closing line break (249).
      `DecoderFileTemplate` passes the constants in that order. */
  function DecoderFile(
    banner: Chunk, helpersImport: Chunk, ext: Chunk, importEnd: Chunk, validateImport: Chunk,
    modelHead: Chunk, modelFrom: Chunk, indent: Chunk, decoderGap: Chunk, decoder: Template, closing: Chunk): Template
  {
    [Text(banner), Text(helpersImport), Text(ext), Text(importEnd)]
    + [Text(validateImport), Text(ext), Text(importEnd)]
    + [Text(modelHead), Hole(Class), Text(modelFrom), Text(ext), Text(importEnd)]
    + [Text(indent), Hole(ValidatorImports), Text(decoderGap)]
    + decoder
    + [Text(closing)]
  }

  lemma DecoderFileShape(
    banner: Chunk, helpersImport: Chunk, ext: Chunk, importEnd: Chunk, validateImport: Chunk,
    modelHead: Chunk, modelFrom: Chunk, indent: Chunk, decoderGap: Chunk, decoder: Template, closing: Chunk,
    subs: Substitution, name: string, imports: string)
    requires Lookup(subs, Class) == Some(name)
    requires Lookup(subs, ValidatorImports) == Some(imports)
    ensures Render(DecoderFile(banner, helpersImport, ext, importEnd, validateImport,
                               modelHead, modelFrom, indent, decoderGap, decoder, closing), subs)
            == (banner + helpersImport + ext + importEnd)
             + (validateImport + ext + importEnd)
             + (modelHead + name + modelFrom + ext + importEnd)
             + (indent + imports + decoderGap)
             + Render(decoder, subs)
             + closing
  {
    var l0 := [Text(banner), Text(helpersImport), Text(ext), Text(importEnd)];
    var l1 := [Text(validateImport), Text(ext), Text(importEnd)];
    var l2 := [Text(modelHead), Hole(Class), Text(modelFrom), Text(ext), Text(importEnd)];
    var l3 := [Text(indent), Hole(ValidatorImports), Text(decoderGap)];
    var l4 := decoder;
    var l5 := [Text(closing)];
    RenderOf4(Text(banner), Text(helpersImport), Text(ext), Text(importEnd), subs);
    RenderOf3(Text(validateImport), Text(ext), Text(importEnd), subs);
    RenderOf5(Text(modelHead), Hole(Class), Text(modelFrom), Text(ext), Text(importEnd), subs);
    RenderOf3(Text(indent), Hole(ValidatorImports), Text(decoderGap), subs);
    RenderOf1(Text(closing), subs);
    RenderAppend(l0 + l1 + l2 + l3 + l4, l5, subs);
    RenderAppend(l0 + l1 + l2 + l3, l4, subs);
    RenderAppend(l0 + l1 + l2, l3, subs);
    RenderAppend(l0 + l1, l2, subs);
    RenderAppend(l0, l1, subs);
  }
  const IndentedBanner: Chunk := "\n  /* eslint-disable */\n\n"
  const HelpersImport: Chunk := "  import { Decoder } from " + "'../../helpers"
  const ValidateImport: Chunk := "  import { validateJson, " + "Validator } from '../../validate"
  const ModelsFrom: Chunk := " } from '../../models"
  const ImportsGap: Chunk := "\n\n  "

  /** `decoderFileTemplate(esm)`: the decoder template is inserted into the
      file template before any placeholder is replaced. */
  function DecoderFileTemplate(esm: bool): Template
  {
    DecoderFile(IndentedBanner, HelpersImport, ImportExtension(esm), ImportEnd, ValidateImport, IndentedImport,
                ModelsFrom, Indent, ImportsGap, StandaloneDecoderTemplate, IndentedLineBreak)
  }

  /** The unformatted `decoder.ts` of the definition `name`: `$DecoderName`,
      `$Class`, `$ValidatorImports` and `$ValidatorName` replaced in that
      order. */
  function RawDecoderFile(name: string, output: ValidatorOutput, esm: bool, c: Collaborators): string
  {
    var vn := c.validatorName(name);
    Fill(Flatten(DecoderFileTemplate(esm)),
         [ (DecoderName, c.decoderName(name)),
           (Class, name),
           (ValidatorImports, ValidatorImportStatement(vn, output, false, esm)),
           (ValidatorName, vn) ])
  }

  lemma DecoderFileFill(esm: bool, dn: string, name: string, imports: string, vn: string)
    requires '$' !in dn && '$' !in name && '$' !in imports
    ensures Fill(Flatten(DecoderFileTemplate(esm)),
                 [(DecoderName, dn), (Class, name), (ValidatorImports, imports), (ValidatorName, vn)])
      == ("\n  /* eslint-disable */\n\n" + ("  import { Decoder } from " + "'../../helpers") + ImportExtension(esm) + "';\n")
       + (("  import { validateJson, " + "Validator } from '../../validate") + ImportExtension(esm) + "';\n")
       + ("  import { " + name + " } from '../../models" + ImportExtension(esm) + "';\n")
       + ("  " + imports + "\n\n  ")
       + ("\n" + DecoderText(dn, name, vn) + "\n")
       + "\n  "
  {
    var subs := [(DecoderName, dn), (Class, name), (ValidatorImports, imports), (ValidatorName, vn)];
    LookupBound(subs, 1);
    LookupBound(subs, 2);
    LookupBound(subs, 3);
    FillRendersTemplate(DecoderFileTemplate(esm), subs);
    DecoderFileShape(IndentedBanner, HelpersImport, ImportExtension(esm), ImportEnd, ValidateImport, IndentedImport,
                     ModelsFrom, Indent, ImportsGap, StandaloneDecoderTemplate, IndentedLineBreak,
                     subs, name, imports);
    RenderFramed(StandaloneDecoderBody, subs);
    StandaloneBodyText(subs, dn, name, vn);
  }

  /** The decoder file of a definition imports the helpers, the validation
      function and the definition's model, then, by the statement the output
      mode and ESM flag fix, its own validator from the validator file next
      to it; then comes the decoder the definition should get. The decoder,
      definition and validator names must not contain `$`. */
  lemma DecoderFileText(name: string, output: ValidatorOutput, esm: bool, c: Collaborators)
    requires '$' !in c.decoderName(name) && '$' !in name && '$' !in c.validatorName(name)
    ensures var vn := c.validatorName(name);
      RawDecoderFile(name, output, esm, c)
      == ("\n  /* eslint-disable */\n\n" + ("  import { Decoder } from " + "'../../helpers") + ImportExtension(esm) + "';\n")
       + (("  import { validateJson, " + "Validator } from '../../validate") + ImportExtension(esm) + "';\n")
       + ("  import { " + name + " } from '../../models" + ImportExtension(esm) + "';\n")
       + ("  " + ValidatorImportStatement(vn, output, false, esm) + "\n\n  ")
       + ("\n" + DecoderText(c.decoderName(name), name, vn) + "\n")
       + "\n  "
  {
    var vn := c.validatorName(name);
    StatementAvoids(vn, output, false, esm);
    DecoderFileFill(esm, c.decoderName(name), name, ValidatorImportStatement(vn, output, false, esm), vn);
  }

  // ---------------------------------------------------------------------------
  // The index of the per-definition decoders (`decodersFileTemplate`).

  /** The index of the per-definition decoders (src/generate/generate-standalone-decoders.ts:252-256),
      with its fixed texts as parameters: the `banner` before `$Exports` and the `closing` line
      break. */
  function IndexFile(banner: Chunk, closing: Chunk): Template
  {
    [Text(banner), Hole(Exports), Text(closing)]
  }

  lemma IndexFileShape(banner: Chunk, closing: Chunk, subs: Substitution, exports: string)
    requires Lookup(subs, Exports) == Some(exports)
    ensures Render(IndexFile(banner, closing), subs)
            == (banner + exports + closing)
  {
    var l0 := [Text(banner), Hole(Exports), Text(closing)];
    RenderOf3(Text(banner), Hole(Exports), Text(closing), subs);
  }
  const Banner: Chunk := "\n/* eslint-disable */\n\n"

  const IndexTemplate: Template := IndexFile(Banner, LineBreak)

  /** The re-export of one definition's decoder from its directory. */
  function IndexLine(name: string, esm: bool, c: Collaborators): (r: string)
    ensures '\n' !in c.decoderName(name) && '\n' !in name ==> '\n' !in r
  {
    "export { " + c.decoderName(name) + " } from './" + name + "/decoder" + ImportExtension(esm) + "';"
  }

  /** The re-exports of all definitions, in definition order. */
  function IndexExports(names: seq<string>, esm: bool, c: Collaborators): seq<string>
  {
    Map(names, name => IndexLine(name, esm, c))
  }

  /** The unformatted `index.ts` listing `exports`. */
  function RawIndex(exports: seq<string>): string
  {
    Fill(Flatten(IndexTemplate), [(Exports, Join(exports, "\n"))])
  }

  /** The index is the lint banner, the re-exports one per line, and a
      closing line break. */
  lemma RawIndexText(exports: seq<string>)
    ensures RawIndex(exports) == "\n/* eslint-disable */\n\n" + Join(exports, "\n") + "\n"
  {
    var subs := [(Exports, Join(exports, "\n"))];
    FillRendersTemplate(IndexTemplate, subs);
    IndexFileShape(Banner, LineBreak, subs, Join(exports, "\n"));
  }

  /** Read back line by line, the index re-exports the decoder of every
      definition, one per line, in definition order, each from the
      definition's own directory. */
  lemma IndexLinesInOrder(names: seq<string>, esm: bool, c: Collaborators)
    requires |names| > 0
    requires forall n :: n in names ==> '\n' !in n && '\n' !in c.decoderName(n)
    ensures var lines := Split(Join(IndexExports(names, esm, c), "\n"), '\n');
            && |lines| == |names|
            && forall i :: 0 <= i < |names| ==>
                 lines[i] == "export { " + c.decoderName(names[i]) + " } from './" + names[i] + "/decoder"
                             + (if esm then ".js" else "") + "';"
  {
    var parts := IndexExports(names, esm, c);
    forall i | 0 <= i < |parts|
      ensures '\n' !in parts[i]
    {
      assert names[i] in names;
      assert parts[i] == IndexLine(names[i], esm, c);
    }
    SplitJoin(parts, '\n');
    forall i | 0 <= i < |names|
      ensures parts[i] == "export { " + c.decoderName(names[i]) + " } from './" + names[i] + "/decoder"
                          + (if esm then ".js" else "") + "';"
    {
      assert parts[i] == IndexLine(names[i], esm, c);
    }
  }

  /** The re-exports recorded by the time the index is assembled. Each
      per-definition callback suspends at its first `await`, before it
      records its re-export, and the index is assembled right after the loop
      has started every callback, so none has been recorded yet. */
  function ExportsAtAssembly(names: seq<string>, esm: bool, c: Collaborators): (r: seq<string>)
    ensures |r| <= |IndexExports(names, esm, c)|
  {
    []
  }

  /** As written, the index of a non-empty definition list re-exports
      nothing: it is the lint banner and two line breaks, while the intended
      index holds a re-export per definition. */
  lemma IndexAsWrittenIsEmpty(names: seq<string>, esm: bool, c: Collaborators)
    requires |names| > 0
    ensures RawIndex(ExportsAtAssembly(names, esm, c)) == "\n/* eslint-disable */\n\n\n"
    ensures RawIndex(ExportsAtAssembly(names, esm, c)) != RawIndex(IndexExports(names, esm, c))
  {
    var intended := IndexExports(names, esm, c);
    RawIndexText([]);
    RawIndexText(intended);
    JoinLayout(intended, "\n", 0);
    var full := RawIndex(intended);
    assert |full| > |RawIndex([])| by {
      assert |IndexLine(names[0], esm, c)| > 0;
    }
  }

  // ---------------------------------------------------------------------------
  // The strategies and the files they write.

  /** What the files of one definition hold. */
  datatype DefinitionContents = DefinitionContents(decoder: string, validator: string, declarations: string)

  /** The files of one definition below an output directory: its decoder and
      its validator and, for module output only, the validator's type
      declarations. */
  function DefinitionFiles(name: string, output: ValidatorOutput, contents: DefinitionContents): seq<Artifact>
  {
    [ Artifact(["decoders", name, "decoder.ts"], contents.decoder),
      Artifact(["decoders", name, "validator.js"], contents.validator) ]
    + (if output == Module then [Artifact(["decoders", name, "validator.d.ts"], contents.declarations)] else [])
  }

  /** The paths of the files of the definition `name`. */
  predicate DefinitionPath(name: string, output: ValidatorOutput, p: seq<string>)
  {
    || p == ["decoders", name, "decoder.ts"]
    || p == ["decoders", name, "validator.js"]
    || (output == Module && p == ["decoders", name, "validator.d.ts"])
  }

  /** A definition gets a decoder, a validator and, exactly for module
      output, type declarations. */
  lemma DefinitionFilePaths(name: string, output: ValidatorOutput, contents: DefinitionContents, p: seq<string>)
    ensures (exists a :: a in DefinitionFiles(name, output, contents) && a.path == p) <==> DefinitionPath(name, output, p)
  {
    var fs := DefinitionFiles(name, output, contents);
    if DefinitionPath(name, output, p) {
      if p == ["decoders", name, "decoder.ts"] {
        assert fs[0] in fs;
      } else if p == ["decoders", name, "validator.js"] {
        assert fs[1] in fs;
      } else {
        assert fs[2] in fs;
      }
    }
  }

  /** A file of the definition `name` sits in that definition's directory,
      and each file there holds its part of the definition's contents; the
      declarations exist only for module output. */
  lemma DefinitionFileAt(name: string, output: ValidatorOutput, contents: DefinitionContents, a: Artifact)
    requires a in DefinitionFiles(name, output, contents)
    ensures |a.path| == 3 && a.path[0] == "decoders" && a.path[1] == name
    ensures a.path[2] == "decoder.ts" ==> a.content == contents.decoder
    ensures a.path[2] == "validator.js" ==> a.content == contents.validator
    ensures a.path[2] == "validator.d.ts" ==> output == Module && a.content == contents.declarations
  {
  }

  /** The files of all definitions, definition by definition. */
  function AllDefinitionFiles(names: seq<string>, output: ValidatorOutput, contentsOf: string -> DefinitionContents)
    : (r: seq<Artifact>)
    ensures forall a :: a in r ==> exists n :: n in names && DefinitionPath(n, output, a.path)
    ensures forall n, p :: n in names && DefinitionPath(n, output, p) ==> exists a :: a in r && a.path == p
    ensures forall n, a :: n in names && a in DefinitionFiles(n, output, contentsOf(n)) ==> a in r
  {
    if |names| == 0 then []
    else
      var first := DefinitionFiles(names[0], output, contentsOf(names[0]));
      var rest := AllDefinitionFiles(names[1..], output, contentsOf);
      assert names == [names[0]] + names[1..];
      forall a | a in first + rest
        ensures exists n :: n in names && DefinitionPath(n, output, a.path)
      {
        if a in first {
          DefinitionFilePaths(names[0], output, contentsOf(names[0]), a.path);
        } else {
          var n :| n in names[1..] && DefinitionPath(n, output, a.path);
        }
      }
      forall n, p | n in names && DefinitionPath(n, output, p)
        ensures exists a :: a in first + rest && a.path == p
      {
        if n == names[0] {
          DefinitionFilePaths(names[0], output, contentsOf(names[0]), p);
          var a :| a in first && a.path == p;
          assert a in first + rest;
        } else {
          var a :| a in rest && a.path == p;
          assert a in first + rest;
        }
      }
      first + rest
  }

  /** Every file of all definitions is a file of one of them, content
      included: nothing else is listed. */
  lemma {:induction false} AllDefinitionFilesOrigin(
    names: seq<string>, output: ValidatorOutput, contentsOf: string -> DefinitionContents, a: Artifact)
    requires a in AllDefinitionFiles(names, output, contentsOf)
    ensures exists n :: n in names && a in DefinitionFiles(n, output, contentsOf(n))
  {
    if a !in DefinitionFiles(names[0], output, contentsOf(names[0])) {
      AllDefinitionFilesOrigin(names[1..], output, contentsOf, a);
      var n :| n in names[1..] && a in DefinitionFiles(n, output, contentsOf(n));
      assert n in names;
    }
  }

  /** Every definition's files and the index file, into every output
      directory. */
  function PerDefinitionWrites(
    names: seq<string>, output: ValidatorOutput, contentsOf: string -> DefinitionContents, index: string,
    outDirs: seq<string>): seq<FileWrite>
  {
    FanOut(outDirs, AllDefinitionFiles(names, output, contentsOf))
    + FanOut(outDirs, [Artifact(["decoders", "index.ts"], index)])
  }

  lemma PerDefinitionWritten(
    names: seq<string>, output: ValidatorOutput, contentsOf: string -> DefinitionContents, index: string,
    outDirs: seq<string>, d: string)
    ensures WrittenTo(PerDefinitionWrites(names, output, contentsOf, index, outDirs), d)
            == if d in outDirs
               then (set a | a in AllDefinitionFiles(names, output, contentsOf)) + {Artifact(["decoders", "index.ts"], index)}
               else {}
  {
    var files := AllDefinitionFiles(names, output, contentsOf);
    var indexFile := Artifact(["decoders", "index.ts"], index);
    WrittenToAppend(FanOut(outDirs, files), FanOut(outDirs, [indexFile]), d);
    FanOutDirectories(outDirs, files, d);
    FanOutDirectories(outDirs, [indexFile], d);
  }

  lemma PerDefinitionPaths(
    names: seq<string>, output: ValidatorOutput, contentsOf: string -> DefinitionContents, index: string,
    outDirs: seq<string>, d: string, p: seq<string>)
    ensures (exists a :: a in WrittenTo(PerDefinitionWrites(names, output, contentsOf, index, outDirs), d) && a.path == p)
            <==> d in outDirs && (p == ["decoders", "index.ts"] || exists n :: n in names && DefinitionPath(n, output, p))
  {
    var files := AllDefinitionFiles(names, output, contentsOf);
    PerDefinitionWritten(names, output, contentsOf, index, outDirs, d);
    if d in outDirs && exists n :: n in names && DefinitionPath(n, output, p) {
      var n :| n in names && DefinitionPath(n, output, p);
      var a :| a in files && a.path == p;
      assert a in (set a | a in files);
    }
  }

  lemma PerDefinitionDeclarationsWritten(
    names: seq<string>, output: ValidatorOutput, contentsOf: string -> DefinitionContents, index: string,
    outDirs: seq<string>, d: string)
    ensures (exists a :: a in WrittenTo(PerDefinitionWrites(names, output, contentsOf, index, outDirs), d)
                         && DeclarationFile(a.path))
            <==> d in outDirs && output == Module && |names| > 0
  {
    var files := AllDefinitionFiles(names, output, contentsOf);
    PerDefinitionWritten(names, output, contentsOf, index, outDirs, d);
    if d in outDirs && output == Module && |names| > 0 {
      var a := DefinitionFiles(names[0], output, contentsOf(names[0]))[2];
      assert a in files && DeclarationFile(a.path);
    }
    forall a | a in files && DeclarationFile(a.path)
      ensures output == Module
    {
      var n :| n in names && DefinitionPath(n, output, a.path);
    }
  }

  /** What the files of the definition `name` hold: the formatted decoder
      file, the standalone validator of that definition alone, and the
      declaration of its validator. */
  function ContentsOf(
    name: string, schema: ParsedSchema, formats: bool, formatOptions: Option<FormatOptions>,
    output: ValidatorOutput, esm: bool, prettier: PrettierOptions, c: Collaborators): DefinitionContents
  {
    DefinitionContents(
      c.format(RawDecoderFile(name, output, esm, c), prettier),
      StandaloneValidatorOutput(schema, [name], formats, formatOptions, output, prettier, c),
      ValidatorDeclarations([name], prettier, c))
  }

  /** `generateStandaloneDecoders`, with the index holding the re-exports of
      all definitions. */
  function GenerateStandaloneDecoders(
    names: seq<string>, schema: ParsedSchema, formats: bool, formatOptions: Option<FormatOptions>,
    output: ValidatorOutput, esm: bool, outDirs: seq<string>, prettier: PrettierOptions, c: Collaborators)
    : (r: seq<FileWrite>)
    ensures forall w :: w in r ==> w.dir in outDirs && |w.file.path| >= 2 && w.file.path[0] == "decoders"
  {
    var contentsOf := name => ContentsOf(name, schema, formats, formatOptions, output, esm, prettier, c);
    var files := AllDefinitionFiles(names, output, contentsOf);
    forall a | a in files
      ensures |a.path| >= 2 && a.path[0] == "decoders"
    {
      var n :| n in names && DefinitionPath(n, output, a.path);
    }
    PerDefinitionWrites(names, output, contentsOf, c.format(RawIndex(IndexExports(names, esm, c)), prettier), outDirs)
  }

  /** Below every output directory, and nowhere else, the per-definition
      strategy writes exactly the index `decoders/index.ts` and, for each
      definition, `decoders/<name>/decoder.ts`, `decoders/<name>/validator.js`
      and, exactly for module output, `decoders/<name>/validator.d.ts`. */
  lemma PerDefinitionLayout(
    names: seq<string>, schema: ParsedSchema, formats: bool, formatOptions: Option<FormatOptions>,
    output: ValidatorOutput, esm: bool, outDirs: seq<string>, prettier: PrettierOptions, c: Collaborators,
    d: string, p: seq<string>)
    ensures var writes := GenerateStandaloneDecoders(names, schema, formats, formatOptions, output, esm, outDirs, prettier, c);
      (exists a :: a in WrittenTo(writes, d) && a.path == p)
      <==> d in outDirs
           && (|| p == ["decoders", "index.ts"]
               || exists n :: n in names
                    && (|| p == ["decoders", n, "decoder.ts"]
                        || p == ["decoders", n, "validator.js"]
                        || (output == Module && p == ["decoders", n, "validator.d.ts"])))
  {
    PerDefinitionPaths(names, output, name => ContentsOf(name, schema, formats, formatOptions, output, esm, prettier, c),
                       c.format(RawIndex(IndexExports(names, esm, c)), prettier), outDirs, d, p);
  }

  lemma PerDefinitionHolds(
    names: seq<string>, output: ValidatorOutput, contentsOf: string -> DefinitionContents, index: string,
    outDirs: seq<string>, d: string, n: string)
    requires d in outDirs && n in names
    ensures var written := WrittenTo(PerDefinitionWrites(names, output, contentsOf, index, outDirs), d);
            && Artifact(["decoders", n, "decoder.ts"], contentsOf(n).decoder) in written
            && Artifact(["decoders", n, "validator.js"], contentsOf(n).validator) in written
            && (output == Module ==> Artifact(["decoders", n, "validator.d.ts"], contentsOf(n).declarations) in written)
            && Artifact(["decoders", "index.ts"], index) in written
  {
    var files := DefinitionFiles(n, output, contentsOf(n));
    DefinitionFileWritten(names, output, contentsOf, index, outDirs, d, n, files[0]);
    DefinitionFileWritten(names, output, contentsOf, index, outDirs, d, n, files[1]);
    if output == Module {
      DefinitionFileWritten(names, output, contentsOf, index, outDirs, d, n, files[2]);
    }
    PerDefinitionWritten(names, output, contentsOf, index, outDirs, d);
  }

  /** A file of a definition reaches every output directory. */
  lemma DefinitionFileWritten(
    names: seq<string>, output: ValidatorOutput, contentsOf: string -> DefinitionContents, index: string,
    outDirs: seq<string>, d: string, n: string, a: Artifact)
    requires d in outDirs && n in names && a in DefinitionFiles(n, output, contentsOf(n))
    ensures a in WrittenTo(PerDefinitionWrites(names, output, contentsOf, index, outDirs), d)
  {
    PerDefinitionWritten(names, output, contentsOf, index, outDirs, d);
    assert a in AllDefinitionFiles(names, output, contentsOf);
  }

  /** Every listed file lies in the directory of the definition it names,
      and holds that definition's content for its kind. */
  lemma ListedFileContent(
    names: seq<string>, output: ValidatorOutput, contentsOf: string -> DefinitionContents, a: Artifact)
    requires a in AllDefinitionFiles(names, output, contentsOf)
    ensures |a.path| == 3 && a.path[0] == "decoders"
    ensures a.path[2] == "decoder.ts" ==> a.content == contentsOf(a.path[1]).decoder
    ensures a.path[2] == "validator.js" ==> a.content == contentsOf(a.path[1]).validator
    ensures a.path[2] == "validator.d.ts" ==> a.content == contentsOf(a.path[1]).declarations
  {
    AllDefinitionFilesOrigin(names, output, contentsOf, a);
    var m :| m in names && a in DefinitionFiles(m, output, contentsOf(m));
    DefinitionFileAt(m, output, contentsOf(m), a);
  }

  /** No other content is written at the paths of a definition's files or
      at the index path. */
  lemma PerDefinitionOnly(
    names: seq<string>, output: ValidatorOutput, contentsOf: string -> DefinitionContents, index: string,
    outDirs: seq<string>, d: string, n: string)
    ensures var written := WrittenTo(PerDefinitionWrites(names, output, contentsOf, index, outDirs), d);
            && (forall a :: a in written && a.path == ["decoders", n, "decoder.ts"] ==> a.content == contentsOf(n).decoder)
            && (forall a :: a in written && a.path == ["decoders", n, "validator.js"] ==> a.content == contentsOf(n).validator)
            && (forall a :: a in written && a.path == ["decoders", n, "validator.d.ts"] ==> a.content == contentsOf(n).declarations)
            && (forall a :: a in written && a.path == ["decoders", "index.ts"] ==> a.content == index)
  {
    var files := AllDefinitionFiles(names, output, contentsOf);
    PerDefinitionWritten(names, output, contentsOf, index, outDirs, d);
    forall a | a in files
      ensures |a.path| == 3
      ensures a.path == ["decoders", n, "decoder.ts"] ==> a.content == contentsOf(n).decoder
      ensures a.path == ["decoders", n, "validator.js"] ==> a.content == contentsOf(n).validator
      ensures a.path == ["decoders", n, "validator.d.ts"] ==> a.content == contentsOf(n).declarations
    {
      ListedFileContent(names, output, contentsOf, a);
    }
  }

  /** The per-definition strategy writes type declarations into an output
      directory exactly for module output and at least one definition. */
  lemma PerDefinitionDeclarations(
    names: seq<string>, schema: ParsedSchema, formats: bool, formatOptions: Option<FormatOptions>,
    output: ValidatorOutput, esm: bool, outDirs: seq<string>, prettier: PrettierOptions, c: Collaborators,
    d: string)
    ensures var writes := GenerateStandaloneDecoders(names, schema, formats, formatOptions, output, esm, outDirs, prettier, c);
            (exists a :: a in WrittenTo(writes, d) && DeclarationFile(a.path))
            <==> d in outDirs && output == Module && |names| > 0
  {
    PerDefinitionDeclarationsWritten(
      names, output, name => ContentsOf(name, schema, formats, formatOptions, output, esm, prettier, c),
      c.format(RawIndex(IndexExports(names, esm, c)), prettier), outDirs, d);
  }

  /** Each definition's decoder file holds the formatted decoder file of
      that definition; its validator is compiled from that definition alone,
      and so are, for module output, its declarations; the index holds the
      formatted re-exports of all definitions. No path holds anything else. */
  lemma PerDefinitionContents(
    names: seq<string>, schema: ParsedSchema, formats: bool, formatOptions: Option<FormatOptions>,
    output: ValidatorOutput, esm: bool, outDirs: seq<string>, prettier: PrettierOptions, c: Collaborators,
    d: string, n: string)
    requires d in outDirs && n in names
    ensures var writes := GenerateStandaloneDecoders(names, schema, formats, formatOptions, output, esm, outDirs, prettier, c);
      var decoder := c.format(RawDecoderFile(n, output, esm, c), prettier);
      var validator := StandaloneValidatorOutput(schema, [n], formats, formatOptions, output, prettier, c);
      var declarations := ValidatorDeclarations([n], prettier, c);
      var index := c.format(RawIndex(IndexExports(names, esm, c)), prettier);
      && Artifact(["decoders", n, "decoder.ts"], decoder) in WrittenTo(writes, d)
      && Artifact(["decoders", n, "validator.js"], validator) in WrittenTo(writes, d)
      && (output == Module ==> Artifact(["decoders", n, "validator.d.ts"], declarations) in WrittenTo(writes, d))
      && Artifact(["decoders", "index.ts"], index) in WrittenTo(writes, d)
      && (forall a :: a in WrittenTo(writes, d) && a.path == ["decoders", n, "decoder.ts"] ==> a.content == decoder)
      && (forall a :: a in WrittenTo(writes, d) && a.path == ["decoders", n, "validator.js"] ==> a.content == validator)
      && (forall a :: a in WrittenTo(writes, d) && a.path == ["decoders", n, "validator.d.ts"] ==> a.content == declarations)
      && (forall a :: a in WrittenTo(writes, d) && a.path == ["decoders", "index.ts"] ==> a.content == index)
  {
    var contentsOf := name => ContentsOf(name, schema, formats, formatOptions, output, esm, prettier, c);
    var index := c.format(RawIndex(IndexExports(names, esm, c)), prettier);
    PerDefinitionHolds(names, output, contentsOf, index, outDirs, d, n);
    PerDefinitionOnly(names, output, contentsOf, index, outDirs, d, n);
  }

  /** The merged validator file: the standalone validator output, which is
      already wrapped in the file template and formatted, is wrapped in the
      template and formatted once more. */
  function MergedValidators(
    names: seq<string>, schema: ParsedSchema, formats: bool, formatOptions: Option<FormatOptions>,
    output: ValidatorOutput, prettier: PrettierOptions, c: Collaborators): (r: string)
    ensures r == c.format("\n/* eslint-disable */\n\n"
                          + StandaloneValidatorOutput(schema, names, formats, formatOptions, output, prettier, c) + "\n",
                          prettier)
  {
    var code := StandaloneValidatorOutput(schema, names, formats, formatOptions, output, prettier, c);
    ValidatorsFileText(code);
    c.format(ValidatorsFile(code), prettier)
  }

  /** The files of the merged strategy below an output directory: the
      decoders and the validators and, for module output only, the
      validators' type declarations. */
  function MergedFiles(output: ValidatorOutput, decoders: string, validators: string, declarations: string)
    : seq<Artifact>
  {
    [Artifact(["decoders.ts"], decoders), Artifact(["validators.js"], validators)]
    + (if output == Module then [Artifact(["validators.d.ts"], declarations)] else [])
  }

  /** `generateStandaloneMergedDecoders`. */
  function GenerateStandaloneMergedDecoders(
    names: seq<string>, schema: ParsedSchema, formats: bool, formatOptions: Option<FormatOptions>,
    output: ValidatorOutput, esm: bool, outDirs: seq<string>, prettier: PrettierOptions, c: Collaborators)
    : (r: seq<FileWrite>)
    ensures forall w :: w in r ==> w.dir in outDirs && |w.file.path| == 1
  {
    FanOut(outDirs, MergedFiles(output, c.format(RawMergedDecoders(names, output, esm, c), prettier),
                                MergedValidators(names, schema, formats, formatOptions, output, prettier, c),
                                ValidatorDeclarations(names, prettier, c)))
  }

  lemma MergedWritten(output: ValidatorOutput, decoders: string, validators: string, declarations: string,
                      outDirs: seq<string>, d: string)
    ensures WrittenTo(FanOut(outDirs, MergedFiles(output, decoders, validators, declarations)), d)
            == if d !in outDirs then {}
               else if output == Module
               then {Artifact(["decoders.ts"], decoders), Artifact(["validators.js"], validators),
                     Artifact(["validators.d.ts"], declarations)}
               else {Artifact(["decoders.ts"], decoders), Artifact(["validators.js"], validators)}
  {
    FanOutDirectories(outDirs, MergedFiles(output, decoders, validators, declarations), d);
  }

  /** Every output directory, and no other, receives `decoders.ts` and
      `validators.js` and, exactly for module output, `validators.d.ts`
      with the declarations of all definitions. */
  lemma MergedLayout(
    names: seq<string>, schema: ParsedSchema, formats: bool, formatOptions: Option<FormatOptions>,
    output: ValidatorOutput, esm: bool, outDirs: seq<string>, prettier: PrettierOptions, c: Collaborators,
    d: string)
    ensures var decoders := Artifact(["decoders.ts"], c.format(RawMergedDecoders(names, output, esm, c), prettier));
            var validators := Artifact(["validators.js"], MergedValidators(names, schema, formats, formatOptions, output, prettier, c));
            var declarations := Artifact(["validators.d.ts"], ValidatorDeclarations(names, prettier, c));
            WrittenTo(GenerateStandaloneMergedDecoders(names, schema, formats, formatOptions, output, esm, outDirs, prettier, c), d)
            == if d !in outDirs then {}
               else if output == Module then {decoders, validators, declarations}
               else {decoders, validators}
  {
    MergedWritten(output, c.format(RawMergedDecoders(names, output, esm, c), prettier),
                  MergedValidators(names, schema, formats, formatOptions, output, prettier, c),
                  ValidatorDeclarations(names, prettier, c), outDirs, d);
  }

  lemma MergedDeclarationsWritten(output: ValidatorOutput, decoders: string, validators: string,
                                  declarations: string, outDirs: seq<string>, d: string)
    ensures (exists a :: a in WrittenTo(FanOut(outDirs, MergedFiles(output, decoders, validators, declarations)), d)
                         && DeclarationFile(a.path))
            <==> d in outDirs && output == Module
  {
    MergedWritten(output, decoders, validators, declarations, outDirs, d);
    if d in outDirs && output == Module {
      assert DeclarationFile(Artifact(["validators.d.ts"], declarations).path);
    }
  }

  /** The merged strategy writes type declarations into an output
      directory exactly for module output. */
  lemma MergedDeclarations(
    names: seq<string>, schema: ParsedSchema, formats: bool, formatOptions: Option<FormatOptions>,
    output: ValidatorOutput, esm: bool, outDirs: seq<string>, prettier: PrettierOptions, c: Collaborators,
    d: string)
    ensures var writes := GenerateStandaloneMergedDecoders(names, schema, formats, formatOptions, output, esm, outDirs, prettier, c);
            (exists a :: a in WrittenTo(writes, d) && DeclarationFile(a.path)) <==> d in outDirs && output == Module
  {
    MergedDeclarationsWritten(output, c.format(RawMergedDecoders(names, output, esm, c), prettier),
                              MergedValidators(names, schema, formats, formatOptions, output, prettier, c),
                              ValidatorDeclarations(names, prettier, c), outDirs, d);
  }
}
