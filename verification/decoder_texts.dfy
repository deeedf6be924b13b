/**
  What the compile-based and the standalone decoders have in common: the
  opening of a decoder object (the declaration, the two metadata fields and
  the signature of `decode`, one source line per group), the two ends of the
  validation call, and the list of imported models.
 */
module DecoderTexts {

  import opened Strings
  import opened Templates

  // Longer texts here and in the template modules are written as a
  // concatenation of shorter literals; where a text is split carries no
  // meaning.

  const DeclarationStart: Chunk := "export const "
  const DecoderType: Chunk := ": Decoder<"
  const ObjectOpen: Chunk := "> = {\n"
  const DefinitionNameField: Chunk := "  definitionName: '"
  const FieldEnd: Chunk := "',\n"
  const SchemaRefField: Chunk := "  schemaRef: '#/definitions/"
  const LastFieldEnd: Chunk := "',\n\n"
  const DecodeSignature: Chunk := "  decode(json: unknown): "
  const BlockOpen: Chunk := " {\n"
  const LineBreak: Chunk := "\n"
  const ValidateStart: Chunk := "    return validateJson(json, "
  const DecoderEnd: Chunk := ".definitionName);\n  }\n}"

  /** Names as an import or require statement lists them: comma separated,
      in order. */
  function CommaSeparated(names: seq<string>): (r: string)
    ensures (forall n :: n in names ==> '$' !in n) ==> '$' !in r
  {
    var r := Join(names, ", ");
    if forall n :: n in names ==> '$' !in n then
      assert forall i :: 0 <= i < |names| ==> '$' !in names[i] by {
        forall i | 0 <= i < |names|
          ensures '$' !in names[i]
        {
          assert names[i] in names;
        }
      }
      JoinAvoids(names, ", ", '$');
      r
    else r
  }
}
