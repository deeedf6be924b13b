/**
  The generator's configuration and the collaborators it calls.

  Everything the generator delegates to code outside this model is a
  parameter: the two naming helpers, the code formatter, and the validation
  engine that compiles the schema and emits standalone validator code.
 */
module Config {

  import opened Optional

  /** How generated validator code links to the decoders: CommonJS
      (`require`) or ECMAScript modules (`import`/`export`). */
  datatype ValidatorOutput = CommonJs | Module

  /** Formatter settings, forwarded verbatim to the formatter. */
  type PrettierOptions = map<string, string>

  /** The formatter settings used when the caller gives none. */
  const DefaultPrettierOptions: PrettierOptions := map["parser" := "typescript"]

  /** The options of the format-validation plugin, represented by their JSON
      serialisation (the text `JSON.stringify` produces for them). */
  type FormatOptions = string

  /** The schema as the schema parser delivers it. */
  datatype ParsedSchema = ParsedSchema(
    definitionNames: seq<string>,              // the keys of its definitions, in key order
    json: string,                              // the serialised schema
    whitelistedDecoders: Option<seq<string>>)  // the schema's own decoder whitelist

  /** Code outside the model, as uninterpreted functions. No property of
      their results (injectivity, a naming suffix, a character set) is
      assumed unless a contract says so. Being functions, they are total and
      deterministic and never fail: a schema the engine rejects, text the
      formatter cannot parse, or an exception has no counterpart here. */
  datatype Collaborators = Collaborators(
    /** `createDecoderName` */
    decoderName: string -> string,
    /** `createValidatorName` */
    validatorName: string -> string,
    /** the code formatter */
    format: (string, PrettierOptions) -> string,
    /** compiles the serialised schema, with the format plugin and its options
        registered when `Some`, and emits standalone code exporting one
        validator per entry of the reference map */
    standaloneCode: (string, seq<(string, string)>, Option<Option<FormatOptions>>) -> string,
    /** turns every `exports.<name>Validator = <fn>` of CommonJS output into
        `export const <name>Validator = <fn>` */
    rewriteExports: string -> string)
}
