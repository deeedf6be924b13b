/**
  The standalone validator file (`standAloneValidatorOutput`) and its type
  declarations (`validatorDefinitionsOutput`).

  The validation engine is handed a reference map from validator names to
  schema references; it emits one exported validator per entry. For module
  output the CommonJS exports of that code are rewritten into `export const`
  declarations; CommonJS output is only wrapped in the file template.
 */
module StandaloneValidators {

  import opened Optional
  import opened Strings
  import opened Templates
  import opened Config

  /** Where a definition lives in the schema: `#/definitions/<name>`. */
  function SchemaRef(name: string): (r: string)
    ensures |r| == 14 + |name| && r[..14] == "#/definitions/" && r[14..] == name
  {
    "#/definitions/" + name
  }

  // ---------------------------------------------------------------------------
  // The reference map: a plain JavaScript object built by assignment. Its
  // keys are unique; a record lists them in the order they were created, and
  // a later assignment to an existing key replaces the value in place.
  // Assigning a string to `__proto__` goes to the setter inherited from
  // `Object.prototype`, which ignores anything but an object or null, so no
  // key is created. The record does not reorder array-index keys ("0", "12",
  // ...), which JavaScript enumerates before all other keys, in ascending
  // numeric order.

  type Record = seq<(string, string)>

  /** The one key whose assignment does not create a property. */
  const ProtoKey := "__proto__"

  function Keys(rec: Record): (r: seq<string>)
    ensures |r| == |rec|
  {
    if |rec| == 0 then [] else [rec[0].0] + Keys(rec[1..])
  }

  predicate UniqueKeys(rec: Record)
  {
    |rec| == 0 || (rec[0].0 !in Keys(rec[1..]) && UniqueKeys(rec[1..]))
  }

  /** `rec[key]`, for an own property. */
  function Get(rec: Record, key: string): Option<string>
  {
    if |rec| == 0 then None
    else if rec[0].0 == key then Some(rec[0].1)
    else Get(rec[1..], key)
  }

  /** `rec[key] = value` with a string `value`. */
  function Put(rec: Record, key: string, value: string): (r: Record)
    ensures |r| <= |rec| + 1
  {
    if key == ProtoKey then rec
    else if |rec| == 0 then [(key, value)]
    else if rec[0].0 == key then [(key, value)] + rec[1..]
    else [rec[0]] + Put(rec[1..], key, value)
  }

  /** Assignment adds the key, unless it is `__proto__`, and no other key;
      an existing key keeps its position. */
  lemma {:induction false} PutKeys(rec: Record, key: string, value: string)
    ensures var r := Put(rec, key, value);
            && (forall k :: k in Keys(r) <==> (k == key && key != ProtoKey) || k in Keys(rec))
            && (key in Keys(rec) || key == ProtoKey ==> Keys(r) == Keys(rec))
  {
    var r := Put(rec, key, value);
    if key == ProtoKey {
    } else if |rec| == 0 {
      assert Keys(r) == [key];
    } else if rec[0].0 == key {
      assert r[0] == (key, value) && r[1..] == rec[1..];
      assert Keys(r) == [key] + Keys(rec[1..]);
    } else {
      PutKeys(rec[1..], key, value);
      assert r[0] == rec[0] && r[1..] == Put(rec[1..], key, value);
      assert Keys(r) == [rec[0].0] + Keys(Put(rec[1..], key, value));
    }
  }

  /** Assignment keeps the keys unique. */
  lemma {:induction false} PutUnique(rec: Record, key: string, value: string)
    requires UniqueKeys(rec)
    ensures UniqueKeys(Put(rec, key, value))
  {
    var r := Put(rec, key, value);
    if key == ProtoKey {
    } else if |rec| > 0 && rec[0].0 == key {
      assert r[0] == (key, value) && r[1..] == rec[1..];
    } else if |rec| > 0 {
      PutUnique(rec[1..], key, value);
      PutKeys(rec[1..], key, value);
      assert r[0] == rec[0] && r[1..] == Put(rec[1..], key, value);
    }
  }

  /** An assigned key reads back its value, except `__proto__`, whose
      assignment changes nothing; every other key is left alone. */
  lemma {:induction false} PutGet(rec: Record, key: string, value: string)
    ensures var r := Put(rec, key, value);
            && (key != ProtoKey ==> Get(r, key) == Some(value))
            && (key == ProtoKey ==> r == rec)
            && (forall k :: k != key ==> Get(r, k) == Get(rec, k))
  {
    var r := Put(rec, key, value);
    if key == ProtoKey {
    } else if |rec| > 0 && rec[0].0 == key {
      assert r[0] == (key, value) && r[1..] == rec[1..];
    } else if |rec| > 0 {
      PutGet(rec[1..], key, value);
      assert r[0] == rec[0] && r[1..] == Put(rec[1..], key, value);
    }
  }

  /** A new key other than `__proto__` is created after all existing keys. */
  lemma {:induction false} PutAppends(rec: Record, key: string, value: string)
    requires key !in Keys(rec)
    ensures Put(rec, key, value) == if key == ProtoKey then rec else rec + [(key, value)]
  {
    if |rec| > 0 && key != ProtoKey {
      assert Keys(rec) == [rec[0].0] + Keys(rec[1..]);
      PutAppends(rec[1..], key, value);
      assert rec == [rec[0]] + rec[1..];
      assert Put(rec, key, value) == [rec[0]] + (rec[1..] + [(key, value)]);
    }
  }

  /** Assignment keeps keys unique, reads back (but for `__proto__`),
      leaves every other key alone, creates a new key last, and otherwise
      keeps the key order. */
  lemma PutSemantics(rec: Record, key: string, value: string)
    requires UniqueKeys(rec)
    ensures var r := Put(rec, key, value);
            && UniqueKeys(r)
            && (key != ProtoKey ==> Get(r, key) == Some(value))
            && (forall k :: k != key ==> Get(r, k) == Get(rec, k))
            && (forall k :: k in Keys(r) <==> (k == key && key != ProtoKey) || k in Keys(rec))
            && (key !in Keys(rec) && key != ProtoKey ==> r == rec + [(key, value)])
            && (key in Keys(rec) || key == ProtoKey ==> Keys(r) == Keys(rec))
  {
    PutKeys(rec, key, value);
    PutUnique(rec, key, value);
    PutGet(rec, key, value);
    if key !in Keys(rec) {
      PutAppends(rec, key, value);
    }
  }

  /** The reference map of `standAloneValidatorOutput`: for each definition in
      order, the assignment `createValidatorName(d) -> #/definitions/d`. */
  function RefMap(defs: seq<string>, validatorName: string -> string): (r: Record)
    ensures |r| <= |defs|
  {
    if |defs| == 0 then []
    else
      var d := defs[|defs| - 1];
      Put(RefMap(defs[..|defs| - 1], validatorName), validatorName(d), SchemaRef(d))
  }

  /** Keys are never repeated. */
  lemma {:induction false} RefMapUnique(defs: seq<string>, validatorName: string -> string)
    ensures UniqueKeys(RefMap(defs, validatorName))
  {
    if |defs| > 0 {
      var n := |defs| - 1;
      RefMapUnique(defs[..n], validatorName);
      PutSemantics(RefMap(defs[..n], validatorName), validatorName(defs[n]), SchemaRef(defs[n]));
    }
  }

  /** The keys are exactly the validator names of the definitions, except
      `__proto__`. */
  lemma {:induction false} RefMapKeys(defs: seq<string>, validatorName: string -> string)
    ensures forall k :: k in Keys(RefMap(defs, validatorName))
                        <==> k != ProtoKey && exists d :: d in defs && validatorName(d) == k
  {
    if |defs| > 0 {
      var n := |defs| - 1;
      var prefix := defs[..n];
      RefMapKeys(prefix, validatorName);
      RefMapUnique(prefix, validatorName);
      PutSemantics(RefMap(prefix, validatorName), validatorName(defs[n]), SchemaRef(defs[n]));
      assert forall d :: d in defs <==> d == defs[n] || d in prefix;
    }
  }

  /** A validator name other than `__proto__` is bound to
      `#/definitions/<d>` for the last definition `d` with that validator
      name. */
  lemma {:induction false} RefMapLatest(defs: seq<string>, validatorName: string -> string, i: nat)
    requires i < |defs|
    requires forall j :: i < j < |defs| ==> validatorName(defs[j]) != validatorName(defs[i])
    ensures validatorName(defs[i]) != ProtoKey
            ==> Get(RefMap(defs, validatorName), validatorName(defs[i])) == Some("#/definitions/" + defs[i])
    decreases |defs|
  {
    var n := |defs| - 1;
    var prefix := defs[..n];
    RefMapUnique(prefix, validatorName);
    PutSemantics(RefMap(prefix, validatorName), validatorName(defs[n]), SchemaRef(defs[n]));
    if i < n {
      assert prefix[i] == defs[i];
      assert forall j :: i < j < n ==> prefix[j] == defs[j];
      RefMapLatest(prefix, validatorName, i);
    }
  }

  /** Definitions whose validator names are all `__proto__` leave the map
      empty; `RefMapDropsProto` states the general case. */
  lemma {:induction false} RefMapSkipsProto(defs: seq<string>, validatorName: string -> string)
    requires forall d :: d in defs ==> validatorName(d) == ProtoKey
    ensures RefMap(defs, validatorName) == []
  {
    if |defs| > 0 {
      var n := |defs| - 1;
      assert defs[n] in defs;
      assert forall d :: d in defs[..n] ==> d in defs;
      RefMapSkipsProto(defs[..n], validatorName);
    }
  }

  /** Definitions whose validator name is `__proto__` leave no trace: the
      reference map is the one of the other definitions alone. */
  lemma {:induction false} RefMapDropsProto(defs: seq<string>, validatorName: string -> string, keep: string -> bool)
    requires forall d :: keep(d) <==> validatorName(d) != ProtoKey
    ensures RefMap(defs, validatorName) == RefMap(Filter(defs, keep), validatorName)
  {
    if |defs| > 0 {
      var n := |defs| - 1;
      var prefix, last := defs[..n], defs[n];
      assert defs == prefix + [last];
      RefMapDropsProto(prefix, validatorName, keep);
      FilterAppend(prefix, last, keep);
      var kept := Filter(prefix, keep);
      if keep(last) {
        var fs := kept + [last];
        assert Filter(defs, keep) == fs;
        assert fs[..|fs| - 1] == kept && fs[|fs| - 1] == last;
      } else {
        assert Filter(defs, keep) == kept;
        assert Put(RefMap(prefix, validatorName), validatorName(last), SchemaRef(last)) == RefMap(prefix, validatorName);
      }
    }
  }

  lemma {:induction false} RefMapEntries(defs: seq<string>, validatorName: string -> string)
    requires forall i, j :: 0 <= i < j < |defs| ==> validatorName(defs[i]) != validatorName(defs[j])
    requires forall i :: 0 <= i < |defs| ==> validatorName(defs[i]) != ProtoKey
    ensures RefMap(defs, validatorName)
            == seq(|defs|, i requires 0 <= i < |defs| => (validatorName(defs[i]), "#/definitions/" + defs[i]))
  {
    if |defs| > 0 {
      var n := |defs| - 1;
      var prefix := defs[..n];
      assert forall i :: 0 <= i < n ==> prefix[i] == defs[i];
      RefMapEntries(prefix, validatorName);
      RefMapKeys(prefix, validatorName);
      var before := RefMap(prefix, validatorName);
      var key := validatorName(defs[n]);
      assert key !in Keys(before);
      PutAppends(before, key, SchemaRef(defs[n]));
      var entries := seq(|defs|, i requires 0 <= i < |defs| => (validatorName(defs[i]), "#/definitions/" + defs[i]));
      assert entries == entries[..n] + [(key, SchemaRef(defs[n]))];
    }
  }

  /** When the validator names of the definitions are distinct and none is
      `__proto__`, the map lists exactly one entry per definition, in
      definition order, binding its validator name to
      `#/definitions/<name>`. */
  lemma RefMapDistinct(defs: seq<string>, validatorName: string -> string)
    requires forall i, j :: 0 <= i < j < |defs| ==> validatorName(defs[i]) != validatorName(defs[j])
    ensures (forall d :: d in defs ==> validatorName(d) != ProtoKey)
            ==> RefMap(defs, validatorName)
                == seq(|defs|, i requires 0 <= i < |defs| => (validatorName(defs[i]), "#/definitions/" + defs[i]))
  {
    if forall d :: d in defs ==> validatorName(d) != ProtoKey {
      assert forall i :: 0 <= i < |defs| ==> defs[i] in defs;
      RefMapEntries(defs, validatorName);
    }
  }

  // ---------------------------------------------------------------------------
  // The validator file.

  /** `validatorsFileTemplate`. */
  const ValidatorsFileTemplate: Template :=
    [Text("\n/* eslint-disable */\n\n"), Hole(Validators), Text("\n")]

  /** The file template with the validator code in place. */
  function ValidatorsFile(code: string): (r: string)
  {
    Fill(Flatten(ValidatorsFileTemplate), [(Validators, code)])
  }

  /** The template puts the code, unchanged, between the lint banner and one
      closing line break, whatever the code contains. */
  lemma ValidatorsFileText(code: string)
    ensures ValidatorsFile(code) == "\n/* eslint-disable */\n\n" + code + "\n"
  {
    var t, subs := ValidatorsFileTemplate, [(Validators, code)];
    FillRendersTemplate(t, subs);
    assert RenderUpTo(t, 1, subs) == "\n/* eslint-disable */\n\n";
    assert RenderUpTo(t, 2, subs) == "\n/* eslint-disable */\n\n" + code;
  }

  /** The format plugin is registered, with its options, only when formats
      are enabled. */
  function FormatsPlugin(formats: bool, formatOptions: Option<FormatOptions>): (r: Option<Option<FormatOptions>>)
    ensures r.Some? <==> formats
    ensures r.Some? ==> r.value == formatOptions
  {
    if formats then Some(formatOptions) else None
  }

  /** The standalone code for `defs`, linked for the output mode. */
  function ValidatorCode(
    schema: ParsedSchema, defs: seq<string>, formats: bool, formatOptions: Option<FormatOptions>,
    output: ValidatorOutput, c: Collaborators): string
  {
    var js := c.standaloneCode(schema.json, RefMap(defs, c.validatorName), FormatsPlugin(formats, formatOptions));
    if output == Module then c.rewriteExports(js) else js
  }

  /** `standAloneValidatorOutput`: the validator code wrapped in the file
      template and formatted. */
  function StandaloneValidatorOutput(
    schema: ParsedSchema, defs: seq<string>, formats: bool, formatOptions: Option<FormatOptions>,
    output: ValidatorOutput, prettier: PrettierOptions, c: Collaborators): string
  {
    c.format(ValidatorsFile(ValidatorCode(schema, defs, formats, formatOptions, output, c)), prettier)
  }

  /** The export rewrite is applied to module output and never to CommonJS
      output: the engine's code for the reference map, compiled with the
      format plugin exactly when formats are enabled, sits between the lint
      banner and a closing line break. */
  lemma StandaloneValidatorText(
    schema: ParsedSchema, defs: seq<string>, formats: bool, formatOptions: Option<FormatOptions>,
    output: ValidatorOutput, prettier: PrettierOptions, c: Collaborators)
    ensures var js := c.standaloneCode(schema.json, RefMap(defs, c.validatorName),
                                       if formats then Some(formatOptions) else None);
            StandaloneValidatorOutput(schema, defs, formats, formatOptions, output, prettier, c)
            == c.format("\n/* eslint-disable */\n\n"
                        + (if output == Module then c.rewriteExports(js) else js) + "\n", prettier)
  {
    ValidatorsFileText(ValidatorCode(schema, defs, formats, formatOptions, output, c));
  }

  /** CommonJS output does not depend on the export rewrite at all. */
  lemma CommonJsNotRewritten(
    schema: ParsedSchema, defs: seq<string>, formats: bool, formatOptions: Option<FormatOptions>,
    prettier: PrettierOptions, c: Collaborators, rewrite: string -> string)
    ensures StandaloneValidatorOutput(schema, defs, formats, formatOptions, CommonJs, prettier, c)
         == StandaloneValidatorOutput(schema, defs, formats, formatOptions, CommonJs, prettier, c.(rewriteExports := rewrite))
  {
  }

  // ---------------------------------------------------------------------------
  // Type declarations for module output.

  /** The declaration of one validator. */
  function DeclarationLine(validatorName: string): (r: string)
    ensures '\n' !in validatorName ==> '\n' !in r
  {
    "export function " + validatorName + "(json: unknown): boolean;"
  }

  function DeclarationLines(defs: seq<string>, validatorName: string -> string): (r: seq<string>)
    ensures |r| == |defs|
  {
    seq(|defs|, i requires 0 <= i < |defs| => DeclarationLine(validatorName(defs[i])))
  }

  /** `validatorDefinitionsOutput` before formatting: the declarations joined
      by line breaks. */
  function RawDeclarations(defs: seq<string>, validatorName: string -> string): string
  {
    Join(DeclarationLines(defs, validatorName), "\n")
  }

  /** `validatorDefinitionsOutput`. */
  function ValidatorDeclarations(defs: seq<string>, prettier: PrettierOptions, c: Collaborators): string
  {
    c.format(RawDeclarations(defs, c.validatorName), prettier)
  }

  /** The declarations are one line per definition, in definition order: when
      no validator name contains a line break, splitting the text at line
      breaks gives back exactly the declaration of each definition. */
  lemma DeclarationsPerLine(defs: seq<string>, validatorName: string -> string)
    requires |defs| > 0
    requires forall d :: d in defs ==> '\n' !in validatorName(d)
    ensures var lines := Split(RawDeclarations(defs, validatorName), '\n');
            && |lines| == |defs|
            && forall i :: 0 <= i < |defs| ==> lines[i] == "export function " + validatorName(defs[i]) + "(json: unknown): boolean;"
  {
    var parts := DeclarationLines(defs, validatorName);
    forall i | 0 <= i < |parts|
      ensures '\n' !in parts[i]
    {
      assert defs[i] in defs;
    }
    SplitJoin(parts, '\n');
  }
}
