/**
  The entry point (`generate`): it normalises the output directories,
  selects the definitions that get decoders, picks one decoder strategy and
  the validator output mode, and orders the generation steps.
 */
module Generate {

  import opened Optional
  import opened Strings
  import opened Config
  import opened Artifacts
  import opened CompileDecoders
  import opened StandaloneValidators
  import opened StandaloneDecoders

  /** `options.directory`: one output directory or several. */
  datatype Directory = OneDirectory(path: string) | ManyDirectories(paths: seq<string>)

  /** `options.standalone`. */
  datatype StandaloneOptions = StandaloneOptions(mergeDecoders: Option<bool>, validatorOutput: ValidatorOutput)

  /** The options of `generate` that decide what the decoders look like and
      where they go. */
  datatype GenerateOptions = GenerateOptions(
    directory: Directory,
    decoders: Option<seq<string>>,
    skipDecoders: Option<bool>,
    standalone: Option<StandaloneOptions>,
    addFormats: Option<bool>,
    formatOptions: Option<FormatOptions>,
    esm: Option<bool>,
    skipMetaFile: Option<bool>,
    prettierOptions: Option<PrettierOptions>)

  /** The output directories: a single directory becomes a one-element list,
      a list is used as given. */
  function Directories(d: Directory): (r: seq<string>)
    ensures d.OneDirectory? ==> r == [d.path]
    ensures d.ManyDirectories? ==> r == d.paths
  {
    match d
    case OneDirectory(p) => [p]
    case ManyDirectories(ps) => ps
  }

  /** The formatter settings: the caller's, else the TypeScript parser. */
  function Prettier(options: GenerateOptions): PrettierOptions
  {
    options.prettierOptions.GetOr(DefaultPrettierOptions)
  }

  // ---------------------------------------------------------------------------
  // Which definitions get decoders.

  /** The decoder whitelist: the caller's when given, else the schema's. */
  function Whitelist(options: GenerateOptions, schema: ParsedSchema): (r: Option<seq<string>>)
    ensures options.decoders.Some? ==> r == options.decoders
    ensures options.decoders.None? ==> r == schema.whitelistedDecoders
  {
    options.decoders.Or(schema.whitelistedDecoders)
  }

  /** The definitions that get decoders: all of them without a whitelist,
      otherwise the whitelisted ones. */
  function SelectDecoders(all: seq<string>, whitelist: Option<seq<string>>): (r: seq<string>)
    ensures forall n :: n in r <==> n in all && (whitelist.None? || n in whitelist.value)
  {
    match whitelist
    case None => all
    case Some(w) => Filter(all, name => name in w)
  }

  /** Without a whitelist every definition is kept; with one, exactly the
      whitelisted definitions are. Either way the kept names keep their
      order and their multiplicity. */
  lemma SelectionKeeps(all: seq<string>, whitelist: Option<seq<string>>)
    ensures var r := SelectDecoders(all, whitelist);
            && Subsequence(r, all)
            && (whitelist.None? ==> r == all)
            && (forall n :: n in r <==> n in all && (whitelist.None? || n in whitelist.value))
            && (forall n :: n in r ==> multiset(r)[n] == multiset(all)[n])
  {
    match whitelist
    case None =>
      SubsequenceOfItself(all);
    case Some(w) =>
      FilterSubsequence(all, name => name in w);
  }

  /** The members of `Object.prototype`, which a lookup on a plain object
      finds whether or not the object has them as keys. */
  const ObjectPrototypeKeys: set<string> :=
    { "constructor", "hasOwnProperty", "isPrototypeOf", "propertyIsEnumerable", "toLocaleString",
      "toString", "valueOf", "__defineGetter__", "__defineSetter__", "__lookupGetter__",
      "__lookupSetter__", "__proto__" }

  /** Whether `decoderWhitelistById[name]` is truthy, where the object maps
      each whitelisted name to itself: the empty name maps to a falsy value,
      and a prototype member is found without being whitelisted. */
  predicate KeyByLookupTruthy(name: string, whitelist: seq<string>)
  {
    (name in whitelist && name != "") || name in ObjectPrototypeKeys
  }

  /** The selection as the keyed lookup makes it. */
  function SelectDecodersAsWritten(all: seq<string>, whitelist: Option<seq<string>>): (r: seq<string>)
    ensures forall n :: n in r <==> n in all && (whitelist.None? || KeyByLookupTruthy(n, whitelist.value))
  {
    match whitelist
    case None => all
    case Some(w) => Filter(all, name => KeyByLookupTruthy(name, w))
  }

  /** The keyed lookup selects like whitelist membership as long as no
      definition is named with the empty string or after a prototype
      member. */
  lemma KeyByAgrees(all: seq<string>, whitelist: Option<seq<string>>)
    requires forall n :: n in all ==> n != "" && n !in ObjectPrototypeKeys
    ensures SelectDecodersAsWritten(all, whitelist) == SelectDecoders(all, whitelist)
  {
    if whitelist.Some? {
      var w := whitelist.value;
      FilterAgrees(all, name => KeyByLookupTruthy(name, w), name => name in w);
    }
  }

  /** A definition named `constructor` gets a decoder although the whitelist
      does not list it. */
  lemma KeyByAdmitsPrototypeMember()
    ensures SelectDecodersAsWritten(["Pet", "constructor"], Some(["Pet"])) == ["Pet", "constructor"]
    ensures SelectDecoders(["Pet", "constructor"], Some(["Pet"])) == ["Pet"]
  {
    var all := ["Pet", "constructor"];
    assert all[1..] == ["constructor"] && all[1..][1..] == [];
    assert "constructor" in ObjectPrototypeKeys;
    assert "constructor" != "Pet";
  }

  /** A whitelisted definition with the empty name gets no decoder. */
  lemma KeyByDropsEmptyName()
    ensures SelectDecodersAsWritten([""], Some([""])) == []
    ensures SelectDecoders([""], Some([""])) == [""]
  {
    var all: seq<string> := [""];
    assert all[1..] == [];
    assert "" !in ObjectPrototypeKeys;
  }

  // ---------------------------------------------------------------------------
  // The decoder strategy and the output mode.

  datatype Strategy = CompileBased | StandaloneMerged | StandalonePerDefinition

  /** Without standalone options the compile-based strategy runs; with them,
      the merged strategy when `mergeDecoders` is `true`, else the
      per-definition strategy. */
  function ChooseStrategy(standalone: Option<StandaloneOptions>): (r: Strategy)
    ensures r == CompileBased <==> standalone.None?
    ensures r == StandaloneMerged <==> standalone.Some? && IsTrue(standalone.value.mergeDecoders)
    ensures r == StandalonePerDefinition <==> standalone.Some? && !IsTrue(standalone.value.mergeDecoders)
  {
    match standalone
    case None => CompileBased
    case Some(s) => if IsTrue(s.mergeDecoders) then StandaloneMerged else StandalonePerDefinition
  }

  /** The validator output mode: module output whenever ESM is requested,
      the standalone setting otherwise. */
  function OutputMode(esm: Option<bool>, validatorOutput: ValidatorOutput): (r: ValidatorOutput)
    ensures IsTrue(esm) ==> r == Module
    ensures !IsTrue(esm) ==> r == validatorOutput
  {
    if IsTrue(esm) then Module else validatorOutput
  }

  /** The ESM flag, false unless set. */
  function Esm(options: GenerateOptions): (r: bool)
    ensures r <==> IsTrue(options.esm)
  {
    options.esm.GetOr(false)
  }

  /** Decoders are generated unless they are skipped or no definition is
      selected. */
  predicate RunsDecoders(options: GenerateOptions, names: seq<string>)
  {
    !IsTrue(options.skipDecoders) && |names| > 0
  }

  /** The definitions that get decoders under `options`. */
  function DecoderNames(options: GenerateOptions, schema: ParsedSchema): (r: seq<string>)
    ensures forall n :: n in r ==> n in schema.definitionNames
    ensures Whitelist(options, schema).None? ==> r == schema.definitionNames
  {
    SelectDecoders(schema.definitionNames, Whitelist(options, schema))
  }

  // ---------------------------------------------------------------------------
  // The steps of `generate`.

  /** A generation step. Only the decoder strategies are modelled; the
      other steps are named by what they receive. */
  datatype Step =
    | ValidationHelper              // `generateAjvValidator`
    | DecoderStrategy(strategy: Strategy)
    | ModelFiles                    // `generateModels`
    | HelperFiles                   // `generateHelpers`
    | MetaFile(definitions: seq<string>)  // `generateMetaFile`

  /** The steps `generate` takes, in order. */
  function Steps(options: GenerateOptions, schema: ParsedSchema): (r: seq<Step>)
    ensures ModelFiles in r && HelperFiles in r
    ensures ValidationHelper in r <==> RunsDecoders(options, DecoderNames(options, schema))
  {
    var names := DecoderNames(options, schema);
    (if RunsDecoders(options, names) then [ValidationHelper, DecoderStrategy(ChooseStrategy(options.standalone))] else [])
    + [ModelFiles, HelperFiles]
    + (if IsTrue(options.skipMetaFile) then [] else [MetaFile(schema.definitionNames)])
  }

  /** The decoder strategies among `steps`, in order. */
  function StrategiesRun(steps: seq<Step>): (r: seq<Strategy>)
    ensures forall s :: s in r <==> DecoderStrategy(s) in steps
  {
    if |steps| == 0 then []
    else (if steps[0].DecoderStrategy? then [steps[0].strategy] else []) + StrategiesRun(steps[1..])
  }

  lemma {:induction false} StrategiesRunAppend(a: seq<Step>, b: seq<Step>)
    ensures StrategiesRun(a + b) == StrategiesRun(a) + StrategiesRun(b)
  {
    if |a| > 0 {
      assert (a + b)[1..] == a[1..] + b;
      StrategiesRunAppend(a[1..], b);
    } else {
      assert a + b == b;
    }
  }

  /** Exactly one decoder strategy runs, the chosen one, unless decoders are
      skipped or no definition is selected, in which case none does. */
  lemma ExactlyOneStrategy(options: GenerateOptions, schema: ParsedSchema)
    ensures StrategiesRun(Steps(options, schema))
            == if !IsTrue(options.skipDecoders) && |DecoderNames(options, schema)| > 0
               then [ChooseStrategy(options.standalone)] else []
  {
    var names := DecoderNames(options, schema);
    var decoders := if RunsDecoders(options, names) then [ValidationHelper, DecoderStrategy(ChooseStrategy(options.standalone))] else [];
    var rest := [ModelFiles, HelperFiles];
    var meta := if IsTrue(options.skipMetaFile) then [] else [MetaFile(schema.definitionNames)];
    StrategiesRunAppend(decoders + rest, meta);
    StrategiesRunAppend(decoders, rest);
    assert StrategiesRun(rest) == [] by {
      assert rest[1..] == [HelperFiles];
    }
    if RunsDecoders(options, names) {
      assert decoders[1..] == [DecoderStrategy(ChooseStrategy(options.standalone))];
    }
  }

  /** The meta file is generated unless `skipMetaFile` is `true`, and it
      lists every definition of the schema, not just the selected ones. */
  lemma MetaFileStep(options: GenerateOptions, schema: ParsedSchema)
    ensures var steps := Steps(options, schema);
            && ((exists s :: s in steps && s.MetaFile?) <==> !IsTrue(options.skipMetaFile))
            && forall s :: s in steps && s.MetaFile? ==> s.definitions == schema.definitionNames
  {
    var steps := Steps(options, schema);
    var names := DecoderNames(options, schema);
    var decoders := if RunsDecoders(options, names) then [ValidationHelper, DecoderStrategy(ChooseStrategy(options.standalone))] else [];
    var meta := if IsTrue(options.skipMetaFile) then [] else [MetaFile(schema.definitionNames)];
    assert steps == (decoders + [ModelFiles, HelperFiles]) + meta;
    forall s | s in steps && s.MetaFile?
      ensures s in meta
    {
      assert s !in decoders + [ModelFiles, HelperFiles];
    }
    if !IsTrue(options.skipMetaFile) {
      assert MetaFile(schema.definitionNames) in steps;
    }
  }

  // ---------------------------------------------------------------------------
  // The decoder files.

  /** Whether the format plugin is used: `options.addFormats ?? false`. */
  function Formats(options: GenerateOptions): bool
  {
    options.addFormats.GetOr(false)
  }

  function CompileBasedStep(options: GenerateOptions, schema: ParsedSchema, c: Collaborators): seq<FileWrite>
  {
    GenerateCompileBasedDecoders(DecoderNames(options, schema), Formats(options), options.formatOptions,
                                 Directories(options.directory), Prettier(options), c)
  }

  function MergedStep(options: GenerateOptions, s: StandaloneOptions, schema: ParsedSchema, c: Collaborators)
    : seq<FileWrite>
  {
    GenerateStandaloneMergedDecoders(DecoderNames(options, schema), schema, Formats(options), options.formatOptions,
                                     OutputMode(options.esm, s.validatorOutput), Esm(options),
                                     Directories(options.directory), Prettier(options), c)
  }

  function PerDefinitionStep(options: GenerateOptions, s: StandaloneOptions, schema: ParsedSchema, c: Collaborators)
    : seq<FileWrite>
  {
    GenerateStandaloneDecoders(DecoderNames(options, schema), schema, Formats(options), options.formatOptions,
                               OutputMode(options.esm, s.validatorOutput), Esm(options),
                               Directories(options.directory), Prettier(options), c)
  }

  /** The generator of the strategy the standalone options select, called
      with the selected definitions, the output mode and the ESM flag. */
  function Generator(standalone: Option<StandaloneOptions>): (GenerateOptions, ParsedSchema, Collaborators) -> seq<FileWrite>
  {
    match standalone
    case None => CompileBasedStep
    case Some(s) =>
      if IsTrue(s.mergeDecoders) then (options, schema, c) => MergedStep(options, s, schema, c)
      else (options, schema, c) => PerDefinitionStep(options, s, schema, c)
  }

  /** The files the decoder step writes. */
  function DecoderWrites(options: GenerateOptions, schema: ParsedSchema, c: Collaborators): seq<FileWrite>
  {
    if RunsDecoders(options, DecoderNames(options, schema)) then Generator(options.standalone)(options, schema, c)
    else []
  }

  /** The decoder step writes nothing unless decoders are generated, and
      otherwise exactly the files of the strategy `ChooseStrategy` picks,
      the same strategy the steps name. */
  lemma DecoderWritesDispatch(options: GenerateOptions, schema: ParsedSchema, c: Collaborators)
    ensures var writes := DecoderWrites(options, schema, c);
            && (!RunsDecoders(options, DecoderNames(options, schema)) ==> writes == [])
            && (RunsDecoders(options, DecoderNames(options, schema)) ==>
                  match ChooseStrategy(options.standalone)
                  case CompileBased => writes == CompileBasedStep(options, schema, c)
                  case StandaloneMerged => writes == MergedStep(options, options.standalone.value, schema, c)
                  case StandalonePerDefinition => writes == PerDefinitionStep(options, options.standalone.value, schema, c))
  {
  }

  lemma CompileBasedStepDeclarations(options: GenerateOptions, schema: ParsedSchema, c: Collaborators, d: string)
    ensures !exists a :: a in WrittenTo(CompileBasedStep(options, schema, c), d) && DeclarationFile(a.path)
  {
    CompileBasedWrites(DecoderNames(options, schema), Formats(options), options.formatOptions,
                       Directories(options.directory), Prettier(options), c, d);
  }

  lemma MergedStepDeclarations(options: GenerateOptions, s: StandaloneOptions, schema: ParsedSchema, c: Collaborators,
                               d: string)
    ensures (exists a :: a in WrittenTo(MergedStep(options, s, schema, c), d) && DeclarationFile(a.path))
            <==> d in Directories(options.directory) && OutputMode(options.esm, s.validatorOutput) == Module
  {
    MergedDeclarations(DecoderNames(options, schema), schema, Formats(options), options.formatOptions,
                       OutputMode(options.esm, s.validatorOutput), Esm(options), Directories(options.directory),
                       Prettier(options), c, d);
  }

  lemma PerDefinitionStepDeclarations(options: GenerateOptions, s: StandaloneOptions, schema: ParsedSchema,
                                      c: Collaborators, d: string)
    ensures (exists a :: a in WrittenTo(PerDefinitionStep(options, s, schema, c), d) && DeclarationFile(a.path))
            <==> && d in Directories(options.directory)
                 && OutputMode(options.esm, s.validatorOutput) == Module
                 && |DecoderNames(options, schema)| > 0
  {
    PerDefinitionDeclarations(DecoderNames(options, schema), schema, Formats(options), options.formatOptions,
                              OutputMode(options.esm, s.validatorOutput), Esm(options), Directories(options.directory),
                              Prettier(options), c, d);
  }

  /** The compile-based strategy writes no type declarations; a standalone
      strategy writes them into an output directory exactly when decoders
      are generated and the output mode is module output, which ESM
      always implies. */
  lemma DeclarationsIffModule(options: GenerateOptions, schema: ParsedSchema, c: Collaborators, d: string)
    ensures var names := DecoderNames(options, schema);
            (exists a :: a in WrittenTo(DecoderWrites(options, schema, c), d) && DeclarationFile(a.path))
            <==> && options.standalone.Some?
                 && RunsDecoders(options, names)
                 && d in Directories(options.directory)
                 && (IsTrue(options.esm) || options.standalone.value.validatorOutput == Module)
  {
    if RunsDecoders(options, DecoderNames(options, schema)) {
      match options.standalone
      case None =>
        CompileBasedStepDeclarations(options, schema, c, d);
      case Some(s) =>
        if IsTrue(s.mergeDecoders) {
          MergedStepDeclarations(options, s, schema, c, d);
        } else {
          PerDefinitionStepDeclarations(options, s, schema, c, d);
        }
    }
  }
}
