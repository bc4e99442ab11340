/** `parse_config_from_yaml_string`: builds a `TemplateConfig` from a scanned
    YAML document, or reports the first schema violation met while checking,
    in order, the root, `type`, `output`, the mode's name, `include` and
    `variables`. Glob compilation and float formatting are collaborators. */
module ConfigParser {
  import opened Common
  import opened Yaml
  import opened Formatting
  import opened TemplateConfig

  const KeyOutputType := "type"
  const KeyOutput := "output"
  const KeyOutputFilename := "filename"
  const KeyOutputDirectory := "directory"
  const KeyIncludedFiles := "include"
  const KeyVariables := "variables"

  /** `globset::ErrorKind`, kept opaque. */
  datatype GlobErrorKind = GlobErrorKind(code: nat)

  /** `globset::Error`: the offending glob when known, and the kind. */
  datatype GlobError = GlobError(glob: Option<string>, kind: GlobErrorKind)

  datatype ConfigParseError =
    | YamlParseError(scan: ScanError)
    | ConfigMustBeAMapping
    | NoOutputConfig
    | OutputConfigMustBeAMapping
    | NoOutputType
    | InvalidOutputType
    | NoOutputFilename
    | InvalidOutputFilename
    | NoOutputDirectory
    | InvalidOutputDirectory
    | NoIncludedFiles
    | InvalidIncludedFiles
    | TooManyIncludedFileGlobs
    | IncludedFileGlobMustBeString
    | IncludedFileGlobParseError(glob: Option<string>, kind: GlobErrorKind)
    | VariablesMustBeAMapping
    | VariableNameMustBeAString
    | VariableDefaultMustBeAScalar

  /** The parser's collaborators: `Glob::new` (None on success),
      `GlobSetBuilder::build` over the patterns added so far (None on
      success), and `f64::to_string` on a float's bit pattern. */
  datatype ParserEnv = ParserEnv(
    compileGlob: string -> Option<GlobError>,
    buildGlobSet: seq<string> -> Option<GlobError>,
    formatFloat: bv64 -> string)

  function GlobFailure(e: GlobError): ConfigParseError {
    IncludedFileGlobParseError(e.glob, e.kind)
  }

  // ---------------------------------------------------------------- type

  /** The mode a `type` value names, if it names one. */
  function ModeNamed(v: Yaml): Option<OutputType> {
    if v == Str("file") then Some(File)
    else if v == Str("directory") then Some(Directory)
    else None
  }

  function ParseOutputType(root: seq<(Yaml, Yaml)>): (r: Result<OutputType, ConfigParseError>)
    ensures Get(root, KeyOutputType).None? ==> r == Err(NoOutputType)
    ensures Get(root, KeyOutputType).Some? ==>
      r == (match ModeNamed(Get(root, KeyOutputType).value)
            case Some(t) => Ok(t)
            case None => Err(InvalidOutputType))
  {
    match Get(root, KeyOutputType)
    case None => Err(NoOutputType)
    case Some(v) =>
      if v == Str("file") then Ok(File)
      else if v == Str("directory") then Ok(Directory)
      else Err(InvalidOutputType)
  }

  // -------------------------------------------------------------- output

  function ParseOutputBlock(root: seq<(Yaml, Yaml)>): (r: Result<seq<(Yaml, Yaml)>, ConfigParseError>)
    ensures Get(root, KeyOutput).None? ==> r == Err(NoOutputConfig)
    ensures r.Ok? <==> Get(root, KeyOutput).Some? && Get(root, KeyOutput).value.Mapping?
    ensures r.Ok? ==> Get(root, KeyOutput) == Some(Mapping(r.value))
    ensures r.Err? && Get(root, KeyOutput).Some? ==> r.error == OutputConfigMustBeAMapping
  {
    match Get(root, KeyOutput)
    case None => Err(NoOutputConfig)
    case Some(v) => if v.Mapping? then Ok(v.entries) else Err(OutputConfigMustBeAMapping)
  }

  /** The key under `output` that names the output in mode `t`. */
  function NameKey(t: OutputType): string {
    if t == File then KeyOutputFilename else KeyOutputDirectory
  }

  function ParseOutputName(output: seq<(Yaml, Yaml)>, t: OutputType): (r: Result<string, ConfigParseError>)
    ensures r.Ok? <==> Get(output, NameKey(t)).Some? && Get(output, NameKey(t)).value.Str?
    ensures r.Ok? ==> Get(output, NameKey(t)) == Some(Str(r.value))
    ensures r.Err? && Get(output, NameKey(t)).None? ==>
      r.error == (if t == File then NoOutputFilename else NoOutputDirectory)
    ensures r.Err? && Get(output, NameKey(t)).Some? ==>
      r.error == (if t == File then InvalidOutputFilename else InvalidOutputDirectory)
  {
    match Get(output, NameKey(t))
    case None => Err(if t == File then NoOutputFilename else NoOutputDirectory)
    case Some(v) =>
      if v.Str? then Ok(v.s)
      else Err(if t == File then InvalidOutputFilename else InvalidOutputDirectory)
  }

  // ------------------------------------------------------------- include

  /** A sequence element the include loop accepts: a string that compiles. */
  predicate GoodGlob(y: Yaml, env: ParserEnv) {
    y.Str? && env.compileGlob(y.s).None?
  }

  /** The error the include loop reports for a rejected element. */
  function GlobElementError(y: Yaml, env: ParserEnv): ConfigParseError
    requires !GoodGlob(y, env)
  {
    if y.Str? then GlobFailure(env.compileGlob(y.s).value) else IncludedFileGlobMustBeString
  }

  /** Index of the first rejected element, or `|items|` when there is none. */
  function FirstBadGlob(items: seq<Yaml>, env: ParserEnv): (k: nat)
    ensures k <= |items|
    ensures forall i :: 0 <= i < k ==> GoodGlob(items[i], env)
    ensures k < |items| ==> !GoodGlob(items[k], env)
  {
    if |items| == 0 then 0
    else if !GoodGlob(items[0], env) then 0
    else 1 + FirstBadGlob(items[1..], env)
  }

  /** The text of a string node (empty for any other node). */
  function GlobText(y: Yaml): string {
    if y.Str? then y.s else ""
  }

  /** The patterns of a list of glob nodes, in order. */
  function GlobTexts(items: seq<Yaml>): (r: seq<string>)
    ensures |r| == |items|
    ensures forall i :: 0 <= i < |items| ==> r[i] == GlobText(items[i])
  {
    seq(|items|, i requires 0 <= i < |items| => GlobText(items[i]))
  }

  /** The loop over an `include` sequence: every element is compiled in
      order and the first element that is not a string, or does not compile,
      stops the parse. */
  function CompileEach(items: seq<Yaml>, env: ParserEnv): (r: Result<seq<string>, ConfigParseError>)
    ensures r.Ok? <==> FirstBadGlob(items, env) == |items|
    ensures r.Ok? ==> r.value == GlobTexts(items)
    ensures r.Err? ==>
      && FirstBadGlob(items, env) < |items|
      && r.error == GlobElementError(items[FirstBadGlob(items, env)], env)
  {
    if |items| == 0 then Ok([])
    else if !items[0].Str? then Err(IncludedFileGlobMustBeString)
    else match env.compileGlob(items[0].s)
      case Some(e) => Err(GlobFailure(e))
      case None =>
        var rest :- CompileEach(items[1..], env);
        assert GlobTexts(items) == [items[0].s] + GlobTexts(items[1..]);
        Ok([items[0].s] + rest)
  }

  /** Reads `include`: a single glob string, or a sequence of glob strings
      (at most one in File mode, counted before any element is looked at);
      the compiled set must then build. */
  function ParseIncluded(root: seq<(Yaml, Yaml)>, t: OutputType, env: ParserEnv): (r: Result<seq<string>, ConfigParseError>)
    ensures Get(root, KeyIncludedFiles).None? ==> r == Err(NoIncludedFiles)
    ensures Get(root, KeyIncludedFiles).Some? ==>
      var v := Get(root, KeyIncludedFiles).value;
      && (!v.Str? && !v.Sequence? ==> r == Err(InvalidIncludedFiles))
      && (v.Sequence? && t == File && |v.items| > 1 ==> r == Err(TooManyIncludedFileGlobs))
      && (v.Str? && env.compileGlob(v.s).None? ==>
            r == (match env.buildGlobSet([v.s]) case Some(e) => Err(GlobFailure(e)) case None => Ok([v.s])))
      && (v.Str? && env.compileGlob(v.s).Some? ==> r == Err(GlobFailure(env.compileGlob(v.s).value)))
      && (v.Sequence? && (t == Directory || |v.items| <= 1) && FirstBadGlob(v.items, env) < |v.items| ==>
            r == Err(GlobElementError(v.items[FirstBadGlob(v.items, env)], env)))
      && (v.Sequence? && (t == Directory || |v.items| <= 1) && FirstBadGlob(v.items, env) == |v.items| ==>
            r == (match env.buildGlobSet(GlobTexts(v.items)) case Some(e) => Err(GlobFailure(e)) case None => Ok(GlobTexts(v.items))))
  {
    match Get(root, KeyIncludedFiles)
    case None => Err(NoIncludedFiles)
    case Some(v) =>
      var patterns :-
        if v.Str? then
          (match env.compileGlob(v.s) case Some(e) => Err(GlobFailure(e)) case None => Ok([v.s]))
        else if v.Sequence? then
          (if t == File && |v.items| > 1 then Err(TooManyIncludedFileGlobs) else CompileEach(v.items, env))
        else Err(InvalidIncludedFiles);
      match env.buildGlobSet(patterns)
      case Some(e) => Err(GlobFailure(e))
      case None => Ok(patterns)
  }

  // ----------------------------------------------------------- variables

  /** A `variables` entry the loop accepts: a string name and a scalar default. */
  predicate GoodVariable(e: (Yaml, Yaml)) {
    e.0.Str? && IsScalar(e.1)
  }

  /** The error the variables loop reports for a rejected entry: the name is
      checked before the default. */
  function VariableError(e: (Yaml, Yaml)): ConfigParseError
    requires !GoodVariable(e)
  {
    if !e.0.Str? then VariableNameMustBeAString else VariableDefaultMustBeAScalar
  }

  /** Index of the first rejected entry, or `|entries|` when there is none. */
  function FirstBadVariable(entries: seq<(Yaml, Yaml)>): (k: nat)
    ensures k <= |entries|
    ensures forall i :: 0 <= i < k ==> GoodVariable(entries[i])
    ensures k < |entries| ==> !GoodVariable(entries[k])
  {
    if |entries| == 0 then 0
    else if !GoodVariable(entries[0]) then 0
    else 1 + FirstBadVariable(entries[1..])
  }

  /** The string a scalar default is stored as: null becomes the empty
      string, strings are kept verbatim, the rest use `to_string`. */
  function ScalarText(v: Yaml, env: ParserEnv): (r: string)
    requires IsScalar(v)
    ensures v.Null? ==> r == ""
    ensures v.Str? ==> r == v.s
    ensures v.Boolean? ==> ReadBool(r) == Some(v.b)
    ensures v.Integer? ==> |r| >= 1 && (r[0] == '-' ==> AllDigits(r[1..])) && (r[0] != '-' ==> AllDigits(r)) && ReadInt(r) == v.i
  {
    IntToStringRoundTrip(if v.Integer? then v.i else 0);
    match v
    case Null => ""
    case Boolean(b) => BoolToString(b)
    case Integer(i) => IntToString(i)
    case Float(bits) => env.formatFloat(bits)
    case Str(s) => s
  }

  /** The names the string keys of `entries` spell. */
  function VariableNames(entries: seq<(Yaml, Yaml)>): set<string> {
    set i | 0 <= i < |entries| && entries[i].0.Str? :: entries[i].0.s
  }

  /** Entry `i` is the last one with its key. */
  predicate LastWithKey(entries: seq<(Yaml, Yaml)>, i: nat)
    requires i < |entries|
  {
    forall j :: i < j < |entries| ==> entries[j].0 != entries[i].0
  }

  /** The loop over the `variables` mapping: each accepted entry is upserted
      with `add_variable`; the first rejected entry stops the parse, its name
      checked before its default. Only the variable map changes. */
  function AddVariables(entries: seq<(Yaml, Yaml)>, c: TemplateConfig, env: ParserEnv): (r: Result<TemplateConfig, ConfigParseError>)
    ensures r.Ok? <==> FirstBadVariable(entries) == |entries|
    ensures r.Err? ==>
      && FirstBadVariable(entries) < |entries|
      && r.error == VariableError(entries[FirstBadVariable(entries)])
    ensures r.Ok? ==> r.value.(variables := c.variables) == c
  {
    if |entries| == 0 then Ok(c)
    else if !GoodVariable(entries[0]) then Err(VariableError(entries[0]))
    else AddVariables(entries[1..], AddVariable(c, entries[0].0.s, ScalarText(entries[0].1, env)).0, env)
  }

  /** The names of a list of entries are the first entry's name and the
      names of the rest. */
  lemma VariableNamesFront(entries: seq<(Yaml, Yaml)>)
    requires |entries| > 0 && entries[0].0.Str?
    ensures VariableNames(entries) == {entries[0].0.s} + VariableNames(entries[1..])
  {
    assert forall i :: 1 <= i < |entries| ==> entries[i] == entries[1..][i - 1];
  }

  /** The loop adds exactly the declared names and leaves every other
      variable's default alone. */
  lemma {:induction false} AddVariablesKeys(entries: seq<(Yaml, Yaml)>, c: TemplateConfig, env: ParserEnv)
    ensures var r := AddVariables(entries, c, env);
      r.Ok? ==>
        && r.value.variables.Keys == c.variables.Keys + VariableNames(entries)
        && forall k :: k in c.variables && k !in VariableNames(entries) ==> r.value.variables[k] == c.variables[k]
  {
    if |entries| > 0 && GoodVariable(entries[0]) {
      var c' := AddVariable(c, entries[0].0.s, ScalarText(entries[0].1, env)).0;
      AddVariablesKeys(entries[1..], c', env);
      VariableNamesFront(entries);
    }
  }

  /** A fact about the loop alone: on a tree that repeats a variable name
      (which the scanner never produces), the last entry's default is the
      one kept, since `add_variable` upserts. */
  lemma {:induction false} AddVariablesLastWins(entries: seq<(Yaml, Yaml)>, c: TemplateConfig, env: ParserEnv)
    ensures var r := AddVariables(entries, c, env);
      r.Ok? ==> forall i :: 0 <= i < |entries| && LastWithKey(entries, i) ==>
        && entries[i].0.s in r.value.variables
        && r.value.variables[entries[i].0.s] == ScalarText(entries[i].1, env)
  {
    var r := AddVariables(entries, c, env);
    if |entries| > 0 && GoodVariable(entries[0]) && r.Ok? {
      var name := entries[0].0.s;
      var c' := AddVariable(c, name, ScalarText(entries[0].1, env)).0;
      AddVariablesLastWins(entries[1..], c', env);
      AddVariablesKeys(entries[1..], c', env);
      VariableNamesFront(entries);
      forall i | 0 <= i < |entries| && LastWithKey(entries, i)
        ensures entries[i].0.s in r.value.variables
        ensures r.value.variables[entries[i].0.s] == ScalarText(entries[i].1, env)
      {
        if i > 0 {
          assert entries[1..][i - 1] == entries[i];
          assert LastWithKey(entries[1..], i - 1);
        } else {
          assert name !in VariableNames(entries[1..]);
        }
      }
    }
  }

  /** With the distinct keys the scanner guarantees, every declared
      variable is stored with its own entry's default. */
  lemma AddVariablesStoresEach(entries: seq<(Yaml, Yaml)>, c: TemplateConfig, env: ParserEnv)
    requires DistinctKeys(entries)
    ensures var r := AddVariables(entries, c, env);
      r.Ok? ==> forall i :: 0 <= i < |entries| ==>
        && entries[i].0.Str? && entries[i].0.s in r.value.variables
        && r.value.variables[entries[i].0.s] == ScalarText(entries[i].1, env)
  {
    AddVariablesLastWins(entries, c, env);
    var r := AddVariables(entries, c, env);
    if r.Ok? {
      forall i | 0 <= i < |entries| ensures LastWithKey(entries, i) && GoodVariable(entries[i]) {
      }
    }
  }

  /** Reads the optional `variables` mapping into `c`. */
  function ParseVariables(root: seq<(Yaml, Yaml)>, c: TemplateConfig, env: ParserEnv): (r: Result<TemplateConfig, ConfigParseError>)
    ensures Get(root, KeyVariables).None? ==> r == Ok(c)
    ensures Get(root, KeyVariables).Some? && !Get(root, KeyVariables).value.Mapping? ==>
      r == Err(VariablesMustBeAMapping)
    ensures Get(root, KeyVariables).Some? && Get(root, KeyVariables).value.Mapping? ==>
      r == AddVariables(Get(root, KeyVariables).value.entries, c, env)
    ensures r.Ok? ==> r.value.(variables := c.variables) == c
  {
    match Get(root, KeyVariables)
    case None => Ok(c)
    case Some(v) => if v.Mapping? then AddVariables(v.entries, c, env) else Err(VariablesMustBeAMapping)
  }

  // ---------------------------------------------------------- the parser

  /** The parse of one document. When `selectMode` holds the fresh
      configuration is first switched to the document's mode; the source
      omits that step (see `ParseDocumentAsWritten`). */
  function ParseWith(doc: Yaml, env: ParserEnv, selectMode: bool): (r: Result<TemplateConfig, ConfigParseError>)
  {
    if !doc.Mapping? then Err(ConfigMustBeAMapping)
    else
      var root := doc.entries;
      var t :- ParseOutputType(root);
      var output :- ParseOutputBlock(root);
      var name :- ParseOutputName(output, t);
      var patterns :- ParseIncluded(root, t, env);
      ParseVariables(root, Base(t, name, patterns, selectMode), env)
  }

  /** The configuration the parser builds before reading the variables:
      a fresh one, switched to mode `t` when `selectMode` holds, given the
      name through the setter for `t`, and given the patterns. Without the
      switch the fresh File mode stays and a directory name is dropped. */
  function Base(t: OutputType, name: string, patterns: seq<string>, selectMode: bool): (c: TemplateConfig)
    ensures selectMode ==> c == TemplateConfig(patterns, map[], t,
      if t == File then Some(name) else None, if t == Directory then Some(name) else None)
    ensures !selectMode ==> c == TemplateConfig(patterns, map[], File,
      if t == File then Some(name) else None, None)
  {
    var c0 := if selectMode then SetOutputType(New(), t) else New();
    var c1 := if t == File then SetOutputFilename(c0, name) else SetOutputDirectory(c0, name);
    UpdateIncludedFilePatterns(c1, patterns)
  }

  /** The configuration parser with the mode switch that the `type` key and
      `set_output_type` imply: the declared mode is set before the name. */
  function ParseDocument(doc: Yaml, env: ParserEnv): (r: Result<TemplateConfig, ConfigParseError>)
    ensures !doc.Mapping? ==> r == Err(ConfigMustBeAMapping)
    ensures r.Ok? ==> ModeConsistent(r.value)
  {
    ParseWith(doc, env, true)
  }

  /** The checks run in a fixed order (type, output block, output name,
      include, variables) and the first failing one decides the error. */
  lemma ParseErrorOrder(doc: Yaml, env: ParserEnv)
    requires doc.Mapping?
    ensures var r := ParseDocument(doc, env);
      var root := doc.entries;
      var t := ParseOutputType(root);
      var output := ParseOutputBlock(root);
      && (t.Err? ==> r == Err(t.error))
      && (t.Ok? && output.Err? ==> r == Err(output.error))
      && (t.Ok? && output.Ok? && ParseOutputName(output.value, t.value).Err? ==>
            r == Err(ParseOutputName(output.value, t.value).error))
      && (t.Ok? && output.Ok? && ParseOutputName(output.value, t.value).Ok?
            && ParseIncluded(root, t.value, env).Err? ==>
            r == Err(ParseIncluded(root, t.value, env).error))
      && (t.Ok? && output.Ok? && ParseOutputName(output.value, t.value).Ok?
            && ParseIncluded(root, t.value, env).Ok? ==>
            r == ParseVariables(root, Base(t.value, ParseOutputName(output.value, t.value).value,
                                           ParseIncluded(root, t.value, env).value, true), env))
  {
  }

  /** The parser exactly as the source writes it: the configuration keeps
      the File mode of `TemplateConfig::new`, so a directory name is dropped
      by the mode-guarded setter. */
  function ParseDocumentAsWritten(doc: Yaml, env: ParserEnv): (r: Result<TemplateConfig, ConfigParseError>)
    ensures r.Ok? ==> r.value.outputType == File && r.value.outputDirectory.None?
  {
    ParseWith(doc, env, false)
  }

  /** `parse_config_from_yaml_string` as written, from the scanner's
      outcome: a scan error is reported as such, otherwise the first document
      is parsed without the mode switch and any later ones are ignored, so
      every configuration it returns is in File mode. The source indexes the
      first document without checking that one exists, so an empty stream is
      excluded. */
  function ParseYamlString(scanned: Scanned, env: ParserEnv): (r: Result<TemplateConfig, ConfigParseError>)
    requires scanned.Documents? ==> |scanned.docs| > 0
    ensures scanned.ScanFailed? ==> r == Err(YamlParseError(scanned.error))
    ensures scanned.Documents? ==> r == ParseDocumentAsWritten(scanned.docs[0], env)
    ensures r.Ok? ==> r.value.outputType == File && r.value.outputDirectory.None?
  {
    match scanned
    case ScanFailed(e) => Err(YamlParseError(e))
    case Documents(docs) => ParseDocumentAsWritten(docs[0], env)
  }

  /** The same entry point with the mode switch: it fails exactly when the
      source does, with the same error, and on success differs from it only
      in keeping the declared mode and directory name. */
  function ParseYamlStringCorrected(scanned: Scanned, env: ParserEnv): (r: Result<TemplateConfig, ConfigParseError>)
    requires scanned.Documents? ==> |scanned.docs| > 0
    ensures scanned.ScanFailed? ==> r == Err(YamlParseError(scanned.error))
    ensures scanned.Documents? ==> r == ParseDocument(scanned.docs[0], env)
    ensures r.Ok? ==> ModeConsistent(r.value)
    ensures r.Err? <==> ParseYamlString(scanned, env).Err?
    ensures r.Err? ==> r.error == ParseYamlString(scanned, env).error
    ensures r.Ok? ==> ParseYamlString(scanned, env).value == r.value.(outputType := File, outputDirectory := None)
  {
    match scanned
    case ScanFailed(e) => Err(YamlParseError(e))
    case Documents(docs) =>
      AsWrittenDiffersOnlyInMode(docs[0], env);
      ParseDocument(docs[0], env)
  }

  // ------------------------------------------------- what a document declares

  /** The root mapping's entries (empty for any other root). */
  function RootEntries(doc: Yaml): seq<(Yaml, Yaml)> {
    if doc.Mapping? then doc.entries else []
  }

  /** The mode the document's `type` names, if any. */
  function DeclaredMode(doc: Yaml): Option<OutputType> {
    match Get(RootEntries(doc), KeyOutputType)
    case None => None
    case Some(v) => ModeNamed(v)
  }

  /** The string stored under `output.<key>`, if there is one. */
  function DeclaredOutputString(doc: Yaml, key: string): Option<string> {
    match Get(RootEntries(doc), KeyOutput)
    case Some(Mapping(output)) =>
      (match Get(output, key) case Some(Str(s)) => Some(s) case _ => None)
    case _ => None
  }

  /** The `include` value is acceptable for mode `t`. */
  predicate ValidInclude(v: Option<Yaml>, t: OutputType, env: ParserEnv) {
    match v
    case Some(Str(s)) => env.compileGlob(s).None? && env.buildGlobSet([s]).None?
    case Some(Sequence(items)) =>
      && (t == File ==> |items| <= 1)
      && (forall i :: 0 <= i < |items| ==> GoodGlob(items[i], env))
      && env.buildGlobSet(GlobTexts(items)).None?
    case _ => false
  }

  /** The patterns an `include` value lists, in order. */
  function DeclaredPatterns(doc: Yaml): seq<string> {
    match Get(RootEntries(doc), KeyIncludedFiles)
    case Some(Str(s)) => [s]
    case Some(Sequence(items)) => GlobTexts(items)
    case _ => []
  }

  /** The `variables` value is absent, or a mapping of string names to scalars. */
  predicate ValidVariables(v: Option<Yaml>) {
    match v
    case None => true
    case Some(Mapping(entries)) => forall i :: 0 <= i < |entries| ==> GoodVariable(entries[i])
    case Some(_) => false
  }

  /** The entries of the `variables` mapping (empty when absent). */
  function DeclaredVariables(doc: Yaml): seq<(Yaml, Yaml)> {
    match Get(RootEntries(doc), KeyVariables)
    case Some(Mapping(entries)) => entries
    case _ => []
  }

  /** The document satisfies the whole schema; a declarative statement with
      no order among the checks. */
  predicate ValidDocument(doc: Yaml, env: ParserEnv) {
    && doc.Mapping?
    && DeclaredMode(doc).Some?
    && DeclaredOutputString(doc, NameKey(DeclaredMode(doc).value)).Some?
    && ValidInclude(Get(doc.entries, KeyIncludedFiles), DeclaredMode(doc).value, env)
    && ValidVariables(Get(doc.entries, KeyVariables))
  }

  lemma ParseIncludedOk(root: seq<(Yaml, Yaml)>, t: OutputType, env: ParserEnv)
    ensures ParseIncluded(root, t, env).Ok? <==> ValidInclude(Get(root, KeyIncludedFiles), t, env)
    ensures ParseIncluded(root, t, env).Ok? ==>
      ParseIncluded(root, t, env).value == DeclaredPatterns(Mapping(root))
  {
    match Get(root, KeyIncludedFiles)
    case None =>
    case Some(v) =>
      if v.Sequence? && (t == Directory || |v.items| <= 1) {
        var k := FirstBadGlob(v.items, env);
        if k < |v.items| {
          assert !GoodGlob(v.items[k], env);
        }
      }
  }

  /** The `variables` entry is absent, or a mapping whose every entry the
      loop accepts. */
  predicate VariablesAccepted(root: seq<(Yaml, Yaml)>) {
    match Get(root, KeyVariables)
    case None => true
    case Some(v) => v.Mapping? && FirstBadVariable(v.entries) == |v.entries|
  }

  /** The parse succeeds exactly when every stage does; the variables stage
      does not depend on the configuration built so far. */
  lemma ParseWithOk(doc: Yaml, env: ParserEnv, selectMode: bool)
    requires doc.Mapping?
    ensures ParseWith(doc, env, selectMode).Ok? <==>
      var root := doc.entries;
      var t := ParseOutputType(root);
      var output := ParseOutputBlock(root);
      && t.Ok? && output.Ok? && ParseOutputName(output.value, t.value).Ok?
      && ParseIncluded(root, t.value, env).Ok? && VariablesAccepted(root)
  {
  }

  /** The output stages succeed exactly when the document names a mode and
      a string name for it. */
  lemma OutputStagesOk(doc: Yaml)
    requires doc.Mapping?
    ensures var root := doc.entries;
      var t := ParseOutputType(root);
      var output := ParseOutputBlock(root);
      (t.Ok? && output.Ok? && ParseOutputName(output.value, t.value).Ok?) <==>
        DeclaredMode(doc).Some? && DeclaredOutputString(doc, NameKey(DeclaredMode(doc).value)).Some?
  {
  }

  /** The variables stage accepts exactly the valid `variables` values. */
  lemma VariablesStageOk(root: seq<(Yaml, Yaml)>)
    ensures VariablesAccepted(root) <==> ValidVariables(Get(root, KeyVariables))
  {
    match Get(root, KeyVariables)
    case None =>
    case Some(v) =>
      if v.Mapping? {
        var k := FirstBadVariable(v.entries);
        if k < |v.entries| {
          assert !GoodVariable(v.entries[k]);
        }
      }
  }

  /** The parser accepts exactly the documents that satisfy the schema. */
  lemma ParseSucceedsIff(doc: Yaml, env: ParserEnv)
    ensures ParseDocument(doc, env).Ok? <==> ValidDocument(doc, env)
  {
    if doc.Mapping? {
      var root := doc.entries;
      ParseWithOk(doc, env, true);
      OutputStagesOk(doc);
      VariablesStageOk(root);
      if DeclaredMode(doc).Some? {
        ParseIncludedOk(root, DeclaredMode(doc).value, env);
      }
    }
  }

  /** A successful parse passed every stage and is the variables read into
      the configuration built from the earlier stages. */
  lemma ParsedStages(doc: Yaml, env: ParserEnv)
    ensures ParseDocument(doc, env).Ok? ==> doc.Mapping?
    ensures ParseDocument(doc, env).Ok? ==>
      var root := doc.entries;
      var t := ParseOutputType(root);
      var output := ParseOutputBlock(root);
      && t.Ok? && output.Ok? && ParseOutputName(output.value, t.value).Ok?
      && ParseIncluded(root, t.value, env).Ok?
      && ParseVariables(root, Base(t.value, ParseOutputName(output.value, t.value).value,
                                   ParseIncluded(root, t.value, env).value, true), env)
         == ParseDocument(doc, env)
  {
    if doc.Mapping? {
      ParseErrorOrder(doc, env);
    }
  }

  /** A parsed configuration holds exactly what the document declares: its
      mode, the name for that mode (and no name for the other), its glob
      patterns in order, and one variable per declared name. */
  lemma ParsedContents(doc: Yaml, env: ParserEnv)
    ensures ParseDocument(doc, env).Ok? ==>
      var c := ParseDocument(doc, env).value;
      && DeclaredMode(doc) == Some(c.outputType)
      && ConfiguredOutputName(c) == DeclaredOutputString(doc, NameKey(c.outputType))
      && ConfiguredOutputName(c).Some?
      && (c.outputType == File ==> c.outputDirectory.None?)
      && (c.outputType == Directory ==> c.outputFilename.None?)
      && c.includedFilePatterns == DeclaredPatterns(doc)
      && c.variables.Keys == VariableNames(DeclaredVariables(doc))
  {
    if ParseDocument(doc, env).Err? {
      return;
    }
    ParsedStages(doc, env);
    var root := doc.entries;
    var t := ParseOutputType(root).value;
    var name := ParseOutputName(ParseOutputBlock(root).value, t).value;
    var patterns := ParseIncluded(root, t, env).value;
    var base := Base(t, name, patterns, true);
    var c := ParseDocument(doc, env).value;
    assert c.(variables := base.variables) == base;
    assert DeclaredMode(doc) == Some(t);
    assert DeclaredOutputString(doc, NameKey(t)) == Some(name);
    ParseIncludedOk(root, t, env);
    AddVariablesKeys(DeclaredVariables(doc), base, env);
  }

  /** With the distinct keys the scanner guarantees, a parsed configuration
      stores each declared variable with the text of its own default. */
  lemma ParsedDefaults(doc: Yaml, env: ParserEnv)
    ensures ParseDocument(doc, env).Ok? && DistinctKeys(DeclaredVariables(doc)) ==>
      var c := ParseDocument(doc, env).value;
      var entries := DeclaredVariables(doc);
      forall i :: 0 <= i < |entries| ==>
        && entries[i].0.Str? && IsScalar(entries[i].1) && entries[i].0.s in c.variables
        && c.variables[entries[i].0.s] == ScalarText(entries[i].1, env)
  {
    if !(ParseDocument(doc, env).Ok? && DistinctKeys(DeclaredVariables(doc))) {
      return;
    }
    ParsedStages(doc, env);
    var root := doc.entries;
    var t := ParseOutputType(root).value;
    var name := ParseOutputName(ParseOutputBlock(root).value, t).value;
    var patterns := ParseIncluded(root, t, env).value;
    var base := Base(t, name, patterns, true);
    AddVariablesStoresEach(DeclaredVariables(doc), base, env);
  }

  // ----------------------------------------------- the missing mode switch

  /** The source and the corrected parser reject the same documents with
      the same errors; on success they differ only in the mode and the
      directory name. */
  lemma AsWrittenDiffersOnlyInMode(doc: Yaml, env: ParserEnv)
    ensures ParseDocumentAsWritten(doc, env).Err? <==> ParseDocument(doc, env).Err?
    ensures ParseDocument(doc, env).Err? ==>
      ParseDocumentAsWritten(doc, env).error == ParseDocument(doc, env).error
    ensures ParseDocument(doc, env).Ok? ==>
      ParseDocumentAsWritten(doc, env).value ==
        ParseDocument(doc, env).value.(outputType := File, outputDirectory := None)
  {
    if doc.Mapping? {
      var root := doc.entries;
      var t := ParseOutputType(root);
      var output := ParseOutputBlock(root);
      if t.Ok? && output.Ok? && ParseOutputName(output.value, t.value).Ok? && ParseIncluded(root, t.value, env).Ok? {
        var name := ParseOutputName(output.value, t.value).value;
        var patterns := ParseIncluded(root, t.value, env).value;
        var a := Base(t.value, name, patterns, false);
        var b := Base(t.value, name, patterns, true);
        match Get(root, KeyVariables)
        case None =>
        case Some(v) =>
          if v.Mapping? {
            AddVariablesOnlyTouchesVariables(v.entries, a, b, env);
          }
      }
    }
  }

  /** The variables loop reads and writes only the variable map. */
  lemma {:induction false} AddVariablesOnlyTouchesVariables(entries: seq<(Yaml, Yaml)>, a: TemplateConfig, b: TemplateConfig, env: ParserEnv)
    requires a.variables == b.variables
    ensures AddVariables(entries, a, env).Err? <==> AddVariables(entries, b, env).Err?
    ensures AddVariables(entries, a, env).Err? ==> AddVariables(entries, a, env).error == AddVariables(entries, b, env).error
    ensures AddVariables(entries, a, env).Ok? ==>
      AddVariables(entries, a, env).value.variables == AddVariables(entries, b, env).value.variables
    decreases |entries|
  {
    if |entries| > 0 && GoodVariable(entries[0]) {
      var name := entries[0].0.s;
      var text := ScalarText(entries[0].1, env);
      AddVariablesOnlyTouchesVariables(entries[1..], AddVariable(a, name, text).0, AddVariable(b, name, text).0, env);
    }
  }

  /** A concrete directory-mode document. */
  const DirectoryDocument: Yaml := Mapping([
    (Str("type"), Str("directory")),
    (Str("output"), Mapping([(Str("directory"), Str("out"))])),
    (Str("include"), Str("*"))])

  /** Collaborators under which every glob compiles and builds. */
  const AcceptingGlobs: ParserEnv := ParserEnv(s => None, ps => None, b => "")

  /** The stages of the parse on `DirectoryDocument`, before the
      configuration is built. */
  lemma DirectoryDocumentStages()
    ensures ParseOutputType(DirectoryDocument.entries) == Ok(Directory)
    ensures ParseOutputBlock(DirectoryDocument.entries) == Ok([(Str("directory"), Str("out"))])
    ensures ParseOutputName([(Str("directory"), Str("out"))], Directory) == Ok("out")
    ensures ParseIncluded(DirectoryDocument.entries, Directory, AcceptingGlobs) == Ok(["*"])
    ensures Get(DirectoryDocument.entries, KeyVariables).None?
  {
    var root := DirectoryDocument.entries;
    assert root[0].0 == Str(KeyOutputType);
    assert root[1].0 == Str(KeyOutput) && root[0].0 != Str(KeyOutput);
    assert root[2].0 == Str(KeyIncludedFiles) && root[0].0 != Str(KeyIncludedFiles) && root[1].0 != Str(KeyIncludedFiles);
    assert Get(root, KeyIncludedFiles) == Some(Str("*"));
    assert forall i :: 0 <= i < |root| ==> root[i].0 != Str(KeyVariables);
  }

  /** As written, a `type: directory` document parses successfully into a
      File-mode configuration that has lost its directory name. */
  lemma AsWrittenLosesDirectoryMode()
    ensures ParseDocumentAsWritten(DirectoryDocument, AcceptingGlobs).Ok?
    ensures ParseDocumentAsWritten(DirectoryDocument, AcceptingGlobs).value.outputType == File
    ensures ParseDocumentAsWritten(DirectoryDocument, AcceptingGlobs).value.outputDirectory.None?
    ensures DeclaredMode(DirectoryDocument) == Some(Directory)
  {
    DirectoryDocumentStages();
  }

  /** The corrected parser keeps the declared mode and directory name. */
  lemma CorrectedKeepsDirectoryMode()
    ensures ParseDocument(DirectoryDocument, AcceptingGlobs) ==
      Ok(TemplateConfig(["*"], map[], Directory, None, Some("out")))
  {
    DirectoryDocumentStages();
  }
}
