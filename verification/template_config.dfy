/** The template configuration record (`TemplateConfig`) and its mutators.
    The compiled glob set is kept as the list of pattern strings it was built
    from; matching a path against it is a collaborator supplied by callers. */
module TemplateConfig {
  import opened Common

  /** What a template renders: one file, or a directory tree. */
  datatype OutputType = File | Directory

  datatype TemplateConfig = TemplateConfig(
    includedFilePatterns: seq<string>,
    variables: map<string, string>,
    outputType: OutputType,
    outputFilename: Option<string>,
    outputDirectory: Option<string>)

  /** A filename is only ever held in File mode and a directory name only in
      Directory mode. */
  predicate ModeConsistent(c: TemplateConfig) {
    && (c.outputFilename.Some? ==> c.outputType == File)
    && (c.outputDirectory.Some? ==> c.outputType == Directory)
  }

  /** `GlobSet::is_match`: whether a path relative to the template's file
      root matches one of the compiled patterns. */
  type GlobMatcher = (seq<string>, Path) -> bool

  /** `TemplateConfig::new`: File mode, no names, no variables, empty glob set. */
  function New(): (c: TemplateConfig)
    ensures ModeConsistent(c)
    ensures c.outputType == File && c.outputFilename.None? && c.outputDirectory.None?
    ensures |c.variables| == 0 && |c.includedFilePatterns| == 0
  {
    TemplateConfig([], map[], File, None, None)
  }

  /** `update_included_file_patterns`: replaces the glob set. */
  function UpdateIncludedFilePatterns(c: TemplateConfig, patterns: seq<string>): (r: TemplateConfig)
    ensures r.includedFilePatterns == patterns
    ensures r.(includedFilePatterns := c.includedFilePatterns) == c
    ensures ModeConsistent(c) ==> ModeConsistent(r)
  {
    c.(includedFilePatterns := patterns)
  }

  /** `should_include_file`. */
  predicate ShouldIncludeFile(c: TemplateConfig, matcher: GlobMatcher, relative: Path) {
    matcher(c.includedFilePatterns, relative)
  }

  /** `add_variable`: upserts `name`, returning the configuration with the
      new default and the default it replaced, if any. */
  function AddVariable(c: TemplateConfig, name: string, default: string): (r: (TemplateConfig, Option<string>))
    ensures name in r.0.variables && r.0.variables[name] == default
    ensures r.0.variables.Keys == c.variables.Keys + {name}
    ensures forall k :: k in c.variables && k != name ==> r.0.variables[k] == c.variables[k]
    ensures r.1.Some? <==> name in c.variables
    ensures r.1.Some? ==> r.1.value == c.variables[name]
    ensures r.0.(variables := c.variables) == c
    ensures ModeConsistent(c) ==> ModeConsistent(r.0)
  {
    var previous := if name in c.variables then Some(c.variables[name]) else None;
    (c.(variables := c.variables[name := default]), previous)
  }

  /** `set_output_type`: switching mode clears the name of the mode being left;
      setting the current mode changes nothing. */
  function SetOutputType(c: TemplateConfig, t: OutputType): (r: TemplateConfig)
    ensures r.outputType == t
    ensures t == c.outputType ==> r == c
    ensures c.outputType == File && t == Directory ==> r.outputFilename.None? && r.outputDirectory == c.outputDirectory
    ensures c.outputType == Directory && t == File ==> r.outputDirectory.None? && r.outputFilename == c.outputFilename
    ensures r.variables == c.variables && r.includedFilePatterns == c.includedFilePatterns
    ensures ModeConsistent(c) ==> ModeConsistent(r)
  {
    match (c.outputType, t)
    case (File, File) => c
    case (Directory, Directory) => c
    case (File, _) => c.(outputType := t, outputFilename := None)
    case (Directory, _) => c.(outputType := t, outputDirectory := None)
  }

  /** `set_output_filename`: takes effect only in File mode. */
  function SetOutputFilename(c: TemplateConfig, filename: string): (r: TemplateConfig)
    ensures c.outputType == File ==> r.outputFilename == Some(filename)
    ensures c.outputType != File ==> r == c
    ensures r.(outputFilename := c.outputFilename) == c
    ensures ModeConsistent(c) ==> ModeConsistent(r)
  {
    if c.outputType == File then c.(outputFilename := Some(filename)) else c
  }

  /** `set_output_directory`: takes effect only in Directory mode. */
  function SetOutputDirectory(c: TemplateConfig, directory: string): (r: TemplateConfig)
    ensures c.outputType == Directory ==> r.outputDirectory == Some(directory)
    ensures c.outputType != Directory ==> r == c
    ensures r.(outputDirectory := c.outputDirectory) == c
    ensures ModeConsistent(c) ==> ModeConsistent(r)
  {
    if c.outputType == Directory then c.(outputDirectory := Some(directory)) else c
  }

  /** The name configured for the current mode. */
  function ConfiguredOutputName(c: TemplateConfig): Option<string> {
    if c.outputType == File then c.outputFilename else c.outputDirectory
  }

  /** Names of a list of (name, default) pairs. */
  function Names(items: seq<(string, string)>): seq<string> {
    seq(|items|, i requires 0 <= i < |items| => items[i].0)
  }

  /** No name occurs twice. */
  predicate Distinct(names: seq<string>) {
    forall i, j :: 0 <= i < j < |names| ==> names[i] != names[j]
  }

  /** The set of names of a list of (name, default) pairs. */
  function NameSet(items: seq<(string, string)>): set<string> {
    set i | 0 <= i < |items| :: items[i].0
  }

  /** Every pair is a stored variable with its default. */
  predicate Stored(items: seq<(string, string)>, variables: map<string, string>) {
    forall i :: 0 <= i < |items| ==> items[i].0 in variables && variables[items[i].0] == items[i].1
  }

  /** Appending a stored pair whose name is new keeps the names distinct
      and the pairs stored, and adds its name to the set. */
  lemma AppendItem(items: seq<(string, string)>, k: string, variables: map<string, string>)
    requires Distinct(Names(items)) && Stored(items, variables)
    requires k in variables && k !in NameSet(items)
    ensures Distinct(Names(items + [(k, variables[k])]))
    ensures Stored(items + [(k, variables[k])], variables)
    ensures NameSet(items + [(k, variables[k])]) == NameSet(items) + {k}
  {
    var items' := items + [(k, variables[k])];
    assert forall i :: 0 <= i < |items| ==> items'[i] == items[i];
    assert Names(items') == Names(items) + [k];
    forall i | 0 <= i < |items| ensures items[i].0 != k {
      assert items[i].0 in NameSet(items);
    }
    assert items'[|items|].0 == k;
    assert NameSet(items') == NameSet(items) + {k};
  }

  /** `get_variable_items`: a snapshot of the stored (name, default) pairs,
      each exactly once, in the map's (unspecified) iteration order. */
  method VariableItems(c: TemplateConfig) returns (items: seq<(string, string)>)
    ensures |items| == |c.variables|
    ensures Distinct(Names(items))
    ensures Stored(items, c.variables)
    ensures NameSet(items) == c.variables.Keys
  {
    var remaining := c.variables.Keys;
    items := [];
    while remaining != {}
      invariant remaining <= c.variables.Keys
      invariant |items| + |remaining| == |c.variables.Keys|
      invariant Distinct(Names(items))
      invariant Stored(items, c.variables)
      invariant NameSet(items) == c.variables.Keys - remaining
      decreases remaining
    {
      var k :| k in remaining;
      AppendItem(items, k, c.variables);
      items := items + [(k, c.variables[k])];
      remaining := remaining - {k};
    }
  }

  /** The context after inserting the first `n` pairs, one at a time, into
      an empty one. A tera context is modelled as a map from names to string
      values. */
  function InsertedUpTo(items: seq<(string, string)>, n: nat): map<string, string>
    requires n <= |items|
  {
    if n == 0 then map[] else InsertedUpTo(items, n - 1)[items[n - 1].0 := items[n - 1].1]
  }

  /** The names of the first `n` pairs. */
  function NameSetUpTo(items: seq<(string, string)>, n: nat): set<string>
    requires n <= |items|
  {
    if n == 0 then {} else NameSetUpTo(items, n - 1) + {items[n - 1].0}
  }

  /** Inserting stored pairs binds exactly their names, each to its stored
      default, whatever the order and even if a pair repeats. */
  lemma {:induction false} InsertedUpToSpec(items: seq<(string, string)>, n: nat, variables: map<string, string>)
    requires n <= |items| && Stored(items, variables)
    ensures InsertedUpTo(items, n).Keys == NameSetUpTo(items, n)
    ensures forall k :: k in InsertedUpTo(items, n) ==> k in variables && InsertedUpTo(items, n)[k] == variables[k]
  {
    if n > 0 {
      var m := n - 1;
      InsertedUpToSpec(items, m, variables);
    }
  }

  /** The first `n` names, as a set, are those of the first `n` pairs. */
  lemma {:induction false} NameSetUpToSpec(items: seq<(string, string)>, n: nat)
    requires n <= |items|
    ensures NameSetUpTo(items, n) == set i | 0 <= i < n :: items[i].0
  {
    if n > 0 {
      var m := n - 1;
      NameSetUpToSpec(items, m);
      assert (set i | 0 <= i < n :: items[i].0) == (set i | 0 <= i < m :: items[i].0) + {items[m].0};
    }
  }

  /** Any snapshot that covers the variables with their defaults, in any
      order, yields the variable map itself once every pair is inserted. */
  lemma SnapshotContext(items: seq<(string, string)>, variables: map<string, string>)
    requires Stored(items, variables) && NameSet(items) == variables.Keys
    ensures InsertedUpTo(items, |items|) == variables
  {
    InsertedUpToSpec(items, |items|, variables);
    NameSetUpToSpec(items, |items|);
  }

  /** `get_render_context`: inserts every (name, default) pair of the
      variables, in the map's iteration order, into a fresh context. The
      result does not depend on that order. */
  method RenderContext(c: TemplateConfig) returns (ctx: map<string, string>)
    ensures ctx.Keys == c.variables.Keys
    ensures forall k :: k in ctx ==> ctx[k] == c.variables[k]
  {
    var items := VariableItems(c);
    ctx := map[];
    var i := 0;
    while i < |items|
      invariant 0 <= i <= |items|
      invariant ctx == InsertedUpTo(items, i)
    {
      ctx := ctx[items[i].0 := items[i].1];
      i := i + 1;
    }
    SnapshotContext(items, c.variables);
  }
}
