/** The decision logic of `utsusu-cli` once the template directory is known:
    which enumerated files are selected, which prompts are shown, and how
    the File and Directory modes dispatch to loading, rendering and writing,
    ending in an exit code. Every filesystem and engine call is a
    collaborator whose outcome is an input. */
module Cli {
  import opened Common
  import opened TemplateConfig
  import opened ConfigParser
  import opened UserInput
  import opened SingleFileRender
  import opened Enumerator

  /** `ConfigParseFromFileError`: the file could not be read, or it did not
      parse. */
  datatype ConfigLoadError = FileReadError(io: IoError) | ParseError(parse: ConfigParseError)

  /** The outcomes of the calls the CLI makes that this model does not
      describe: glob matching, `is_file`, loading templates into the engine,
      rendering, `create_dir` and `fs::write`. */
  datatype Collaborators = Collaborators(
    matcher: GlobMatcher,
    isFile: IsRegularFile,
    load: TemplateLoader,
    render: Renderer,
    createDir: Path -> bool,
    write: (Path, string) -> bool)

  /** What a run did: its exit code, whether the user was prompted, whether
      template loading was attempted, the templates whose rendering was
      attempted, and the destinations written, in order. */
  datatype Outcome = Outcome(code: int, prompted: bool, loaded: bool, attempted: seq<Path>, written: seq<Path>)

  // Exit codes passed to `exit`.
  const ExitConfigError := -1
  const ExitEnumerationError := -2
  const ExitTooManyFiles := -3
  const ExitLoadError := -4
  const ExitNoMatchingFiles := -5
  const ExitRenderError := -6
  const ExitWriteError := -7
  const ExitCreateDirError := -8
  const ExitSuccess := 0

  /** An output name typed at a prompt, as a path. Path strings are kept
      whole: separators inside a name are not split into components. */
  function PathOf(name: string): Path {
    [name]
  }

  /** Whether an enumerated file is rendered: its path relative to the files
      directory exists and matches the include globs. */
  predicate Selected(f: Path, root: Path, c: TemplateConfig, matcher: GlobMatcher) {
    match StripPrefix(f, root)
    case None => false
    case Some(rel) => ShouldIncludeFile(c, matcher, rel)
  }

  /** The file selection loop: the enumerated files that are selected, in
      enumeration order. */
  function Select(files: seq<Path>, root: Path, c: TemplateConfig, matcher: GlobMatcher): (r: seq<Path>)
    ensures forall f :: f in r ==> root <= f && ShouldIncludeFile(c, matcher, f[|root|..])
  {
    if |files| == 0 then []
    else
      var rest := Select(files[1..], root, c, matcher);
      if Selected(files[0], root, c, matcher) then [files[0]] + rest else rest
  }

  /** Selection keeps each selected file as often as it was enumerated and
      drops every other one. */
  lemma {:induction false} SelectCount(files: seq<Path>, root: Path, c: TemplateConfig, matcher: GlobMatcher)
    ensures forall f ::
      multiset(Select(files, root, c, matcher))[f] == if Selected(f, root, c, matcher) then multiset(files)[f] else 0
  {
    if |files| > 0 {
      SelectCount(files[1..], root, c, matcher);
      assert files == [files[0]] + files[1..];
    }
  }

  /** A file is selected exactly when it was enumerated and passes the
      filter. */
  lemma SelectMembers(files: seq<Path>, root: Path, c: TemplateConfig, matcher: GlobMatcher)
    ensures forall f :: f in Select(files, root, c, matcher) <==> f in files && Selected(f, root, c, matcher)
  {
    SelectCount(files, root, c, matcher);
    forall f ensures f in Select(files, root, c, matcher) <==> f in files && Selected(f, root, c, matcher) {
      assert f in Select(files, root, c, matcher) <==> multiset(Select(files, root, c, matcher))[f] > 0;
      assert f in files <==> multiset(files)[f] > 0;
    }
  }

  /** Selection keeps enumeration order: it distributes over concatenation. */
  lemma {:induction false} SelectConcat(a: seq<Path>, b: seq<Path>, root: Path, c: TemplateConfig, matcher: GlobMatcher)
    ensures Select(a + b, root, c, matcher) == Select(a, root, c, matcher) + Select(b, root, c, matcher)
  {
    if |a| == 0 {
      assert a + b == b;
    } else {
      var ab := a + b;
      assert ab[0] == a[0];
      assert ab[1..] == a[1..] + b;
      SelectConcat(a[1..], b, root, c, matcher);
      var front := if Selected(a[0], root, c, matcher) then [a[0]] else [];
      assert Select(ab, root, c, matcher) == front + Select(a[1..] + b, root, c, matcher);
      assert Select(a, root, c, matcher) == front + Select(a[1..], root, c, matcher);
    }
  }

  /** The name the output goes to: the answer to the output prompt if it was
      not blank, else the name configured for the mode, else the empty
      string. */
  function OutputName(answer: Option<string>, configured: Option<string>): (name: string)
    ensures answer.Some? ==> name == answer.value
    ensures answer.None? && configured.Some? ==> name == configured.value
    ensures answer.None? && configured.None? ==> name == ""
  {
    answer.OrElse(configured).UnwrapOr("")
  }

  /** How far the Directory-mode loop got: the exit code it ends with, the
      templates it tried to render and the destinations it wrote. */
  datatype Progress = Progress(code: int, attempted: seq<Path>, written: seq<Path>)

  /** The Directory-mode loop over the selected files, from the front: each
      file whose relative path strips is rendered into `outDir`; the first
      render or write failure ends the run. */
  function RenderAll(files: seq<Path>, root: Path, outDir: Path, c: TemplateConfig,
                     ctx: map<string, string>, env: Collaborators): (pr: Progress)
    ensures pr.code in {ExitSuccess, ExitRenderError, ExitWriteError}
    ensures |pr.written| <= |pr.attempted| <= |files|
    ensures pr.code == ExitSuccess ==> |pr.written| == |pr.attempted|
    ensures pr.code == ExitWriteError ==> |pr.written| + 1 == |pr.attempted|
    ensures pr.code == ExitRenderError ==> |pr.written| + 1 == |pr.attempted|
  {
    if |files| == 0 then Progress(ExitSuccess, [], [])
    else
      match StripPrefix(files[0], root)
      case None => RenderAll(files[1..], root, outDir, c, ctx, env)
      case Some(rel) =>
        match RenderSingleFile(env.render, c, files[0], Some(ctx))
        case None => Progress(ExitRenderError, [files[0]], [])
        case Some(text) =>
          if !env.write(outDir + rel, text) then Progress(ExitWriteError, [files[0]], [])
          else
            var rest := RenderAll(files[1..], root, outDir, c, ctx, env);
            Progress(rest.code, [files[0]] + rest.attempted, [outDir + rel] + rest.written)
  }

  /** The decision logic of `main` from parsing the template's configuration
      to the final exit. `config` is what `parse_config_from_file` returned,
      `enumerated` what the file enumeration returned for the files
      directory `root`, `outputLine` the line typed at the output prompt and
      `answers` the lines typed at the variable prompts. */
  function Run(config: Result<TemplateConfig, ConfigLoadError>, root: Path, enumerated: Result<seq<Path>, IoError>,
               outputLine: string, answers: map<string, string>, env: Collaborators): (o: Outcome)
    ensures o.code in {ExitConfigError, ExitEnumerationError, ExitTooManyFiles, ExitLoadError,
                       ExitNoMatchingFiles, ExitRenderError, ExitWriteError, ExitCreateDirError, ExitSuccess}
    ensures o.written != [] ==> o.loaded
    ensures o.attempted != [] ==> o.loaded
    ensures o.loaded ==> o.prompted
  {
    match config
    case Err(_) => Outcome(ExitConfigError, false, false, [], [])
    case Ok(c) =>
      match enumerated
      case Err(_) => Outcome(ExitEnumerationError, false, false, [], [])
      case Ok(files) =>
        var selected := Select(files, root, c, env.matcher);
        if |selected| == 0 then Outcome(ExitNoMatchingFiles, false, false, [], [])
        else
          Dispatch(c, root, selected, outputLine, answers, env)
  }

  /** Once some file is selected: the prompts, then the branch for the
      template's mode. */
  function Dispatch(c: TemplateConfig, root: Path, selected: seq<Path>, outputLine: string,
                    answers: map<string, string>, env: Collaborators): (o: Outcome)
    requires |selected| > 0
    ensures o.prompted
    ensures o.code !in {ExitConfigError, ExitEnumerationError, ExitNoMatchingFiles}
  {
    var answer := ReadAnswer(outputLine);
    var ctx := VariableChoices(c.variables, answers);
    if c.outputType == File then RunFile(c, selected, answer, ctx, env)
    else RunDirectory(c, root, selected, answer, ctx, env)
  }

  /** The File branch, after the prompts: a single selected template is
      loaded, rendered and written to the resolved file name. */
  function RunFile(c: TemplateConfig, selected: seq<Path>, answer: Option<string>,
                   ctx: map<string, string>, env: Collaborators): (o: Outcome)
    requires |selected| > 0
    ensures o.prompted && o.code != ExitCreateDirError
    ensures o.code == ExitTooManyFiles <==> |selected| > 1
    ensures o.code == ExitTooManyFiles ==> !o.loaded && o.attempted == [] && o.written == []
    ensures |o.written| <= 1 && |o.attempted| <= 1
    ensures o.written != [] ==> o.loaded
    ensures o.attempted != [] ==> o.loaded
  {
    if |selected| > 1 then Outcome(ExitTooManyFiles, true, false, [], [])
    else if !LoadTemplateFiles(selected, env.isFile, env.load) then Outcome(ExitLoadError, true, true, [], [])
    else
      var dest := PathOf(OutputName(answer, c.outputFilename));
      match RenderSingleFile(env.render, c, selected[0], Some(ctx))
      case None => Outcome(ExitRenderError, true, true, [selected[0]], [])
      case Some(text) =>
        if env.write(dest, text) then Outcome(ExitSuccess, true, true, [selected[0]], [dest])
        else Outcome(ExitWriteError, true, true, [selected[0]], [])
  }

  /** Fed the parser as written, `main` never takes the Directory branch:
      no run creates an output directory, and at most one file is written,
      whatever the document declares. */
  lemma AsWrittenNeverRendersDirectory(doc: Yaml.Yaml, penv: ParserEnv, root: Path, enumerated: Result<seq<Path>, IoError>,
                                       outputLine: string, answers: map<string, string>, env: Collaborators)
    ensures var config := match ParseDocumentAsWritten(doc, penv)
                          case Ok(c) => Ok(c)
                          case Err(e) => Err(ParseError(e));
      var o := Run(config, root, enumerated, outputLine, answers, env);
      o.code != ExitCreateDirError && |o.written| <= 1
  {
  }

  /** The Directory branch, after the prompts: every selected template is
      loaded, the output directory created, and the loop run. */
  function RunDirectory(c: TemplateConfig, root: Path, selected: seq<Path>, answer: Option<string>,
                        ctx: map<string, string>, env: Collaborators): (o: Outcome)
    ensures o.prompted && o.loaded && o.code != ExitTooManyFiles
    ensures o.code in {ExitLoadError, ExitCreateDirError, ExitSuccess, ExitRenderError, ExitWriteError}
    ensures o.code == ExitLoadError <==> !LoadTemplateFiles(selected, env.isFile, env.load)
    ensures o.code in {ExitLoadError, ExitCreateDirError} ==> o.attempted == [] && o.written == []
  {
    if !LoadTemplateFiles(selected, env.isFile, env.load) then Outcome(ExitLoadError, true, true, [], [])
    else
      var outDir := PathOf(OutputName(answer, c.outputDirectory));
      if !env.createDir(outDir) then Outcome(ExitCreateDirError, true, true, [], [])
      else
        var pr := RenderAll(selected, root, outDir, c, ctx, env);
        Outcome(pr.code, true, true, pr.attempted, pr.written)
  }

  /** The Directory-mode loop as the source runs it, with its counter of
      files written. It agrees with `RenderAll`: the same exit code, and the
      counter is the number of successful writes. */
  method WriteTemplates(files: seq<Path>, root: Path, outDir: Path, c: TemplateConfig,
                        ctx: map<string, string>, env: Collaborators) returns (code: int, total: nat)
    ensures code == RenderAll(files, root, outDir, c, ctx, env).code
    ensures total == |RenderAll(files, root, outDir, c, ctx, env).written|
  {
    total := 0;
    var i := 0;
    while i < |files|
      invariant 0 <= i <= |files|
      invariant RenderAll(files, root, outDir, c, ctx, env).code == RenderAll(files[i..], root, outDir, c, ctx, env).code
      invariant |RenderAll(files, root, outDir, c, ctx, env).written| == total + |RenderAll(files[i..], root, outDir, c, ctx, env).written|
    {
      var f := files[i];
      assert files[i..][1..] == files[i + 1..];
      var rel := StripPrefix(f, root);
      if rel.Some? {
        var rendered := RenderSingleFile(env.render, c, f, Some(ctx));
        if rendered.None? {
          return ExitRenderError, total;
        }
        if !env.write(outDir + rel.value, rendered.value) {
          return ExitWriteError, total;
        }
        total := total + 1;
      }
      i := i + 1;
    }
    return ExitSuccess, total;
  }

  /** File `f`, with relative path `rel`, rendered and its write into
      `outDir` succeeded. */
  predicate Delivered(f: Path, rel: Path, outDir: Path, c: TemplateConfig, ctx: map<string, string>, env: Collaborators) {
    var rendered := RenderSingleFile(env.render, c, f, Some(ctx));
    rendered.Some? && env.write(outDir + rel, rendered.value)
  }

  /** Every file the Directory-mode loop counts as written was rendered and
      its write succeeded. */
  lemma {:induction false} RenderAllWrittenDelivered(files: seq<Path>, root: Path, outDir: Path, c: TemplateConfig,
                                                     ctx: map<string, string>, env: Collaborators)
    requires forall k :: 0 <= k < |files| ==> root <= files[k]
    ensures var pr := RenderAll(files, root, outDir, c, ctx, env);
      forall k :: 0 <= k < |pr.written| ==> Delivered(files[k], files[k][|root|..], outDir, c, ctx, env)
  {
    if |files| > 0 {
      RenderAllWrittenDelivered(files[1..], root, outDir, c, ctx, env);
      var pr := RenderAll(files, root, outDir, c, ctx, env);
      var rest := RenderAll(files[1..], root, outDir, c, ctx, env);
      assert StripPrefix(files[0], root) == Some(files[0][|root|..]);
      if |pr.written| > 0 {
        assert Delivered(files[0], files[0][|root|..], outDir, c, ctx, env);
        assert |pr.written| == 1 + |rest.written|;
        forall k | 1 <= k < |pr.written| ensures Delivered(files[k], files[k][|root|..], outDir, c, ctx, env) {
          assert files[1..][k - 1] == files[k];
        }
      }
    }
  }

  /** The Directory-mode loop exits 0 exactly when every selected file
      renders and is written. */
  lemma {:induction false} RenderAllSucceedsIff(files: seq<Path>, root: Path, outDir: Path, c: TemplateConfig,
                                                ctx: map<string, string>, env: Collaborators)
    requires forall k :: 0 <= k < |files| ==> root <= files[k]
    ensures RenderAll(files, root, outDir, c, ctx, env).code == ExitSuccess <==>
      forall k :: 0 <= k < |files| ==> Delivered(files[k], files[k][|root|..], outDir, c, ctx, env)
  {
    if |files| > 0 {
      RenderAllSucceedsIff(files[1..], root, outDir, c, ctx, env);
      assert StripPrefix(files[0], root) == Some(files[0][|root|..]);
      assert forall k :: 1 <= k < |files| ==> files[1..][k - 1] == files[k];
      if Delivered(files[0], files[0][|root|..], outDir, c, ctx, env) {
        assert RenderAll(files, root, outDir, c, ctx, env).code == RenderAll(files[1..], root, outDir, c, ctx, env).code;
        if forall k :: 0 <= k < |files| - 1 ==> Delivered(files[1..][k], files[1..][k][|root|..], outDir, c, ctx, env) {
          forall k | 0 <= k < |files| ensures Delivered(files[k], files[k][|root|..], outDir, c, ctx, env) {
            if k > 0 {
              assert files[1..][k - 1] == files[k];
            }
          }
        }
      }
    }
  }

  /** The Directory-mode loop renders a prefix of the selected files, all
      of them on success. */
  lemma {:induction false} RenderAllPrefix(files: seq<Path>, root: Path, outDir: Path, c: TemplateConfig,
                                           ctx: map<string, string>, env: Collaborators)
    requires forall k :: 0 <= k < |files| ==> root <= files[k]
    ensures var pr := RenderAll(files, root, outDir, c, ctx, env);
      && (forall k :: 0 <= k < |pr.attempted| ==> pr.attempted[k] == files[k])
      && (pr.code == ExitSuccess ==> |pr.attempted| == |files|)
  {
    if |files| > 0 {
      RenderAllPrefix(files[1..], root, outDir, c, ctx, env);
      var pr := RenderAll(files, root, outDir, c, ctx, env);
      var rest := RenderAll(files[1..], root, outDir, c, ctx, env);
      assert StripPrefix(files[0], root).Some?;
      if |pr.attempted| > 1 {
        assert pr.attempted == [files[0]] + rest.attempted;
        forall k | 1 <= k < |pr.attempted| ensures pr.attempted[k] == files[k] {
          assert pr.attempted[k] == rest.attempted[k - 1];
          assert files[1..][k - 1] == files[k];
        }
      }
    }
  }

  /** Each file the Directory-mode loop writes goes to the output directory
      under the file's path relative to the files directory, in selection
      order. */
  lemma {:induction false} RenderAllDestinations(files: seq<Path>, root: Path, outDir: Path, c: TemplateConfig,
                                                 ctx: map<string, string>, env: Collaborators)
    requires forall k :: 0 <= k < |files| ==> root <= files[k]
    ensures var pr := RenderAll(files, root, outDir, c, ctx, env);
      forall k :: 0 <= k < |pr.written| ==> pr.written[k] == outDir + files[k][|root|..]
  {
    if |files| > 0 {
      RenderAllDestinations(files[1..], root, outDir, c, ctx, env);
      var pr := RenderAll(files, root, outDir, c, ctx, env);
      var rest := RenderAll(files[1..], root, outDir, c, ctx, env);
      assert StripPrefix(files[0], root) == Some(files[0][|root|..]);
      if |pr.written| > 0 {
        assert pr.written == [outDir + files[0][|root|..]] + rest.written;
        forall k | 1 <= k < |pr.written| ensures pr.written[k] == outDir + files[k][|root|..] {
          assert pr.written[k] == rest.written[k - 1];
          assert files[1..][k - 1] == files[k];
        }
      }
    }
  }

  /** The Directory-mode loop stops at the first failure: every file before
      the last one attempted was rendered and written, and a render error
      is the last file attempted failing to render, a write error the last
      file attempted rendering but failing to be written. */
  lemma {:induction false} RenderAllStopsAtFailure(files: seq<Path>, root: Path, outDir: Path, c: TemplateConfig,
                                                   ctx: map<string, string>, env: Collaborators)
    requires forall k :: 0 <= k < |files| ==> root <= files[k]
    ensures var pr := RenderAll(files, root, outDir, c, ctx, env);
      pr.code != ExitSuccess ==>
        && 0 < |pr.attempted| <= |files|
        && var last := files[|pr.attempted| - 1];
          var rendered := RenderSingleFile(env.render, c, last, Some(ctx));
          && (pr.code == ExitRenderError ==> rendered.None?)
          && (pr.code == ExitWriteError ==> rendered.Some? && !env.write(outDir + last[|root|..], rendered.value))
          && forall k :: 0 <= k < |pr.attempted| - 1 ==> Delivered(files[k], files[k][|root|..], outDir, c, ctx, env)
  {
    RenderAllWrittenDelivered(files, root, outDir, c, ctx, env);
    if |files| > 0 {
      RenderAllStopsAtFailure(files[1..], root, outDir, c, ctx, env);
      assert StripPrefix(files[0], root) == Some(files[0][|root|..]);
      var rest := RenderAll(files[1..], root, outDir, c, ctx, env);
      if rest.code != ExitSuccess && |rest.attempted| > 0 {
        assert files[1..][|rest.attempted| - 1] == files[|rest.attempted|];
      }
    }
  }

  /** A configuration that could not be read or parsed ends the run with
      -1 before anything else happens, whatever the enumeration would
      have found. */
  lemma ConfigErrorComesFirst(e: ConfigLoadError, root: Path, enumerated: Result<seq<Path>, IoError>,
                              other: Result<seq<Path>, IoError>, outputLine: string, answers: map<string, string>, env: Collaborators)
    ensures var o := Run(Err(e), root, enumerated, outputLine, answers, env);
      && o.code == ExitConfigError && !o.prompted && !o.loaded
      && o == Run(Err(e), root, other, outputLine, answers, env)
  {
  }

  /** With a configuration, a failed enumeration ends the run with -2 and
      no prompt. */
  lemma EnumerationErrorExits(c: TemplateConfig, root: Path, e: IoError, outputLine: string,
                              answers: map<string, string>, env: Collaborators)
    ensures var o := Run(Ok(c), root, Err(e), outputLine, answers, env);
      o.code == ExitEnumerationError && !o.prompted && !o.loaded
  {
  }

  /** When no enumerated file passes the filter, the run ends with -5 before
      any prompt, load, render or write; otherwise it never exits -5. */
  lemma NoMatchExitsBeforePrompting(c: TemplateConfig, root: Path, files: seq<Path>, outputLine: string,
                                    answers: map<string, string>, env: Collaborators)
    ensures var o := Run(Ok(c), root, Ok(files), outputLine, answers, env);
      && ((forall f :: f in files ==> !Selected(f, root, c, env.matcher)) <==> o.code == ExitNoMatchingFiles)
      && (o.code == ExitNoMatchingFiles ==> !o.prompted && !o.loaded && o.attempted == [] && o.written == [])
  {
    SelectMembers(files, root, c, env.matcher);
    var selected := Select(files, root, c, env.matcher);
    if |selected| > 0 {
      assert selected[0] in selected;
    }
  }

  /** A File-mode template that selects more than one file ends the run
      with -3 after the prompts and before loading. */
  lemma FileModeRejectsSeveralFiles(c: TemplateConfig, root: Path, files: seq<Path>, outputLine: string,
                                    answers: map<string, string>, env: Collaborators)
    requires c.outputType == File
    ensures var o := Run(Ok(c), root, Ok(files), outputLine, answers, env);
      (o.code == ExitTooManyFiles <==> |Select(files, root, c, env.matcher)| > 1)
      && (o.code == ExitTooManyFiles ==> o.prompted && !o.loaded && o.attempted == [])
  {
    var selected := Select(files, root, c, env.matcher);
    if |selected| > 0 {
      assert Run(Ok(c), root, Ok(files), outputLine, answers, env)
        == RunFile(c, selected, ReadAnswer(outputLine), VariableChoices(c.variables, answers), env);
    }
  }

  /** The name the output goes to, in terms of what the user typed: the
      trimmed answer if it was not blank, else the configured name, else
      the empty string. */
  lemma OutputNameResolution(outputLine: string, configured: Option<string>)
    ensures var name := OutputName(ReadAnswer(outputLine), configured);
      && (!AllWhitespace(outputLine) ==> name == Trim(outputLine))
      && (AllWhitespace(outputLine) ==> name == configured.UnwrapOr(""))
  {
    ReadAnswerSpec(outputLine);
  }

  /** File mode with its single selected file: a load failure exits -4, a
      render failure -6, a write failure -7, and otherwise the run exits 0
      after writing exactly the one output file. */
  lemma FileModeOutcome(c: TemplateConfig, root: Path, files: seq<Path>, outputLine: string,
                        answers: map<string, string>, env: Collaborators)
    requires c.outputType == File
    requires |Select(files, root, c, env.matcher)| == 1
    ensures var s := Select(files, root, c, env.matcher)[0];
      var o := Run(Ok(c), root, Ok(files), outputLine, answers, env);
      var loads := LoadTemplateFiles([s], env.isFile, env.load);
      var rendered := RenderSingleFile(env.render, c, s, Some(VariableChoices(c.variables, answers)));
      var dest := PathOf(OutputName(ReadAnswer(outputLine), c.outputFilename));
      && (o.code == ExitLoadError <==> !loads)
      && (o.code == ExitRenderError <==> loads && rendered.None?)
      && (o.code == ExitWriteError <==> loads && rendered.Some? && !env.write(dest, rendered.value))
      && (o.code == ExitSuccess <==> loads && rendered.Some? && env.write(dest, rendered.value))
      && (o.code == ExitSuccess ==> o.written == [dest])
      && (o.written != [] ==> o.code == ExitSuccess)
  {
    var selected := Select(files, root, c, env.matcher);
    assert selected == [selected[0]];
  }

  /** Directory mode: a failure to load the templates exits -4 before
      anything is rendered; once they are loaded, a failure to create the
      output directory exits -8 before any file is rendered; otherwise the
      run ends as the loop over the selected files does. */
  lemma DirectoryModeOutcome(c: TemplateConfig, root: Path, files: seq<Path>, outputLine: string,
                             answers: map<string, string>, env: Collaborators)
    requires c.outputType == Directory
    requires |Select(files, root, c, env.matcher)| > 0
    ensures var o := Run(Ok(c), root, Ok(files), outputLine, answers, env);
      var loads := LoadTemplateFiles(Select(files, root, c, env.matcher), env.isFile, env.load);
      var outDir := PathOf(OutputName(ReadAnswer(outputLine), c.outputDirectory));
      && (o.code == ExitLoadError <==> !loads)
      && (o.code == ExitLoadError ==> o.attempted == [] && o.written == [])
      && (o.code == ExitCreateDirError <==> loads && !env.createDir(outDir))
      && (o.code == ExitCreateDirError ==> o.attempted == [] && o.written == [])
      && (loads && env.createDir(outDir) ==> o.code in {ExitSuccess, ExitRenderError, ExitWriteError})
  {
  }

  /** Directory mode exits 0 only after rendering every selected file and
      writing each to the output directory under its relative path, so the
      count of files written equals the number selected. */
  lemma DirectorySuccessWritesAll(c: TemplateConfig, root: Path, files: seq<Path>, outputLine: string,
                                  answers: map<string, string>, env: Collaborators)
    requires c.outputType == Directory
    ensures var o := Run(Ok(c), root, Ok(files), outputLine, answers, env);
      var selected := Select(files, root, c, env.matcher);
      var outDir := PathOf(OutputName(ReadAnswer(outputLine), c.outputDirectory));
      o.code == ExitSuccess ==>
        && o.attempted == selected
        && |o.written| == |selected|
        && (forall k :: 0 <= k < |selected| ==> root <= selected[k] && o.written[k] == outDir + selected[k][|root|..])
        && forall k :: 0 <= k < |selected| ==>
             root <= selected[k] && Delivered(selected[k], selected[k][|root|..], outDir, c, VariableChoices(c.variables, answers), env)
  {
    var selected := Select(files, root, c, env.matcher);
    var outDir := PathOf(OutputName(ReadAnswer(outputLine), c.outputDirectory));
    assert forall k :: 0 <= k < |selected| ==> root <= selected[k] by {
      forall k | 0 <= k < |selected| ensures root <= selected[k] {
        assert selected[k] in selected;
      }
    }
    RenderAllPrefix(selected, root, outDir, c, VariableChoices(c.variables, answers), env);
    RenderAllDestinations(selected, root, outDir, c, VariableChoices(c.variables, answers), env);
    RenderAllSucceedsIff(selected, root, outDir, c, VariableChoices(c.variables, answers), env);
    var o := Run(Ok(c), root, Ok(files), outputLine, answers, env);
    if o.code == ExitSuccess {
      assert o.attempted == selected;
    }
  }

  /** The files the enumeration returns all lie below the files directory,
      so each has a relative path and the selection drops none for lack
      of one. */
  lemma EnumeratedFilesStrip(root: Path, tree: Node)
    ensures forall f :: f in Files(root, tree) ==> StripPrefix(f, root).Some?
  {
    if tree.DirNode? {
      FilesBelow(root, tree, |tree.children|);
    }
  }
}
