# utsusu template core in Dafny

utsusu renders a named template. A template is a directory that holds a
`config.yml` and a `files` directory. The configuration declares:

- the output type: a single `file`, or a `directory` tree;
- the default output name;
- the include globs that select which files under `files` are templates;
- variables with default values.

The command-line tool runs in this order:

1. It parses the configuration.
2. It enumerates everything below `files` and keeps the files whose relative path matches a glob.
3. It asks the user for the output name and for each variable; a blank answer keeps the default.
4. It loads the selected files into the template engine, renders each with the defaults overridden by the answers, and writes the results.

Each failure exits with its own code.

This project models that core:

- `template_config.dfy`: the configuration record and its mutators. The mode switch clears the name of the mode being left, and each name setter is a no-op in the other mode.
- `yaml.dfy`, `config_parser.dfy`:
  - the parser over an already-scanned YAML tree, with every error it reports, in the order it checks them;
  - a declarative statement of the documents it accepts (`ValidDocument`);
  - the parser exactly as written, next to a corrected one (see Findings).
- `formatting.dfy`: `to_string` of the integer and boolean defaults.
- `user_input.dfy`: `get_user_input`, which trims with `str::trim`, and `get_user_variable_choices`. The lines typed at the prompts are inputs.
- `single_file_render.dfy`: how `render_single_file` builds its context. The engine's render call is a collaborator.
- `enumerator.dfy`:
  - `get_all_template_filenames_from_directory` as a work-list traversal of an in-memory tree in which entries may be unreadable;
  - the `is_file` filter applied before templates are loaded.
- `cli.dfy`: the decisions `main` makes from parsing the configuration to the exit code. Glob matching, loading, rendering, directory creation and file writes are collaborators whose outcomes are inputs.

## Model

| member | source | states |
|---|---|---|
| TemplateConfig.New | src/template_config.rs:58-66 | a new configuration is File mode with no names, no variables and no patterns |
| TemplateConfig.UpdateIncludedFilePatterns | src/template_config.rs:69-71 | replaces the pattern set and nothing else |
| TemplateConfig.AddVariable | src/template_config.rs:83-89 | upsert: the name maps to the new default and the other variables keep theirs; the previous default is returned exactly when the name was present |
| TemplateConfig.SetOutputType | src/template_config.rs:91-106 | the mode becomes the one asked for; setting the current mode changes nothing; leaving File clears the filename and leaving Directory clears the directory; variables and patterns are untouched |
| TemplateConfig.SetOutputFilename | src/template_config.rs:112-118 | stores the filename only in File mode; any other mode leaves the configuration unchanged |
| TemplateConfig.SetOutputDirectory | src/template_config.rs:124-130 | stores the directory only in Directory mode; any other mode leaves the configuration unchanged |
| TemplateConfig.RenderContext | src/template_config.rs:136-144 | the insertion loop over the variables, run in the map's iteration order, binds exactly the declared variables, each to its default |
| TemplateConfig.InsertedUpToSpec | src/template_config.rs:139-141 | inserting stored pairs one at a time binds exactly their names to their stored defaults, in any order and even with a pair repeated |
| TemplateConfig.SnapshotContext | src/template_config.rs:136-144 | any snapshot that covers the variables with their defaults, whatever its order, gives back the variable map once every pair is inserted |
| TemplateConfig.AppendItem | src/template_config.rs:79-81 | adding a stored pair with a new name keeps the snapshot's names distinct and its pairs stored |
| TemplateConfig.VariableItems | src/template_config.rs:78-81 | every stored (name, default) pair exactly once, and nothing else |
| Common.StripPrefix | src/bin/utsusu-cli/main.rs:156 | a relative path exists exactly when the base is a prefix, and base plus relative path gives the original |
| Yaml.Get | src/template_config.rs:194 | a key lookup fails exactly when no entry has that string key; otherwise it returns a value stored under that key |
| Yaml.GetUnique | src/template_config.rs:194 | in a mapping with distinct keys, as the scanner builds, the lookup agrees with every entry stored under the key |
| Formatting.NatToDecimal | src/template_config.rs:318 | decimal digits with no leading zero except for 0 itself |
| Formatting.DecimalRoundTrip | src/template_config.rs:318 | reading the decimal digits back gives the number |
| Formatting.IntToString | src/template_config.rs:318 | a leading minus sign exactly for negative numbers, followed by digits with no leading zero, except for 0 itself |
| Formatting.IntToStringRoundTrip | src/template_config.rs:318 | an integer default's stored text reads back as the integer |
| Formatting.BoolToString | src/template_config.rs:317 | a boolean default's stored text reads back as that boolean, and is never the text of an integer |
| ConfigParser.ParseOutputType | src/template_config.rs:194-208 | a missing `type` is NoOutputType; a value other than the strings `file` or `directory` is InvalidOutputType |
| ConfigParser.ParseOutputBlock | src/template_config.rs:211-221 | `output` must be present (NoOutputConfig) and be a mapping (OutputConfigMustBeAMapping) |
| ConfigParser.ParseOutputName | src/template_config.rs:223-250 | the key read is `filename` or `directory` according to the mode; a missing key gives the mode's No... error and a non-string gives its Invalid... error |
| ConfigParser.FirstBadGlob | src/template_config.rs:275-288 | the index of the first sequence element the include loop rejects: every element before it is a string that compiles |
| ConfigParser.CompileEach | src/template_config.rs:275-288 | the loop succeeds exactly when every element is a compiling string, yielding the patterns in order; otherwise it reports the first bad element's error |
| ConfigParser.ParseIncluded | src/template_config.rs:252-301 | a missing `include` is NoIncludedFiles and a non-string, non-sequence one is InvalidIncludedFiles; in File mode a sequence longer than one is TooManyIncludedFileGlobs before any element is examined; a compile or build failure carries the glob error |
| ConfigParser.ParseIncludedOk | src/template_config.rs:252-301 | `include` is accepted exactly when it is a valid value for the mode, and the stored patterns are the declared ones in order |
| ConfigParser.FirstBadVariable | src/template_config.rs:309-328 | the index of the first `variables` entry rejected: every entry before it has a string name and a scalar default |
| ConfigParser.ScalarText | src/template_config.rs:315-321 | null is stored as the empty string and a string verbatim; integer and boolean defaults are stored as text that reads back as the value |
| ConfigParser.AddVariables | src/template_config.rs:309-328 | succeeds exactly when every entry has a string name and a scalar default, else reports the first bad entry with the name checked before the default; touches nothing but the variables |
| ConfigParser.AddVariablesKeys | src/template_config.rs:309-328 | the loop adds exactly the declared names and keeps every other variable's default |
| ConfigParser.AddVariablesLastWins | src/template_config.rs:309-328 | a fact about the loop alone: on a tree that repeats a variable name, which the scanner never builds, the last entry's default is kept because `add_variable` upserts |
| ConfigParser.AddVariablesStoresEach | src/template_config.rs:309-328 | with distinct names, every declared variable is stored with the text of its own default |
| ConfigParser.ParseVariables | src/template_config.rs:304-334 | `variables` is optional; when present it must be a mapping (VariablesMustBeAMapping); only the variables change |
| ConfigParser.AddVariablesOnlyTouchesVariables | src/template_config.rs:309-328 | the variables loop's outcome depends only on the variable map it starts from |
| ConfigParser.Base | src/template_config.rs:191-293 | the configuration built before the variables are read: with the mode switch it has the declared mode and that mode's name; without it, as written, it stays File mode and only a filename survives |
| ConfigParser.ParseDocument | src/template_config.rs:189-339 | a non-mapping root is ConfigMustBeAMapping; a parsed configuration is mode-consistent |
| ConfigParser.ParseErrorOrder | src/template_config.rs:189-334 | the checks run in the source's order (type, output block, output name, include, variables) and the first failure decides the error |
| ConfigParser.ParseWithOk | src/template_config.rs:189-337 | the parse succeeds exactly when every stage succeeds |
| ConfigParser.OutputStagesOk | src/template_config.rs:194-250 | the output stages succeed exactly when the document names a mode and a string name for that mode |
| ConfigParser.VariablesStageOk | src/template_config.rs:304-334 | the variables stage accepts exactly an absent `variables` or a mapping of string names to scalars |
| ConfigParser.ParsedStages | src/template_config.rs:189-337 | a parsed configuration passed every stage, and is the variables read into the configuration those stages built |
| ConfigParser.ParseDocumentAsWritten | src/template_config.rs:189-250 | as written, every parsed configuration is in File mode with no directory name |
| ConfigParser.ParseYamlString | src/template_config.rs:180-250 | as written: a scan error is YamlParseError; otherwise the first document alone is parsed, without the mode switch, so every configuration returned is in File mode with no directory name |
| ConfigParser.ParseYamlStringCorrected | src/template_config.rs:180-188 | with the mode switch: fails exactly when the entry point as written fails, with the same error, and on success differs from it only in keeping the declared mode and directory name |
| ConfigParser.ParseSucceedsIff | src/template_config.rs:189-339 | the parser accepts exactly the documents that satisfy the schema |
| ConfigParser.ParsedContents | src/template_config.rs:191-337 | a parsed configuration holds the declared mode and that mode's name (and none for the other mode), the declared patterns in order, and one variable per declared name |
| ConfigParser.ParsedDefaults | src/template_config.rs:304-334 | with distinct variable names, a parsed configuration stores each declared variable with the text of its own scalar default |
| ConfigParser.AsWrittenDiffersOnlyInMode | src/template_config.rs:189-250 | the parser as written and the corrected one reject the same documents with the same errors; on success they differ only in the mode and the directory name |
| ConfigParser.AsWrittenLosesDirectoryMode | src/template_config.rs:189-250 | a `type: directory` document parses, as written, into a File-mode configuration with no directory name |
| ConfigParser.CorrectedKeepsDirectoryMode | src/template_config.rs:237-249 | the corrected parser turns the same document into a Directory-mode configuration named `out` |
| UserInput.TrimStartSpec | src/utils.rs:16 | trimming the front drops only whitespace and leaves a suffix that starts with a non-whitespace character |
| UserInput.TrimEndSpec | src/utils.rs:16 | trimming the end drops only whitespace and leaves a prefix that ends with a non-whitespace character |
| UserInput.TrimSpec | src/utils.rs:16 | the trimmed line is empty exactly for a blank line; otherwise it is the infix surrounded only by whitespace, with no whitespace at either end |
| UserInput.TrimIdempotent | src/utils.rs:16 | trimming twice is trimming once |
| UserInput.ReadAnswerSpec | src/utils.rs:11-22 | the answer is None exactly for a blank line; any other answer is the trimmed line, which is non-empty and has no whitespace at either end |
| UserInput.ReadAnswerKeepsTrimmed | src/utils.rs:16-21 | an already-trimmed non-empty line comes back unchanged |
| UserInput.VariableChoices | src/utils.rs:29-40 | the override context only binds declared variables |
| UserInput.VariableChoicesSpec | src/utils.rs:32-37 | a variable is overridden exactly when its answer is not blank, and then by the trimmed answer |
| UserInput.ChoicesStep | src/utils.rs:34-36 | one more prompt adds at most that variable's answer to the context |
| UserInput.PromptsUpToSpec | src/utils.rs:32-33 | the prompts shown so far are one `name [default]: ` per item asked, in order |
| UserInput.ChoicesUpToSpec | src/utils.rs:32-37 | inserting the non-blank answers one at a time gives the override context of the variables asked so far |
| UserInput.AskAll | src/utils.rs:32-37 | the loop shows every item's prompt and inserts every item's answer, in order |
| UserInput.PromptForEach | src/utils.rs:32-37 | one prompt `name [default]: ` per item, in item order; the context is exactly the non-blank trimmed answers |
| UserInput.GetUserVariableChoices | src/utils.rs:29-40 | one prompt per declared variable: the prompts follow a snapshot of the variables that names each one exactly once, each prompt shows its variable's name and default, and the context holds exactly the non-blank trimmed answers |
| SingleFileRender.FinalContext | src/template_rendering/single_file_render.rs:7-10 | without overrides the context is the defaults; with overrides its keys are the union, each override wins, and other defaults are kept |
| SingleFileRender.ResolvedBindings | src/template_rendering/single_file_render.rs:6-12 | with the user's answers, the render context binds exactly the declared variables: to the trimmed answer when one was given, else to the default |
| SingleFileRender.RenderWithDefaults | src/template_rendering/single_file_render.rs:6-13 | without overrides the engine renders against the defaults, and overrides that repeat defaults change nothing |
| Enumerator.ListingFiles | src/template_rendering/mod.rs:15-27 | one directory's listing, split into files collected and subdirectories pushed, accounts for every file below that directory |
| Enumerator.ListingDirs | src/template_rendering/mod.rs:15-27 | the subdirectories pushed account for every directory below the one listed |
| Enumerator.ListingFails | src/template_rendering/mod.rs:15-27 | a failure below a directory is an unreadable entry in its listing or a failure below a pushed subdirectory |
| Enumerator.ReadListing | src/template_rendering/mod.rs:15-27 | reading one directory fails exactly when an entry is unreadable, at the first such entry; otherwise it appends the files in listing order and pushes the subdirectories in listing order |
| Enumerator.AllTemplateFilenames | src/template_rendering/mod.rs:7-30 | the traversal fails exactly when some directory or entry of the tree cannot be read; on success it lists every file below the root exactly as often as the tree holds it, and reads each directory once |
| Enumerator.FilesBelow | src/template_rendering/mod.rs:15-26 | every listed file lies strictly below the directory it was found in |
| Enumerator.RegularFiles | src/template_rendering/mod.rs:35-42 | only regular files reach the engine, each as often as it was given |
| Enumerator.RegularFilesExtremes | src/template_rendering/mod.rs:35-42 | the `is_file` filter keeps a list of regular files as it is and empties a list with none |
| Enumerator.LoadTemplateFilesExtremes | src/template_rendering/mod.rs:32-46 | when every selected path is a regular file the engine is handed exactly those paths, and when none is it is handed nothing |
| Cli.Select | src/bin/utsusu-cli/main.rs:154-161 | every selected file lies below the files directory and its relative path matches the include globs |
| Cli.SelectCount | src/bin/utsusu-cli/main.rs:154-161 | each file passing the filter is kept as often as it was enumerated; every other file is dropped |
| Cli.SelectMembers | src/bin/utsusu-cli/main.rs:154-161 | a file is selected exactly when it was enumerated and passes the filter |
| Cli.SelectConcat | src/bin/utsusu-cli/main.rs:155-161 | selection keeps enumeration order |
| Cli.EnumeratedFilesStrip | src/bin/utsusu-cli/main.rs:152-158 | every enumerated file has a path relative to the files directory |
| Cli.OutputName | src/bin/utsusu-cli/main.rs:205 | the output name is the typed answer, else the configured name, else the empty string |
| Cli.OutputNameResolution | src/bin/utsusu-cli/main.rs:174-185 | in terms of the typed line: the trimmed line when it is not blank, else the configured name or the empty string |
| Cli.RenderAll | src/bin/utsusu-cli/main.rs:244-272 | the directory loop ends in 0, -6 or -7; after a failure exactly one more file was attempted than written |
| Cli.RenderAllPrefix | src/bin/utsusu-cli/main.rs:246-270 | the files attempted are a prefix of the selection, and all of it on success |
| Cli.RenderAllDestinations | src/bin/utsusu-cli/main.rs:247-265 | each file written goes to the output directory under its relative path, in selection order |
| Cli.RenderAllStopsAtFailure | src/bin/utsusu-cli/main.rs:249-263 | the loop stops at the first failure: every file before the last one attempted was rendered and written; -6 means the last one failed to render, and -7 means it rendered but its write failed |
| Cli.RenderAllWrittenDelivered | src/bin/utsusu-cli/main.rs:249-265 | every file counted as written was rendered and its write to the output directory returned success |
| Cli.RenderAllSucceedsIff | src/bin/utsusu-cli/main.rs:246-270 | the loop exits 0 exactly when every selected file renders and its write succeeds |
| Cli.WriteTemplates | src/bin/utsusu-cli/main.rs:244-272 | the imperative loop ends with the same exit code as the reference, and its counter is the number of files written |
| Cli.Run | src/bin/utsusu-cli/main.rs:140-272 | every run ends with one of the nine codes; nothing is rendered or written unless loading was attempted, and nothing is loaded before the prompts |
| Cli.Dispatch | src/bin/utsusu-cli/main.rs:172-277 | once a file is selected the user is always prompted, and the run cannot end with -1, -2 or -5 |
| Cli.RunFile | src/bin/utsusu-cli/main.rs:192-227 | the File branch exits -3 exactly when more than one file is selected, before loading; it writes at most one file and never exits -8 |
| Cli.RunDirectory | src/bin/utsusu-cli/main.rs:229-274 | the Directory branch always attempts the load and ends with -4, -8, -6, -7 or 0, never -3; -4 exactly when loading fails; after -4 or -8 nothing was rendered or written |
| Cli.AsWrittenNeverRendersDirectory | src/bin/utsusu-cli/main.rs:191-241 | fed the parser as written, no run creates an output directory and at most one file is written, whatever the document declares |
| Cli.ConfigErrorComesFirst | src/bin/utsusu-cli/main.rs:140-145 | an unreadable or invalid configuration exits -1 before enumeration or any prompt |
| Cli.EnumerationErrorExits | src/bin/utsusu-cli/main.rs:153-165 | a failed enumeration exits -2 with no prompt |
| Cli.NoMatchExitsBeforePrompting | src/bin/utsusu-cli/main.rs:167-170 | -5 exactly when no enumerated file passes the filter, and then before any prompt, load or write |
| Cli.FileModeRejectsSeveralFiles | src/bin/utsusu-cli/main.rs:192-196 | in File mode, -3 exactly when more than one file is selected, after the prompts and before loading |
| Cli.FileModeOutcome | src/bin/utsusu-cli/main.rs:198-225 | in File mode: -4 on a load failure, -6 on a render failure, -7 on a write failure, else 0 with exactly one file written to the resolved name |
| Cli.DirectoryModeOutcome | src/bin/utsusu-cli/main.rs:229-241 | in Directory mode: -4 exactly when the templates fail to load; -8 exactly when they load but the output directory cannot be created; after either nothing is rendered; otherwise the loop decides the code |
| Cli.DirectorySuccessWritesAll | src/bin/utsusu-cli/main.rs:244-272 | a Directory-mode exit 0 means every selected file was rendered with the user's context and written under the output directory by a write that succeeded, so the written count equals the selection count |

## Left out

- YAML scanning: the parser starts from the scanner's result (a scan error, or a list of documents); saphyr itself is not modelled.
- Yaml.Yaml: the tree does not enforce the scanner's distinct mapping keys. Lookup takes the first matching entry and the variables loop the last; the lemmas that rely on distinct keys (`Yaml.GetUnique`, `ConfigParser.AddVariablesStoresEach`, `ConfigParser.ParsedDefaults`) take `DistinctKeys` as a hypothesis.
- Enumerator.ReadListing: the error names the failing directory or entry by its path, while the `io::Error` that `read_dir` and `entry?` return carries no path; the model records which read failed, not what the program reports.
- ConfigParser.ParseYamlString: requires at least one document, because the source indexes the first document without checking; an empty stream would panic there, and the panic is not modelled.
- ConfigParser.ParseYamlStringCorrected: requires at least one document, for the same reason as the entry point as written.
- Glob compilation and matching (`globset`): collaborators. The configuration stores the pattern strings it was built from.
- Float defaults: `f64::to_string` is a collaborator.
- Formatting.IntToString: integers are unbounded; the `i64` range of YAML integers is not enforced.
- The template engine (tera): loading and rendering are collaborators. A context is a map from names to strings.
- The real filesystem: the tree is finite and in memory. Not modelled: symlinks, `is_dir` following links, and races with concurrent changes.
- Enumerator.AllTemplateFilenames: states the files as a multiset, not in traversal order, because the order `read_dir` lists entries in is unspecified.
- TemplateConfig.VariableItems: the pairs come in an unspecified order, as `HashMap` iteration gives them.
- Cli.PathOf: a typed output name is kept as one path component; separators inside it are not split.
- Argument parsing, environment variables and the default-directory lookup (src/bin/utsusu-cli/main.rs:30-138) are not modelled. That includes the exit 1 for a missing template directory.
- Printing to standard output is not modelled: the variable prompts appear only as `VariablePrompt`, and the output-name prompt (src/bin/utsusu-cli/main.rs:177, 181) not at all; only the line typed at it is an input.
- Exit codes are the values passed to `exit`, not the status byte the operating system reports.
- `parse_config_from_file` (src/template_config.rs:351-361) appears only as the `ConfigLoadError` input to `Cli.Run`: reading the file is I/O.
- The `Debug` implementation and the getters are not modelled, apart from their use in the CLI model.
- The template-test binary is not part of this model.

## Findings

| source | as written | input that shows it | evidently intended | confidence | as-written member | corrected member |
|---|---|---|---|---|---|---|
| src/template_config.rs:189-250 | the parser reads `type` but never calls `set_output_type`, so the configuration keeps File mode and `set_output_directory` does nothing | `{type: directory, output: {directory: out}, include: "*"}` | a Directory-mode configuration whose directory is `out` | high, not executed | ConfigParser.AsWrittenLosesDirectoryMode | ConfigParser.CorrectedKeepsDirectoryMode |

`ConfigParser.ParseYamlString` models the entry point as written; `ConfigParser.ParseYamlStringCorrected` is the same entry point with the mode switch, and the parser lemmas state the corrected parser `ConfigParser.ParseDocument`. `Cli.Run` takes the loaded configuration as an input and is stated for any configuration. `Cli.AsWrittenNeverRendersDirectory` composes it with the parser as written: then no template ever takes the Directory branch of `main`.

The documentation of `get_user_input` says only trailing whitespace is removed. The code calls `str::trim`, which removes whitespace at both ends, and the model follows the code.
