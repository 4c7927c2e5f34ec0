# SPARK command-line wrapper, modelled in Dafny

SPARK (SParsity-based Analysis of Reliable K-hubness) analyses brain fMRI
functional connectivity. The numerical work runs inside a MATLAB-generated
standalone application. Around it, a small Python command-line wrapper checks
the user's arguments, names files after the BIDS input, writes the options
file the application reads, builds the application's command lines, and at
the end renames and moves the application's outputs.

This project models that wrapper and proves what it promises:

- `Spark` (`dispatch.dfy`) models the entry point `for_build/spark.py`. It
  prepends `--exe <default>` to the arguments, picks exactly one of the
  SETUP, RUN and WRAP-UP handlers, refuses two or more, and shows the help
  when none is given.
- `Setup` (`setup.dfy`) models `for_build/spark/setup.py`:
  - the ordered, fail-fast integrity checks;
  - `setup_fmri`, which derives the subject, session and run identifiers
    and the base name from a BIDS file name;
  - the fourteen-line options file and the paths it lives under;
  - the `setup` command line and the handler's exit status.
- `Run` (`run.dfy`) models `for_build/spark/run.py`: the job filter and the
  command of `run_pipe`, the checks, the pipeline-file path and the exit
  status.
- `Wrapup` (`wrapup.dfy`) models the naming side of
  `for_build/spark/wrapup.py`:
  - the options-file path it checks;
  - `get_spark_filename`, which reads the raw-output name back from the
    `fmri_data` line;
  - `get_bids_filename` and the exit status.
- `Outputs` (`outputs.dfy`) models the file system as a map from path to
  content. It covers `shutil.move` and `os.rename` with their error cases,
  and `rename_outputs` and `move_outputs` as methods of the class
  `OutputTree`, which updates its map in place.
- Shared rules live in their own modules:
  - `BidsNames` (`bids.dfy`): the base-name rule, which all three handlers
    repeat, and the `<out_dir>/<base>/pipelines/<base>.{opt,mat}` layout.
  - `Args` (`args.dfy`): the loop that unwraps one-element argument lists.
  - `Shell` (`shell.dfy`): `shlex.quote` and a reader for the shell words
    of a command line.
  - `Strings` and `Paths` (`strings.dfy`, `paths.dfy`): the Python string
    and `posixpath` operations used by the wrapper.
  - `Wrappers` (`wrappers.dfy`): the `Option`, `Result` and `Outcome`
    datatypes.

Environmental facts are parameters:
- which regular files exist is a `set<string>`;
- `os.path.abspath`, the BIDS validator and `str(float)` are functions;
- the external program's return code is an integer;
- the listings `os.walk` yields are a sequence of `Listing` values.

## Model

| member | source | states |
|---|---|---|
| Args.Unwrapped | for_build/spark/setup.py:465-466 | a one-element list becomes its element; a plain value is kept |
| Args.UnwrapSingletons | for_build/spark/setup.py:462-466 | the unwrap loop keeps the key set, unwraps exactly the listed keys and leaves every other entry as it was |
| Setup.UnwrapParsed | for_build/spark/setup.py:461-468 | the setup handler's twelve `nargs=1` options become plain values; the two three-element vectors stay lists |
| Run.UnwrapParsed | for_build/spark/run.py:238-243 | the run handler's five `nargs=1` options become plain values; the two job lists stay lists |
| Wrapup.UnwrapParsed | for_build/spark/wrapup.py:223-228 | the wrap-up handler's four `nargs=1` options become plain values; every other entry stays as parsed |
| Setup.CheckIntegrity | for_build/spark/setup.py:116-180 | passes iff no check is violated; on failure the reported check is violated and every earlier check in the source's order holds (fail-fast, first failure decides) |
| Setup.TripleAccepted | for_build/spark/setup.py:143-178 | after a pass: both vectors have all elements ≥ 1 and end ≥ begin, p is NaN or a finite number with 0 ≤ p ≤ 1, both counts ≥ 2, the mask is `.mnc`/`.nii`, the three files exist |
| Setup.DefaultsPass | for_build/spark/setup.py:295-381 | the parser defaults (100, 10 2 30, 20, 0.05, 10 1 30) pass every check when the files exist and the mask is MINC or NIfTI |
| Setup.IntegrityBoundaries | for_build/spark/setup.py:137-168 | `mask.txt` is rejected for its format; 1 resampling is rejected and 2 passes; 2 iterations pass; `12 1 12` passes; `30 2 10` is rejected as reversed; `0 2 30` is rejected as below one; p = 1 passes; p = 1.5, p = -0.5 and `inf` are rejected; `nan` passes, since both comparisons are false for it |
| Setup.Tokens | for_build/spark/setup.py:90-91 | the `_`-split of the base name has at least one token |
| Setup.TaggedId | for_build/spark/setup.py:101-111 | an identifier starts with `<tag>_` and holds only word characters |
| Setup.SetupFmri | for_build/spark/setup.py:86-113 | errors only as not-a-subject, not-BIDS or too few tokens; an accepted file gives well-formed identifiers |
| Setup.SubjectIds | for_build/spark/setup.py:101-113 | the identifiers of an accepted name are well formed |
| Setup.SetupFmriOutcome | for_build/spark/setup.py:93-113 | rejected as not-a-subject iff the first token lacks `sub-`; as not-BIDS iff it has it and the validator refuses; accepted iff both hold and there are two tokens; the result carries the path and the shared base name |
| Setup.SetupFmriTokens | for_build/spark/setup.py:101-111 | sub is the normalised first token; ses is the normalised second token when it starts with `ses-`, else `ses_cspark_1`; run is the normalised second-to-last token when it starts with `run-`, else `run_cspark_1` |
| Setup.CheckedArgs | for_build/spark/setup.py:471-479 | the checks see the absolute paths; an error is the first violated check or a `setup_fmri` rejection; success keeps the absolute arguments, passes every check and carries `setup_fmri`'s identifiers |
| Setup.CheckArgs | for_build/spark/setup.py:471-479 | the dictionary-rewriting handler step returns exactly `CheckedArgs` |
| Setup.FlagText | for_build/spark/setup.py:67-68 | a flag is written `1` iff set, `0` otherwise |
| Setup.OptionsPath | for_build/spark/setup.py:46-52 | `pipe_opt`, built one directory at a time, is `<out_dir>/<base>/pipelines/<base>.opt` |
| Setup.OptionEntries | for_build/spark/setup.py:54-69 | fourteen entries whose keys are the fixed keys in the source's order |
| Setup.ParseEntryLine | for_build/spark/setup.py:54-69 | a `key value\n` line reads back as its key and value |
| Setup.OptionsTextRoundTrip | for_build/spark/setup.py:54-69 | the options text splits into one line per entry and parses back to the entries |
| Setup.EntriesOneLine | for_build/spark/setup.py:54-69 | with paths free of newlines, no key holds a space or a newline and no value holds a newline |
| Setup.EntryLinesShape | for_build/spark/setup.py:54-69 | each written line is newline-terminated and starts with its key and a space |
| Setup.OptionsFileLines | for_build/spark/setup.py:53-69 | the file has exactly 14 newline-terminated lines in the fixed key order and reads back as the entries |
| Setup.PipeFileIsMat | for_build/spark/setup.py:55 | the `pipe_file` entry is the `.mat` path of the layout |
| Setup.TripleTextRoundTrip | for_build/spark/setup.py:60 | a vector is written as three space-separated decimals that read back as its three numbers |
| Setup.FlagsAsDigits | for_build/spark/setup.py:67-68 | the last two entries are `1`/`0` exactly as the two flags are set or not |
| Setup.SetupCommandArgs | for_build/spark/setup.py:76 | whatever the paths hold, the line reads as exactly the words exe, `setup`, options path; when exe is absolute, the shell runs that program with them |
| Setup.CheckedSetupCommand | for_build/spark/setup.py:76 | on checked arguments, with `abspath` yielding paths from the root (setup.py:183-190), the shell runs the absolute exe with `setup` and the options file under the absolute output directory |
| Setup.PlanPipes | for_build/spark/setup.py:41-77 | the analysis and pipelines directories nest under `out_dir`; the options file and its text are as written; the command reads as exe, `setup`, options path, and runs exe with them when exe is absolute |
| Setup.SetupStatus | for_build/spark/setup.py:482-488 | status 0 iff the checks pass, both directories are ready, the options file exists after the write and the program returns 0; otherwise 1 |
| Setup.ProgramOnlyOnValidArgs | for_build/spark/setup.py:471-488 | the program is started only for arguments that pass every integrity check and `setup_fmri`; then the exit status is 0 iff it returns 0 |
| Run.StageName | for_build/spark/run.py:139-141 | a stage is one safe character (A, B or C) |
| Run.GetPipeFile | for_build/spark/run.py:75-80 | the pipeline file is `<out_dir>/<base>/pipelines/<base>.mat` with the shared base name |
| Run.PipeFileAgreesWithSetup | for_build/spark/run.py:75-80 | run's pipeline file equals the `pipe_file` value setup writes for the same out_dir and fMRI file |
| Run.RunFindsSetupPipeFile | for_build/spark/run.py:75-80 | after a successful setup, run looks for exactly the file setup asked the program to create |
| Run.CheckIntegrity | for_build/spark/run.py:42-63 | passes iff no check is violated; the reported check is the first violated one in the order exe, pipeline file, indices |
| Run.IndicesAccepted | for_build/spark/run.py:57-61 | when both files exist: an empty index list passes, and the checks pass iff every index is ≥ 1, even when patterns take precedence |
| Run.CheckedArgs | for_build/spark/run.py:247-255 | the pipeline file is derived from the absolute paths before the checks; success iff no check is violated; an error is the first violated check |
| Run.CheckArgs | for_build/spark/run.py:247-255 | the handler's step returns exactly `CheckedArgs` |
| Run.IndexTexts | for_build/spark/run.py:27 | one text per index |
| Run.IndicesTextPieces | for_build/spark/run.py:27 | the index text cut at `;` gives each index in decimal, then an empty piece; each piece reads back as its index |
| Run.IndicesOneThree | for_build/spark/run.py:27 | indices 1 and 3 give `1;3;` |
| Run.JobArgs | for_build/spark/run.py:25-29 | non-empty patterns are the filter; otherwise indices give one argument; neither gives none |
| Run.JobFilter | for_build/spark/run.py:25-29 | the shell reads the filter as `JobArgs`; it is the source's text, except that the index text is quoted |
| Run.RunCommandShape | for_build/spark/run.py:31-32 | the command is the four quoted words, a blank, then the filter, so it ends in a blank without a filter |
| Run.RunCommandArgs | for_build/spark/run.py:31-32 | whatever the paths hold, the line reads as exe, `run`, pipeline file, stage, then the filter's words; when exe is absolute, the shell runs that program with them |
| Run.CheckedRunCommand | for_build/spark/run.py:31-32 | on checked arguments, with `abspath` yielding paths from the root (run.py:83-89), the shell runs the absolute exe with `run`, the pipeline file under the absolute output directory, the stage and the job arguments |
| Run.RunPipe | for_build/spark/run.py:21-33 | the command runs in out_dir and reads as exe, `run`, pipeline file, stage and the intended job arguments; with an absolute exe the shell runs that program with them |
| Run.IndicesCommandAsWritten | for_build/spark/run.py:25-32 | as written, the index text ends the command after the first index at its `;`: the program receives that index alone, and the whole line is not one simple command; with two or more indices the next command is the second index alone, up to its `;` |
| Run.RunStatus | for_build/spark/run.py:33-37 | status 0 iff the checks pass and the program returns 0; otherwise 1 |
| Wrapup.GetPipeFile | for_build/spark/wrapup.py:105-110 | the file checked is `<out_dir>/<base>/pipelines/<base>.opt` with the shared base name |
| Wrapup.HandlersAgreeOnLayout | for_build/spark/wrapup.py:105-110 | after a successful setup, wrap-up checks exactly the options file setup wrote, and that file names run's pipeline file |
| Wrapup.CheckIntegrity | for_build/spark/wrapup.py:84-93 | passes iff the options file exists; the only error is a missing pipeline file |
| Wrapup.CheckedArgs | for_build/spark/wrapup.py:232-240 | success iff the `.opt` file of the absolute paths exists; then it carries the absolute arguments and that path |
| Wrapup.CheckArgs | for_build/spark/wrapup.py:232-240 | the handler's step returns exactly `CheckedArgs` |
| Wrapup.BidsFilenameOfPipeFile | for_build/spark/wrapup.py:57-61 | applied to the options file of an fMRI file, the BIDS name is the base name whenever it holds a non-dot character |
| Wrapup.BidsFilenameOfOpt | for_build/spark/wrapup.py:57-61 | the BIDS name of `<base>.opt` in the layout is `base` when it holds a non-dot character |
| Wrapup.OptFileName | for_build/spark/wrapup.py:105-110 | the options file's own name is `<base>.opt` |
| Wrapup.BidsFilenameOfEmptyBase | for_build/spark/wrapup.py:57-61 | with an empty base name the file is `.opt` and its BIDS name is `.opt`, not the base name |
| Wrapup.FirstFmriLine | for_build/spark/wrapup.py:44-47 | finds the first line starting with `fmri_data `; none before it does; none at all when absent |
| Wrapup.SparkFilenameOf | for_build/spark/wrapup.py:42-54 | a name read back is never empty; the only error is a missing `fmri_data` value |
| Wrapup.GetSparkFilename | for_build/spark/wrapup.py:38-54 | the scan with its early break returns what `SparkFilenameOf` gives on the file's lines |
| Wrapup.SparkFilenameOfSetup | for_build/spark/wrapup.py:46 | on the options file setup writes, the name read back is `<sub>_<ses>_<run>` |
| Wrapup.SparkFilenameOfLines | for_build/spark/wrapup.py:42-54 | lines whose second is setup's `fmri_data` entry give `<sub>_<ses>_<run>` |
| Wrapup.FmriLineName | for_build/spark/wrapup.py:45-46 | setup's `fmri_data` line starts with the prefix and names the three identifiers joined with `_` |
| Wrapup.ThreeWordName | for_build/spark/wrapup.py:46 | a line of three space-free words names its second and third word joined with `_` |
| Wrapup.ShortFmriLine | for_build/spark/wrapup.py:46 | a line `fmri_data <a> <b>` with only two words gives `<a>_<b>` with the newline kept in the name |
| Wrapup.EmptyFmriName | for_build/spark/wrapup.py:49-52 | a last line `fmri_data ` names nothing, which is the missing-`fmri_data` error |
| Wrapup.WrapupStatus | for_build/spark/wrapup.py:243-253 | status 0 iff the check passes, a name is read, renaming completes and, when moving is asked for, moving completes; otherwise 1 |
| Wrapup.WrapupOutputs | for_build/spark/wrapup.py:243-253 | the handler renames the outputs, moves them only after every rename succeeded and only when asked, leaves the tree `RenameAll` and `MovedOutputs` give, and reports `WrapupStatus` of the two walks' outcomes |
| Outputs.RelocatedAt | for_build/spark/wrapup.py:26-30 | a relocated tree holds a path iff it was kept or is the new place of a moved file, with the content of that file |
| Outputs.RelocatedSpec | for_build/spark/wrapup.py:26-30 | every moved file is at its rebased path with its content; every other file outside the target stays; nothing else appears |
| Outputs.MoveFile | for_build/spark/wrapup.py:76 | `shutil.move` of a file raises iff the file is missing, the target directory already holds that name, or a directory above the target is a file; otherwise the target holds its content and nothing else changes |
| Outputs.MoveDir | for_build/spark/wrapup.py:79 | `shutil.move` of a directory raises iff the source is not a directory or, for a destination other than the source itself, the target lies inside the source, exists, or has a file where one of the directories above it should be; a move onto itself changes nothing; otherwise the directory is renamed |
| Outputs.MoveDirSpec | for_build/spark/wrapup.py:79 | a move onto itself leaves the tree as it was; any other move carries every file below the directory to the same relative path below the target, every other file stays, nothing else appears, and nothing is left below the old directory |
| Outputs.TypicalOutputName | for_build/spark/wrapup.py:74-75 | `<a>_<spark><b>` matches and, with `_<spark>` occurring once, becomes `<a>_<bids><b>` |
| Outputs.RenameFlag | for_build/spark/wrapup.py:72-77 | the directory flag is set iff some listed name matches, whether or not its new name differs |
| Outputs.NoMatchNoChange | for_build/spark/wrapup.py:73-77 | with no matching name, the files are untouched and the flag is not set |
| Outputs.RenameStaysInRoot | for_build/spark/wrapup.py:73-77 | renaming a directory's files changes nothing outside that directory |
| Outputs.RenameOneFile | for_build/spark/wrapup.py:74-77 | a matching file whose new name is free ends at its new name with its content, and the flag is set; when a directory above the new name is a file, the move raises and the sweep stops with the tree unchanged |
| Outputs.RenameListing | for_build/spark/wrapup.py:73-77 | over a whole listing of distinct files whose matching names have pairwise distinct, free new names, no move raises; every matching file ends at its new name in the same directory with its content, every other file keeps its place and content, and nothing else appears |
| Outputs.RenameDirOnlyIf | for_build/spark/wrapup.py:78-79 | a directory is renamed only when the flag is set and it bears the raw-output name; when the BIDS name equals it the directory stays and the walk goes on; otherwise the step raises iff the move target exists or a directory above it is a file, and else the files are carried below it |
| Outputs.RenameAllStops | for_build/spark/wrapup.py:71-79 | once a move raises, the rest of the walk changes nothing |
| Outputs.MoveOutputsRelocates | for_build/spark/wrapup.py:20-35 | on a well-formed tree whose outputs have free places, every file at `<out>/<bids>/rel` ends at `<out>/rel` with its content, all else stays, and the final `rmdir` succeeds |
| Outputs.MoveAllStops | for_build/spark/wrapup.py:25-32 | once a rename or rmdir raises, the rest of the walk changes nothing |
| Outputs.OneMove | for_build/spark/wrapup.py:30 | each `os.rename` of the walk succeeds and carries one more file to its place |
| Outputs.SubdirsLeft | for_build/spark/wrapup.py:31-32 | after a directory's files are carried, every subdirectory it lists is empty, so `rmdir` succeeds |
| Outputs.OutputTree.RenameOutputs | for_build/spark/wrapup.py:64-81 | the nested loops leave the tree and the completion flag as `RenameAll` gives them |
| Outputs.OutputTree.MoveOutputs | for_build/spark/wrapup.py:20-35 | the loops and the final removal leave the tree and the flag as `MovedOutputs` gives them |
| Outputs.OutputTree.CanRemoveSubdirs | for_build/spark/wrapup.py:31-32 | the `rmdir` loop succeeds iff no listed subdirectory holds a file |
| BidsNames.LastToken | for_build/spark/run.py:71 | the last `_` token is a suffix of the name without `_` |
| BidsNames.BaseNameSpec | for_build/spark/run.py:66-72 | a last token of at most four characters gives the empty name; otherwise the base name plus the token's tail is the file name and it ends with the token's first four characters; never a separator |
| BidsNames.BaseNameOfBold | for_build/spark/run.py:66-72 | `<dir>/<stem>_bold.nii.gz` has base name `<stem>_bold` |
| BidsNames.PipeFile | for_build/spark/run.py:80 | the layout path is `<out_dir>/<base>/pipelines/<base><ext>` |
| BidsNames.NestedLayout | for_build/spark/setup.py:46-52 | built one directory at a time, the options path is the layout's `.opt` path |
| BidsNames.MatFromOpt | for_build/spark/setup.py:55 | replacing the last four characters of the `.opt` path with `.mat` gives run's pipeline file |
| Shell.Quote | for_build/spark/setup.py:76 | a quoted word is never empty and never starts with a blank |
| Shell.QuoteRoundTrip | for_build/spark/setup.py:76 | the shell reads a quoted word back as exactly that word |
| Shell.CommandWordsPlain | for_build/spark/setup.py:76 | a line starting with `/` or a single quote runs its first word: it is neither an assignment nor a reserved word |
| Shell.AssignmentNotProgram | for_build/spark/run.py:31-33 | `NAME=1 p` reads as two plain words, yet the shell does not run a program named `NAME=1` |
| Shell.ReadQuotedWords | for_build/spark/run.py:29 | space-joined quoted patterns read back as the patterns, one argument each |
| Shell.ExitStatus | for_build/spark/run.py:34-37 | status 0 iff the return code is 0, otherwise 1 |
| Strings.NormalizeProperties | for_build/spark/setup.py:101 | `\W+ → _` gives only word characters, never lengthens, and leaves word-character text unchanged (so normalising twice changes nothing) |
| Strings.NormalizeTag | for_build/spark/setup.py:103-109 | a `<tag>-…` token normalises to `<tag>_…` |
| Strings.ReplaceAllAbsent | for_build/spark/wrapup.py:75 | substitution without an occurrence changes nothing |
| Strings.SplitJoin | for_build/spark/wrapup.py:46 | splitting a join of separator-free parts gives the parts back |
| Strings.LinesOfConcat | for_build/spark/wrapup.py:44 | iterating the lines of newline-terminated lines gives them back |
| Strings.ParseNatToString | for_build/spark/setup.py:60 | a number written in decimal reads back as itself |
| Paths.BasenameOfJoin | for_build/spark/run.py:70 | the base name of `dir/name` is `name` |
| Paths.DirnameOfJoin | for_build/spark.py:77 | the directory of `dir/name` is `dir` |
| Paths.SplitExt | for_build/spark/wrapup.py:61 | the root and extension concatenate to the name; the extension is empty or starts with a dot |
| Paths.SplitExtOfName | for_build/spark/wrapup.py:61 | a name with a non-dot character, then `.ext`, splits into the name and `.ext` |
| Spark.DefaultExe | for_build/spark.py:73-77 | the default application is the script's directory, a separator, and `spark_samapp` |
| Spark.DefaultExeBeside | for_build/spark.py:73-77 | its base name is `spark_samapp` and its directory is the script's |
| Spark.DispatchByFlags | for_build/spark.py:84-99 | two or more mode flags give a conflict; none gives the help; exactly one calls its handler with `--exe <default>` before the user's arguments, in order |
| Spark.ExactTokensOnly | for_build/spark.py:85-87 | `--setup` selects nothing and `--SETUP=x` with `--RUN` selects RUN: flags match whole arguments only |
| Spark.ExitStatus | for_build/spark.py:88-101 | 1 after a conflict, 0 after the help, otherwise the handler's status |

## Left out

- The argparse machinery, the help text and its ASCII art are not modelled. Parsed arguments are records, and the `choices` sets are enumerations. `parse_known_args` silently ignores unknown flags; the model starts from the parsed values.
- A parser exit on an invalid `choices` value or a missing required option is not modelled.
- `BIDSValidator().is_bids` is a function parameter. The model does not assume it implies two tokens. A single-token name it accepts gives the explicit error `TooFewTokens`; Python would raise an `IndexError` there, which also ends with status 1.
- `os.path.isfile` is membership in a set of existing files. `os.path.abspath` and `os.path.realpath` are function parameters, because they depend on the working directory.
- `str(float)` of `p_value` is a function parameter. The value itself is an `Args.Float`: a finite number, an infinity or NaN. Finite values are exact reals, so binary rounding is not modelled.
- `subprocess.run` and the external application are not modelled: the return code is an input. The messages printed to stderr are not modelled.
- `make_dirs` and its `EEXIST` handling, and the write of the options file, are flags in `SetupEffects`: whether each directory is ready and whether the file exists after the write.
- `\W` is ASCII only. Unicode word characters are not modelled.
- The spark and BIDS names are treated literally in `search` and `sub`. Setup writes only word characters into the spark name, but a name holding regular-expression metacharacters or backslashes is not modelled.
- Outputs.Matches: a path holding a newline is not modelled beyond the `.` rule of `search` (no newline right before and after the raw-output name).
- Empty directories are not represented in the `Outputs` tree; a directory exists while a file lies below it. So:
  - `makedirs` in `move_outputs` has nothing to do;
  - an `rmdir` of a directory that never held a file is not detected as an error;
  - `os.walk` of a missing directory is not detected.
- Shell.CommandWords: a leading assignment word or a bare reserved word makes the line "not a simple command" (`None`); what the shell then runs, aliases and the bash-only reserved words are not modelled. The handlers' commands start with an absolute path, so this case never arises for them.
- `shutil.move` treats a destination that is the same file as the source, reached through a link, as a move onto itself; links are not modelled, so only the identical path is.
- The listings `os.walk` yields are parameters of `RenameOutputs` and `MoveOutputs`; their traversal order is not derived from the tree.
  - For `rename_outputs`, a listed directory that no longer exists is skipped, as `os.walk` does after a directory is renamed mid-walk.
  - Outputs.MoveOutputsRelocates holds for walks that list each file below `<out>/<bids>` exactly once, in bottom-up order (`WalksTree`).
  - It also requires that every output has a free place below `out` (`FreeTargets`). Other walks and trees are covered only by the error cases of `os.rename` and `rmdir` in the model.
- `os.rename` onto an existing directory, and the replacement of a target file, follow POSIX `rename`. Platform differences are not modelled.
- The `Outputs` paths are sequences of components. The joining of the string paths of `Wrapup` into those components is not modelled.
- Spark.DefaultExe: the help text names the default application `spark.samapp`, but the code joins `spark_samapp`. The model follows the code.
- Run.JobFilter: differs from the source when only indices are given. It quotes the index text so that the intended argument reaches the program; see Findings. `Run.JobsAsWritten` keeps the source's text.
- The `--verbose` flags are carried in the records and written to the options file. They have no other effect in the wrapper.

## Findings

| source | as written | input that shows it | evidently intended | confidence | as-written member | corrected member |
|---|---|---|---|---|---|---|
| for_build/spark/run.py:25-33 | with only `--jobs-indices`, the filter `1;3;` is placed unquoted in a command run with `shell=True`; the shell ends the command at the first `;`, so the program receives only the first index and the rest runs as separate shell commands | `--jobs-indices 1 3` with no patterns: the line `'exe' run 'pipe.mat' A 1;3;` gives the program `exe run pipe.mat A 1`, then runs `3` as a command, which the shell does not find (return code 127, so the handler's status is 1) | the whole index text `1;3;` as one argument of the program | medium, not executed | Run.IndicesCommandAsWritten | Run.JobFilter |
