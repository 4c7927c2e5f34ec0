/** The WRAP-UP handler (`for_build/spark/wrapup.py`), its naming side: the
    options file it reads, the name the external program gave its raw
    outputs (read back from the `fmri_data` line of that file), the BIDS name
    the final outputs take, and the argument checks. The renaming and moving
    of the outputs themselves is in the `Outputs` module. */
module Wrapup {
  import opened Wrappers
  import opened Strings
  import opened Paths
  import opened BidsNames
  import Setup
  import Outputs
  import Args

  // ---------------------------------------------------------------------------
  // Arguments and checks
  // ---------------------------------------------------------------------------

  /** The parsed arguments of the wrap-up handler. */
  datatype WrapupArgs = WrapupArgs(fmri: string, outDir: string, moveOutputs: bool, verbose: bool)

  /** The options given with `nargs=1`, unwrapped after parsing. */
  const SingletonKeys: seq<string> := ["fmri", "out_dir", "move_outputs", "verbose"]

  /** The end of `parse_iargs`: every option wrap-up declares with
      `nargs=1` becomes a plain value; any other entry stays as parsed. */
  method UnwrapParsed(parsed: map<string, Args.ArgValue>) returns (oargs: map<string, Args.ArgValue>)
    requires forall i :: 0 <= i < |SingletonKeys| ==> SingletonKeys[i] in parsed
    requires forall k :: k in parsed && parsed[k].Many? ==> |parsed[k].items| >= 1
    ensures oargs.Keys == parsed.Keys
    ensures forall i :: 0 <= i < |SingletonKeys| ==> oargs[SingletonKeys[i]] == Args.Unwrapped(parsed[SingletonKeys[i]])
    ensures forall k :: k in parsed && k !in SingletonKeys ==> oargs[k] == parsed[k]
  {
    oargs := Args.UnwrapSingletons(parsed, SingletonKeys);
  }

  datatype WrapupConfig = WrapupConfig(args: WrapupArgs, pipeFile: string)

  /** Every diagnostic after which wrap-up exits with status 1. */
  datatype WrapupError = PipeFileNotFound | FmriDataMissing

  /** `setup_abspath`: the two paths made absolute. */
  function MadeAbsolute(a: WrapupArgs, absPath: string -> string): WrapupArgs {
    a.(fmri := absPath(a.fmri), outDir := absPath(a.outDir))
  }

  /** `get_pipe_file`: the `.opt` options file of an fMRI file, built with
      the shared base-name rule. */
  function GetPipeFile(outDir: string, fmri: string): (p: string)
    ensures p == OptPath(outDir, BaseName(fmri))
  {
    var filename := BaseName(fmri);
    JoinPath4(outDir, filename, PipelinesDirName, filename + ".opt");
    JoinPath([outDir, filename, PipelinesDirName, filename + ".opt"])
  }

  /** Wrap-up reads the options file setup wrote for the same output
      directory and fMRI file, and that file names (as `pipe_file`) the
      pipeline file run executes: the three handlers agree on the layout. */
  lemma HandlersAgreeOnLayout(a: Setup.SetupArgs, files: set<string>, absPath: string -> string,
                              isBids: string -> bool, showReal: Args.Float -> string)
    requires Setup.CheckedArgs(a, files, absPath, isBids).Ok?
    ensures var c := Setup.CheckedArgs(a, files, absPath, isBids).value;
      && GetPipeFile(absPath(a.outDir), absPath(a.fmri)) == Setup.PlanPipes(c, showReal).optPath
      && Setup.OptionEntries(c, showReal)[0].1 == MatPath(absPath(a.outDir), BaseName(absPath(a.fmri)))
  {
    var c := Setup.CheckedArgs(a, files, absPath, isBids).value;
    Setup.SetupFmriOutcome(c.args.fmri, isBids);
    Setup.PipeFileIsMat(c, showReal);
  }

  /** `check_iargs_integrity`: the only check is that the options file
      exists. */
  function CheckIntegrity(c: WrapupConfig, files: set<string>): (r: Outcome<WrapupError>)
    ensures r.Pass? <==> c.pipeFile in files
    ensures r.Fail? ==> r.error == PipeFileNotFound
  {
    if c.pipeFile !in files then Fail(PipeFileNotFound) else Pass
  }

  function Configured(a: WrapupArgs, absPath: string -> string): WrapupConfig {
    var b := MadeAbsolute(a, absPath);
    WrapupConfig(b, GetPipeFile(b.outDir, b.fmri))
  }

  /** `check_iargs`: paths are made absolute, then the options file is
      derived from them and must exist; nothing else is checked. */
  function CheckedArgs(a: WrapupArgs, files: set<string>, absPath: string -> string)
    : (r: Result<WrapupConfig, WrapupError>)
    ensures r.Ok? <==> OptPath(absPath(a.outDir), BaseName(absPath(a.fmri))) in files
    ensures r.Ok? ==> r.value.args == MadeAbsolute(a, absPath)
    ensures r.Ok? ==> r.value.pipeFile == OptPath(absPath(a.outDir), BaseName(absPath(a.fmri)))
    ensures r.Err? ==> r.error == PipeFileNotFound
  {
    var c := Configured(a, absPath);
    match CheckIntegrity(c, files)
    case Fail(e) => Err(e)
    case Pass => Ok(c)
  }

  /** `check_iargs` as the handler runs it. */
  method CheckArgs(a: WrapupArgs, files: set<string>, absPath: string -> string)
    returns (r: Result<WrapupConfig, WrapupError>)
    ensures r == CheckedArgs(a, files, absPath)
  {
    var oargs := a;
    oargs := oargs.(fmri := absPath(oargs.fmri));
    oargs := oargs.(outDir := absPath(oargs.outDir));
    var c := WrapupConfig(oargs, GetPipeFile(oargs.outDir, oargs.fmri));
    var integrity := CheckIntegrity(c, files);
    if integrity.Fail? {
      return Err(integrity.error);
    }
    r := Ok(c);
  }

  // ---------------------------------------------------------------------------
  // The name of the final outputs
  // ---------------------------------------------------------------------------

  /** `get_bids_filename`: the file name of the options file without its
      extension. */
  function GetBidsFilename(pipeFile: string): string {
    SplitExt(Basename(pipeFile)).0
  }

  /** Applied to the options file of an fMRI file, the BIDS file name is the
      base name again, provided the base name holds a character other than a
      dot (`splitext` does not split a name made of leading dots). */
  lemma BidsFilenameOfPipeFile(outDir: string, fmri: string)
    requires exists k :: 0 <= k < |BaseName(fmri)| && BaseName(fmri)[k] != '.'
    ensures GetBidsFilename(GetPipeFile(outDir, fmri)) == BaseName(fmri)
  {
    BaseNameSpec(fmri);
    BidsFilenameOfOpt(outDir, BaseName(fmri));
  }

  lemma BidsFilenameOfOpt(outDir: string, base: string)
    requires Sep !in base
    requires exists k :: 0 <= k < |base| && base[k] != '.'
    ensures GetBidsFilename(OptPath(outDir, base)) == base
  {
    OptFileName(outDir, base);
    SplitExtOfName(base, "opt");
    assert base + "." + "opt" == base + ".opt";
  }

  /** The options file is named `<base>.opt` inside its directory. */
  lemma OptFileName(outDir: string, base: string)
    requires Sep !in base
    ensures Basename(OptPath(outDir, base)) == base + ".opt"
  {
    var dir := outDir + "/" + base + "/pipelines";
    OptPathSplit(outDir, base);
    assert Sep !in base + ".opt";
    BasenameOfJoin(dir, base + ".opt");
  }

  lemma OptPathSplit(outDir: string, base: string)
    ensures OptPath(outDir, base) == (outDir + "/" + base + "/pipelines") + [Sep] + (base + ".opt")
  {
  }

  /** When the last token of the fMRI name has at most four characters the
      base name is empty, and the options file is `<out_dir>//pipelines/.opt`,
      whose BIDS name is `.opt`, not the empty base name. */
  lemma BidsFilenameOfEmptyBase(outDir: string)
    ensures GetBidsFilename(OptPath(outDir, "")) == ".opt"
  {
    OptFileName(outDir, "");
    assert "" + ".opt" == ".opt";
    var p := ".opt";
    assert p[0] == '.' && p[1] == 'o' && p[2] == 'p' && p[3] == 't';
    assert LastIndexOf(p, '.') == 0;
    assert LastIndexOf(p, Sep) == -1;
    assert !HasStemBefore(p, -1, 0);
  }

  // ---------------------------------------------------------------------------
  // The name of the raw outputs
  // ---------------------------------------------------------------------------

  const FmriDataPrefix: string := "fmri_data "

  function Min(a: int, b: int): int {
    if a < b then a else b
  }

  /** `'_'.join(line.split(' ')[1:4])`: the second to fourth space-separated
      words of a line, joined with `_` (fewer when the line has fewer). */
  function NameFromLine(line: string): string {
    var words := Split(line, ' ');
    Join(words[1..Min(4, |words|)], "_")
  }

  /** The index of the first line that starts with `fmri_data `. */
  function FirstFmriLine(lines: seq<string>): (r: Option<nat>)
    ensures r.Some? ==> r.value < |lines| && StartsWith(lines[r.value], FmriDataPrefix)
    ensures r.Some? ==> forall j :: 0 <= j < r.value ==> !StartsWith(lines[j], FmriDataPrefix)
    ensures r.None? ==> forall j :: 0 <= j < |lines| ==> !StartsWith(lines[j], FmriDataPrefix)
  {
    if lines == [] then None
    else if StartsWith(lines[0], FmriDataPrefix) then Some(0)
    else
      match FirstFmriLine(lines[1..])
      case None => None
      case Some(i) => Some(i + 1)
  }

  /** What `get_spark_filename` makes of the lines of the options file: the
      name read from the first `fmri_data` line, or an error when there is no
      such line or the name read is empty. */
  function SparkFilenameOf(lines: seq<string>): (r: Result<string, WrapupError>)
    ensures r.Ok? ==> r.value != ""
    ensures r.Err? ==> r.error == FmriDataMissing
  {
    match FirstFmriLine(lines)
    case None => Err(FmriDataMissing)
    case Some(i) =>
      var name := NameFromLine(lines[i]);
      if name == "" then Err(FmriDataMissing) else Ok(name)
  }

  /** `get_spark_filename`: scans the lines of the options file and stops at
      the first one that starts with `fmri_data `. */
  method GetSparkFilename(text: string) returns (r: Result<string, WrapupError>)
    ensures r == SparkFilenameOf(LinesOf(text))
  {
    var lines := LinesOf(text);
    var filename := "";
    var i := 0;
    while i < |lines|
      invariant 0 <= i <= |lines|
      invariant forall j :: 0 <= j < i ==> !StartsWith(lines[j], FmriDataPrefix)
      invariant filename == ""
    {
      if StartsWith(lines[i], FmriDataPrefix) {
        filename := NameFromLine(lines[i]);
        break;
      }
      i := i + 1;
    }
    if filename == "" {
      return Err(FmriDataMissing);
    }
    r := Ok(filename);
  }

  /** On the options file setup writes, the name read back is
      `<sub>_<ses>_<run>`: the identifiers hold no space, so they are the
      second to fourth words of the `fmri_data` line, whatever the path after
      them holds. */
  lemma SparkFilenameOfSetup(c: Setup.SetupConfig, showReal: Args.Float -> string)
    requires Setup.IdsWellFormed(c.ids) && Setup.PathsOnOneLine(c, showReal)
    ensures SparkFilenameOf(LinesOf(Setup.OptionsText(Setup.OptionEntries(c, showReal))))
         == Ok(c.ids.sub + "_" + c.ids.ses + "_" + c.ids.run)
  {
    var entries := Setup.OptionEntries(c, showReal);
    Setup.EntriesOneLine(c, showReal);
    Setup.OptionsTextRoundTrip(entries);
    FirstTwoEntries(c, showReal);
    SparkFilenameOfLines(Setup.EntryLines(entries), entries[0].1, c.ids);
  }

  lemma FirstTwoEntries(c: Setup.SetupConfig, showReal: Args.Float -> string)
    ensures var entries := Setup.OptionEntries(c, showReal);
      && entries[0].0 == "pipe_file"
      && entries[1] == ("fmri_data", Setup.FmriDataValue(c.ids))
  {
  }

  /** Lines whose first is the `pipe_file` entry and whose second is the
      `fmri_data` entry name the identifiers of that second line. */
  lemma SparkFilenameOfLines(lines: seq<string>, pipe: string, ids: Setup.FmriIds)
    requires |lines| >= 2 && Setup.IdsWellFormed(ids)
    requires lines[0] == Setup.EntryLine("pipe_file", pipe)
    requires lines[1] == Setup.EntryLine("fmri_data", Setup.FmriDataValue(ids))
    ensures SparkFilenameOf(lines) == Ok(ids.sub + "_" + ids.ses + "_" + ids.run)
  {
    NotFmriLine(pipe);
    FmriLineName(ids);
    assert FirstFmriLine(lines) == Some(1) by {
      assert !StartsWith(lines[0], FmriDataPrefix);
      assert FirstFmriLine(lines[1..]) == Some(0);
    }
  }

  lemma NotFmriLine(value: string)
    ensures !StartsWith(Setup.EntryLine("pipe_file", value), FmriDataPrefix)
  {
    assert Setup.EntryLine("pipe_file", value)[0] == 'p';
  }

  /** The `fmri_data` line setup writes starts with the prefix and yields
      the three identifiers joined with `_`. */
  lemma FmriLineName(ids: Setup.FmriIds)
    requires Setup.IdsWellFormed(ids)
    ensures var line := Setup.EntryLine("fmri_data", Setup.FmriDataValue(ids));
      StartsWith(line, FmriDataPrefix) && NameFromLine(line) == ids.sub + "_" + ids.ses + "_" + ids.run
  {
    var line := Setup.EntryLine("fmri_data", Setup.FmriDataValue(ids));
    FmriDataLine(ids);
    WordCharsNoSpace(ids.sub);
    WordCharsNoSpace(ids.ses);
    WordCharsNoSpace(ids.run);
    SplitFourWords("fmri_data", ids.sub, ids.ses, ids.run, ids.path + "\n");
    var words := Split(line, ' ');
    assert words[1..4] == [ids.sub, ids.ses, ids.run];
    JoinThreeWith(ids.sub, ids.ses, ids.run, "_");
  }

  /** The `fmri_data` line, spelled out. */
  lemma FmriDataLine(ids: Setup.FmriIds)
    ensures Setup.EntryLine("fmri_data", Setup.FmriDataValue(ids))
         == "fmri_data" + [' '] + ids.sub + [' '] + ids.ses + [' '] + ids.run + [' '] + (ids.path + "\n")
    ensures StartsWith(Setup.EntryLine("fmri_data", Setup.FmriDataValue(ids)), FmriDataPrefix)
  {
    var v := Setup.FmriDataValue(ids);
    JoinFourWith(ids.sub, ids.ses, ids.run, ids.path, " ");
    assert v == ids.sub + " " + ids.ses + " " + ids.run + " " + ids.path;
    var line := Setup.EntryLine("fmri_data", v);
    assert line == "fmri_data " + v + "\n";
    assert line[..|FmriDataPrefix|] == FmriDataPrefix;
  }

  lemma WordCharsNoSpace(s: string)
    requires AllWordChars(s)
    ensures ' ' !in s
  {
  }

  /** Four words without spaces, then the rest of the line: splitting on
      spaces gives the four words first. */
  lemma SplitFourWords(a: string, b: string, c: string, d: string, rest: string)
    requires ' ' !in a && ' ' !in b && ' ' !in c && ' ' !in d
    ensures var words := Split(a + [' '] + b + [' '] + c + [' '] + d + [' '] + rest, ' ');
      |words| >= 5 && words[..4] == [a, b, c, d]
  {
    var t3 := d + [' '] + rest;
    var t2 := c + [' '] + t3;
    var t1 := b + [' '] + t2;
    assert a + [' '] + b + [' '] + c + [' '] + d + [' '] + rest == a + [' '] + t1;
    SplitAroundFirst(a, t1, ' ');
    SplitAroundFirst(b, t2, ' ');
    SplitAroundFirst(c, t3, ' ');
    SplitAroundFirst(d, rest, ' ');
    PrependFour(a, b, c, d, Split(rest, ' '));
  }

  lemma PrependFour(a: string, b: string, c: string, d: string, more: seq<string>)
    requires |more| >= 1
    ensures var w := [a] + ([b] + ([c] + ([d] + more))); |w| >= 5 && w[..4] == [a, b, c, d]
  {
  }

  lemma JoinThreeWith(a: string, b: string, c: string, sep: string)
    ensures Join([a, b, c], sep) == a + sep + b + sep + c
  {
    JoinCons(a, [b, c], sep);
    JoinCons(b, [c], sep);
    assert [a, b, c][1..] == [b, c];
    assert [b, c][1..] == [c];
  }

  lemma JoinFourWith(a: string, b: string, c: string, d: string, sep: string)
    ensures Join([a, b, c, d], sep) == a + sep + b + sep + c + sep + d
  {
    JoinCons(a, [b, c, d], sep);
    assert [a, b, c, d][1..] == [b, c, d];
    JoinThreeWith(b, c, d, sep);
  }

  /** A line of three space-free words yields its second and third word:
      fewer than four words after the prefix give what there is. */
  lemma ThreeWordName(p: string, a: string, b: string)
    requires ' ' !in p && ' ' !in a && ' ' !in b
    ensures NameFromLine(p + [' '] + a + [' '] + b) == a + "_" + b
  {
    assert p + [' '] + a + [' '] + b == p + [' '] + (a + [' '] + b);
    SplitAroundFirst(p, a + [' '] + b, ' ');
    SplitAroundFirst(a, b, ' ');
    var words := [p] + ([a] + [b]);
    assert Split(p + [' '] + a + [' '] + b, ' ') == words;
    assert words[1..3] == [a] + [b];
    JoinCons(a, [b], "_");
  }

  /** A line `fmri_data <a> <b>` with only two words after the prefix gives
      `<a>_<b>` followed by the newline, which stays in the name. */
  lemma ShortFmriLine(a: string, b: string)
    requires ' ' !in a && ' ' !in b
    ensures NameFromLine(FmriDataPrefix + a + " " + b + "\n") == a + "_" + b + "\n"
  {
    var p := "fmri_data";
    assert ' ' !in p by { assert forall k | 0 <= k < |p| :: p[k] != ' '; }
    ThreeWordName(p, a, b + "\n");
    assert FmriDataPrefix + a + " " + b + "\n" == p + [' '] + a + [' '] + (b + "\n");
    assert a + "_" + (b + "\n") == a + "_" + b + "\n";
  }

  /** A last line `fmri_data ` without a newline names nothing: the handler
      reports the option as missing. */
  lemma EmptyFmriName()
    ensures SparkFilenameOf(["fmri_data "]) == Err(FmriDataMissing)
  {
    var line := "fmri_data ";
    assert line == "fmri_data" + [' '] + "";
    SplitAroundFirst("fmri_data", "", ' ');
    SplitNoSeparator("", ' ');
    assert Split(line, ' ') == ["fmri_data", ""];
    assert NameFromLine(line) == "";
    assert StartsWith(line, FmriDataPrefix);
    assert FirstFmriLine([line]) == Some(0);
  }

  // ---------------------------------------------------------------------------
  // Exit status
  // ---------------------------------------------------------------------------

  /** `wrapup(iargs)`: a failed check, an options file without a usable
      `fmri_data` line, or a renaming or moving step that raises ends the
      handler with status 1 (a raised error ends the interpreter with that
      status); the outputs are moved only when `--move-outputs` is given, and
      anything else ends with 0. */
  function WrapupStatus(checked: Result<WrapupConfig, WrapupError>, sparkName: Result<string, WrapupError>,
                        renamed: bool, moved: bool): (status: int)
    ensures status == 0 || status == 1
    ensures status == 0 <==> checked.Ok? && sparkName.Ok? && renamed && (checked.value.args.moveOutputs ==> moved)
  {
    if checked.Err? || sparkName.Err? || !renamed then 1
    else if checked.value.args.moveOutputs && !moved then 1
    else 0
  }

  /** `wrapup(iargs)` once its arguments are checked and the raw-output name
      is read: `rename_outputs` over the output tree, then `move_outputs`
      when `--move-outputs` is given. `out` is the output directory as path
      components. The status is what `WrapupStatus` gives for the outcomes
      of the two walks; the outputs are moved only after every rename
      succeeded, and only when asked. */
  method WrapupOutputs(tree: Outputs.OutputTree, c: WrapupConfig, sparkName: string, out: Outputs.Path,
                       renameWalk: seq<Outputs.Listing>, moveWalk: seq<Outputs.Listing>) returns (status: int)
    requires Outputs.Rooted(renameWalk)
    requires Outputs.InSrc(moveWalk, out + [GetBidsFilename(c.pipeFile)])
    modifies tree
    ensures var bids := GetBidsFilename(c.pipeFile);
      var renamed := Outputs.RenameAll(old(tree.files), renameWalk, sparkName, bids);
      var moved := Outputs.MovedOutputs(renamed.0, out, bids, moveWalk);
      && status == WrapupStatus(Ok(c), Ok(sparkName), renamed.1, moved.1)
      && tree.files == if renamed.1 && c.args.moveOutputs then moved.0 else renamed.0
  {
    var bids := GetBidsFilename(c.pipeFile);
    var renamed := tree.RenameOutputs(renameWalk, sparkName, bids);
    var moved := true;
    if renamed && c.args.moveOutputs {
      moved := tree.MoveOutputs(out, bids, moveWalk);
    }
    status := WrapupStatus(Ok(c), Ok(sparkName), renamed, moved);
  }
}
