/** The RUN handler (`for_build/spark/run.py`): makes the paths absolute,
    derives the pipeline file from the fMRI file name, checks the arguments
    and has the external program run one stage of the pipeline, optionally
    restricted to some of its jobs.

    As in setup, `files` is the set of paths naming existing regular files
    and `absPath` is `os.path.abspath` in the current working directory. */
module Run {
  import opened Wrappers
  import opened Strings
  import opened Paths
  import opened BidsNames
  import opened Shell
  import Setup
  import Args

  // ---------------------------------------------------------------------------
  // Parsed arguments
  // ---------------------------------------------------------------------------

  /** `--stage` choices. */
  datatype Stage = A | B | C

  function StageName(s: Stage): (r: string)
    ensures |r| == 1 && AllSafe(r)
  {
    match s
    case A => "A"
    case B => "B"
    case C => "C"
  }

  /** The parsed arguments of the run handler. */
  datatype RunArgs = RunArgs(exe: string, stage: Stage, fmri: string, outDir: string,
                             jobsPatterns: seq<string>, jobsIndices: seq<int>, verbose: bool)

  /** The options given with `nargs=1`, unwrapped after parsing. */
  const SingletonKeys: seq<string> := ["exe", "stage", "fmri", "out_dir", "verbose"]

  /** The end of `parse_iargs`: the `nargs=1` options become plain values,
      while the job lists stay the lists the parser built. */
  method UnwrapParsed(parsed: map<string, Args.ArgValue>) returns (oargs: map<string, Args.ArgValue>)
    requires forall i :: 0 <= i < |SingletonKeys| ==> SingletonKeys[i] in parsed
    requires forall k :: k in parsed && parsed[k].Many? ==> |parsed[k].items| >= 1
    ensures oargs.Keys == parsed.Keys
    ensures forall i :: 0 <= i < |SingletonKeys| ==> oargs[SingletonKeys[i]] == Args.Unwrapped(parsed[SingletonKeys[i]])
    ensures "jobs_patterns" in parsed ==> oargs["jobs_patterns"] == parsed["jobs_patterns"]
    ensures "jobs_indices" in parsed ==> oargs["jobs_indices"] == parsed["jobs_indices"]
  {
    oargs := Args.UnwrapSingletons(parsed, SingletonKeys);
  }

  /** The arguments once `check_iargs` has added the pipeline file. */
  datatype RunConfig = RunConfig(args: RunArgs, pipeFile: string)

  /** `setup_abspath`: the three paths made absolute. */
  function MadeAbsolute(a: RunArgs, absPath: string -> string): RunArgs {
    a.(fmri := absPath(a.fmri), outDir := absPath(a.outDir), exe := absPath(a.exe))
  }

  /** `get_pipe_file`: the `.mat` pipeline file of an fMRI file, built with
      the shared base-name rule. */
  function GetPipeFile(outDir: string, fmri: string): (p: string)
    ensures p == MatPath(outDir, BaseName(fmri))
  {
    var filename := BaseName(fmri);
    JoinPath4(outDir, filename, PipelinesDirName, filename + ".mat");
    JoinPath([outDir, filename, PipelinesDirName, filename + ".mat"])
  }

  /** The pipeline file run executes is the one setup names in the options
      file it writes for the same output directory and fMRI file. */
  lemma PipeFileAgreesWithSetup(c: Setup.SetupConfig, showReal: Args.Float -> string)
    requires c.ids.base == BaseName(c.args.fmri)
    ensures GetPipeFile(c.args.outDir, c.args.fmri) == Setup.OptionEntries(c, showReal)[0].1
  {
    Setup.PipeFileIsMat(c, showReal);
  }

  /** Setup accepts an fMRI file only with identifiers whose base name is the
      one run derives, so after a successful setup, run looks for the file
      setup asked the external program to create. */
  lemma RunFindsSetupPipeFile(a: Setup.SetupArgs, files: set<string>, absPath: string -> string,
                              isBids: string -> bool, showReal: Args.Float -> string)
    requires Setup.CheckedArgs(a, files, absPath, isBids).Ok?
    ensures var c := Setup.CheckedArgs(a, files, absPath, isBids).value;
      GetPipeFile(absPath(a.outDir), absPath(a.fmri)) == Setup.OptionEntries(c, showReal)[0].1
  {
    var c := Setup.CheckedArgs(a, files, absPath, isBids).value;
    Setup.SetupFmriOutcome(c.args.fmri, isBids);
    PipeFileAgreesWithSetup(c, showReal);
  }

  // ---------------------------------------------------------------------------
  // Integrity
  // ---------------------------------------------------------------------------

  /** Every diagnostic after which run exits with status 1, in check order. */
  datatype RunError = ExeNotFound | PipeFileNotFound | JobIndexBelowOne

  function Rank(e: RunError): nat {
    match e
    case ExeNotFound => 0
    case PipeFileNotFound => 1
    case JobIndexBelowOne => 2
  }

  predicate IndexBelowOne(indices: seq<int>) {
    exists i :: 0 <= i < |indices| && indices[i] < 1
  }

  /** The condition each integrity check rejects, on its own. The index
      check looks at the indices even when patterns are given, which take
      precedence over them when the command is built. */
  predicate Violated(c: RunConfig, files: set<string>, e: RunError) {
    match e
    case ExeNotFound => c.args.exe !in files
    case PipeFileNotFound => c.pipeFile !in files
    case JobIndexBelowOne => IndexBelowOne(c.args.jobsIndices)
  }

  /** `check_iargs_integrity`: the first failing check decides the outcome;
      the arguments pass exactly when no check rejects them. */
  function CheckIntegrity(c: RunConfig, files: set<string>): (r: Outcome<RunError>)
    ensures r.Pass? <==> forall e :: !Violated(c, files, e)
    ensures r.Fail? ==> Violated(c, files, r.error)
    ensures r.Fail? ==> forall e :: Rank(e) < Rank(r.error) ==> !Violated(c, files, e)
  {
    var r :=
      if c.args.exe !in files then Fail(ExeNotFound)
      else if c.pipeFile !in files then Fail(PipeFileNotFound)
      else if c.args.jobsIndices != [] && IndexBelowOne(c.args.jobsIndices) then Fail(JobIndexBelowOne)
      else Pass;
    assert r.Fail? ==> Violated(c, files, r.error);
    r
  }

  /** An empty index list passes, and so does a list of indices that are all
      at least 1, whatever patterns are given. */
  lemma IndicesAccepted(c: RunConfig, files: set<string>)
    requires c.args.exe in files && c.pipeFile in files
    ensures c.args.jobsIndices == [] ==> CheckIntegrity(c, files) == Pass
    ensures (forall i :: 0 <= i < |c.args.jobsIndices| ==> c.args.jobsIndices[i] >= 1)
        <==> CheckIntegrity(c, files) == Pass
  {
    if CheckIntegrity(c, files) == Pass {
      assert !Violated(c, files, JobIndexBelowOne);
    }
  }

  /** The configuration `check_iargs` builds: absolute paths, then the
      pipeline file from the absolute output directory and fMRI path. */
  function Configured(a: RunArgs, absPath: string -> string): RunConfig {
    var b := MadeAbsolute(a, absPath);
    RunConfig(b, GetPipeFile(b.outDir, b.fmri))
  }

  /** `check_iargs`: the pipeline file is derived after the paths are made
      absolute and before the checks, so the file that must exist is the one
      under the absolute output directory. */
  function CheckedArgs(a: RunArgs, files: set<string>, absPath: string -> string): (r: Result<RunConfig, RunError>)
    ensures r.Ok? <==> forall e :: !Violated(Configured(a, absPath), files, e)
    ensures r.Ok? ==> r.value.args == MadeAbsolute(a, absPath)
    ensures r.Ok? ==> r.value.pipeFile == MatPath(absPath(a.outDir), BaseName(absPath(a.fmri)))
    ensures r.Err? ==> Violated(Configured(a, absPath), files, r.error)
    ensures r.Err? ==> forall e :: Rank(e) < Rank(r.error) ==> !Violated(Configured(a, absPath), files, e)
  {
    var c := Configured(a, absPath);
    match CheckIntegrity(c, files)
    case Fail(e) => Err(e)
    case Pass => Ok(c)
  }

  /** `check_iargs` as the handler runs it, overwriting the dictionary
      entries one after the other. */
  method CheckArgs(a: RunArgs, files: set<string>, absPath: string -> string)
    returns (r: Result<RunConfig, RunError>)
    ensures r == CheckedArgs(a, files, absPath)
  {
    var oargs := a;
    oargs := oargs.(fmri := absPath(oargs.fmri));
    oargs := oargs.(outDir := absPath(oargs.outDir));
    oargs := oargs.(exe := absPath(oargs.exe));
    var pipeFile := GetPipeFile(oargs.outDir, oargs.fmri);
    var c := RunConfig(oargs, pipeFile);
    var integrity := CheckIntegrity(c, files);
    if integrity.Fail? {
      return Err(integrity.error);
    }
    r := Ok(c);
  }

  // ---------------------------------------------------------------------------
  // The job filter
  // ---------------------------------------------------------------------------

  /** `[str(x) for x in jobs_indices]` */
  function IndexTexts(indices: seq<int>): (r: seq<string>)
    ensures |r| == |indices|
  {
    seq(|indices|, i requires 0 <= i < |indices| => IntToString(indices[i]))
  }

  /** `';'.join(...) + ';'`: each index in decimal, followed by `;`. */
  function IndicesText(indices: seq<int>): string {
    Join(IndexTexts(indices), ";") + ";"
  }

  /** Cut at each `;`, the index text gives back the decimal indices, then
      the empty text after the last `;`; each piece reads back as its index. */
  lemma IndicesTextPieces(indices: seq<int>)
    requires |indices| >= 1
    requires forall i :: 0 <= i < |indices| ==> indices[i] >= 1
    ensures Split(IndicesText(indices), ';') == IndexTexts(indices) + [""]
    ensures forall i :: 0 <= i < |indices| ==>
      IndexTexts(indices)[i] == NatToString(indices[i]) && ParseNat(NatToString(indices[i])) == indices[i]
  {
    var texts := IndexTexts(indices);
    IndexTextsAvoid(indices);
    SplitJoin(texts, ';');
    var j := Join(texts, ";");
    assert IndicesText(indices) == j + [';'] + "";
    SplitAround(j, "", ';');
    SplitNoSeparator("", ';');
    forall i | 0 <= i < |indices|
      ensures texts[i] == NatToString(indices[i]) && ParseNat(NatToString(indices[i])) == indices[i]
    {
      ParseNatToString(indices[i]);
    }
  }

  lemma IndexTextsAvoid(indices: seq<int>)
    ensures forall i :: 0 <= i < |indices| ==> ';' !in IndexTexts(indices)[i] && AllSafe(IndexTexts(indices)[i])
  {
    forall i | 0 <= i < |indices|
      ensures ';' !in IndexTexts(indices)[i] && AllSafe(IndexTexts(indices)[i])
    {
      var t := IntToString(indices[i]);
      assert forall k :: 0 <= k < |t| ==> SafeChar(t[k]);
    }
  }

  /** The example of the help text: indices 1 and 3 give `1;3;`. */
  lemma IndicesOneThree()
    ensures IndicesText([1, 3]) == "1;3;"
  {
    assert IntToString(1) == "1";
    assert IntToString(3) == "3";
    assert IndexTexts([1, 3]) == ["1", "3"];
    assert Join(["1", "3"], ";") == "1;3";
  }

  /** The job filter as the source builds it: quoted patterns when any are
      given, otherwise the bare index text when indices are given, otherwise
      nothing. */
  function JobsAsWritten(patterns: seq<string>, indices: seq<int>): string {
    if patterns != [] then Join(QuoteAll(patterns), " ")
    else if indices != [] then IndicesText(indices)
    else ""
  }

  /** The arguments the external program is meant to receive after the
      stage: the patterns when any are given (they take precedence), else
      the index text as one argument when indices are given, else none. */
  function JobArgs(patterns: seq<string>, indices: seq<int>): (r: seq<string>)
    ensures patterns != [] ==> r == patterns
    ensures patterns == [] && indices != [] ==> |r| == 1
    ensures patterns == [] && indices == [] ==> r == []
  {
    if patterns != [] then patterns
    else if indices != [] then [IndicesText(indices)]
    else []
  }

  /** The job filter of `run_pipe`, assigned step by step: indices first,
      then patterns, which replace them. The index text is quoted (see the
      findings); everything else is as the source builds it. The shell reads
      the filter back as exactly the intended job arguments. */
  method JobFilter(patterns: seq<string>, indices: seq<int>) returns (jobs: string)
    ensures ReadArgs(jobs) == Some(JobArgs(patterns, indices))
    ensures patterns != [] || indices == [] ==> jobs == JobsAsWritten(patterns, indices)
    ensures patterns == [] && indices != [] ==> jobs == Quote(JobsAsWritten(patterns, indices))
  {
    jobs := "";
    if indices != [] {
      jobs := Quote(IndicesText(indices));
      QuoteRoundTrip(IndicesText(indices));
    }
    if patterns != [] {
      jobs := Join(QuoteAll(patterns), " ");
      ReadQuotedWords(patterns, []);
      assert jobs + [] == jobs;
      assert ReadArgs([]) == Some([]);
      assert patterns + [] == patterns;
    }
  }

  // ---------------------------------------------------------------------------
  // The command
  // ---------------------------------------------------------------------------

  /** `'{} run {} {} {}'.format(quote(exe), quote(pipe_file), stage, jobs)`;
      with no filter the line ends in a blank. */
  function RunCommand(exe: string, pipeFile: string, stage: Stage, jobs: string): string {
    Quote(exe) + " run " + Quote(pipeFile) + " " + StageName(stage) + " " + jobs
  }

  /** The command line is the four fixed words, quoted, then a blank and the
      filter. */
  lemma RunCommandShape(exe: string, pipeFile: string, stage: Stage, jobs: string)
    ensures RunCommand(exe, pipeFile, stage, jobs)
         == Join(QuoteAll([exe, "run", pipeFile, StageName(stage)]), " ") + (" " + jobs)
  {
    var s := StageName(stage);
    assert AllSafe("run");
    assert QuoteAll([exe, "run", pipeFile, s]) == [Quote(exe), "run", Quote(pipeFile), s];
    JoinFour(Quote(exe), "run", Quote(pipeFile), s);
    assert Quote(exe) + " " + "run" + " " + Quote(pipeFile) + " " + s + (" " + jobs)
        == RunCommand(exe, pipeFile, stage, jobs);
  }

  lemma JoinFour(a: string, b: string, c: string, d: string)
    ensures Join([a, b, c, d], " ") == a + " " + b + " " + c + " " + d
  {
    JoinCons(a, [b, c, d], " ");
    JoinCons(b, [c, d], " ");
    JoinCons(c, [d], " ");
    assert [a, b, c, d][1..] == [b, c, d];
    assert [b, c, d][1..] == [c, d];
    assert [c, d][1..] == [d];
  }

  /** Whatever characters the paths hold, the command line reads as the
      program's path, `run`, the pipeline file and the stage, then the words
      of the filter; the blank that ends a line without a filter adds
      nothing. When the program's path is absolute, the shell runs that
      program with these words. */
  lemma RunCommandArgs(exe: string, pipeFile: string, stage: Stage, jobs: string, extra: seq<string>)
    requires ReadArgs(jobs) == Some(extra)
    ensures ReadArgs(RunCommand(exe, pipeFile, stage, jobs))
         == Some([exe, "run", pipeFile, StageName(stage)] + extra)
    ensures IsAbsolute(exe) ==>
      CommandWords(RunCommand(exe, pipeFile, stage, jobs)) == Some([exe, "run", pipeFile, StageName(stage)] + extra)
  {
    if IsAbsolute(exe) {
      QuoteAbsolute(exe);
      CommandWordsPlain(RunCommand(exe, pipeFile, stage, jobs));
    }
    RunCommandShape(exe, pipeFile, stage, jobs);
    ReadQuotedWords([exe, "run", pipeFile, StageName(stage)], " " + jobs);
    ReadAfterBlank(jobs);
  }

  /** `run_pipe`: the command and the directory it runs in. The external
      program receives the fixed words and then the job arguments. */
  method RunPipe(c: RunConfig) returns (command: string, cwd: string)
    ensures cwd == c.args.outDir
    ensures ReadArgs(command) == Some([c.args.exe, "run", c.pipeFile, StageName(c.args.stage)]
                                      + JobArgs(c.args.jobsPatterns, c.args.jobsIndices))
    ensures IsAbsolute(c.args.exe) ==>
      CommandWords(command) == Some([c.args.exe, "run", c.pipeFile, StageName(c.args.stage)]
                                    + JobArgs(c.args.jobsPatterns, c.args.jobsIndices))
  {
    var jobs := JobFilter(c.args.jobsPatterns, c.args.jobsIndices);
    command := RunCommand(c.args.exe, c.pipeFile, c.args.stage, jobs);
    RunCommandArgs(c.args.exe, c.pipeFile, c.args.stage, jobs, JobArgs(c.args.jobsPatterns, c.args.jobsIndices));
    cwd := c.args.outDir;
  }

  /** On checked arguments, with `os.path.abspath` yielding paths from the
      root, the shell runs the program at the absolute `exe` with `run`, the
      pipeline file, the stage and the job arguments. */
  lemma CheckedRunCommand(a: RunArgs, files: set<string>, absPath: string -> string, jobs: string)
    requires AbsPathRooted(absPath)
    requires CheckedArgs(a, files, absPath).Ok?
    requires ReadArgs(jobs) == Some(JobArgs(a.jobsPatterns, a.jobsIndices))
    ensures var c := CheckedArgs(a, files, absPath).value;
      CommandWords(RunCommand(c.args.exe, c.pipeFile, c.args.stage, jobs))
        == Some([absPath(a.exe), "run", MatPath(absPath(a.outDir), BaseName(absPath(a.fmri))), StageName(a.stage)]
                + JobArgs(a.jobsPatterns, a.jobsIndices))
  {
    var c := CheckedArgs(a, files, absPath).value;
    assert IsAbsolute(absPath(a.exe));
    RunCommandArgs(c.args.exe, c.pipeFile, c.args.stage, jobs, JobArgs(a.jobsPatterns, a.jobsIndices));
  }

  /** The source's command with indices and no patterns: the bare `;` ends
      the command after the first index, so the external program receives
      that index alone, and the line is not one simple command. */
  lemma IndicesCommandAsWritten(exe: string, pipeFile: string, stage: Stage, indices: seq<int>)
    requires |indices| >= 1
    ensures var cmd := RunCommand(exe, pipeFile, stage, JobsAsWritten([], indices));
      var first := Join(QuoteAll([exe, "run", pipeFile, StageName(stage), IntToString(indices[0])]), " ");
      && |first| < |cmd| && cmd[..|first|] == first && cmd[|first|] == ';'
      && ReadArgs(first) == Some([exe, "run", pipeFile, StageName(stage), IntToString(indices[0])])
      && ReadArgs(cmd) == None
    ensures |indices| >= 2 ==>
      var cmd := RunCommand(exe, pipeFile, stage, JobsAsWritten([], indices));
      var first := Join(QuoteAll([exe, "run", pipeFile, StageName(stage), IntToString(indices[0])]), " ");
      var i1 := IntToString(indices[1]);
      && |first| + |i1| + 1 < |cmd| && cmd[|first| + 1..|first| + |i1| + 2] == i1 + ";"
      && ReadArgs(i1) == Some([i1])
  {
    FirstCommandAsWritten(exe, pipeFile, stage, indices);
    if |indices| >= 2 {
      SecondCommand(exe, pipeFile, stage, indices);
    }
  }

  /** The first command of the line and the whole line. */
  lemma FirstCommandAsWritten(exe: string, pipeFile: string, stage: Stage, indices: seq<int>)
    requires |indices| >= 1
    ensures var cmd := RunCommand(exe, pipeFile, stage, JobsAsWritten([], indices));
      var first := Join(QuoteAll([exe, "run", pipeFile, StageName(stage), IntToString(indices[0])]), " ");
      && |first| < |cmd| && cmd[..|first|] == first && cmd[|first|] == ';'
      && ReadArgs(first) == Some([exe, "run", pipeFile, StageName(stage), IntToString(indices[0])])
      && ReadArgs(cmd) == None
  {
    var i0 := IntToString(indices[0]);
    var text := IndicesText(indices);
    var after := text[|i0| + 1..];
    IndexTextsAvoid(indices);
    IndicesTextStart(indices);
    assert text == i0 + (";" + after);
    IndicesFirstCommand(exe, pipeFile, stage, i0, after);
    IndicesLineUnreadable(exe, pipeFile, stage, i0, after);
  }

  /** The second command of the line: the second index alone, up to the
      next `;`, so the shell runs a program named after that index. */
  lemma SecondCommand(exe: string, pipeFile: string, stage: Stage, indices: seq<int>)
    requires |indices| >= 2
    ensures var cmd := RunCommand(exe, pipeFile, stage, JobsAsWritten([], indices));
      var first := Join(QuoteAll([exe, "run", pipeFile, StageName(stage), IntToString(indices[0])]), " ");
      var i1 := IntToString(indices[1]);
      && |first| + |i1| + 1 < |cmd| && cmd[|first| + 1..|first| + |i1| + 2] == i1 + ";"
      && ReadArgs(i1) == Some([i1])
  {
    var first := Join(QuoteAll([exe, "run", pipeFile, StageName(stage), IntToString(indices[0])]), " ");
    var after := IndicesText(indices[1..]);
    var i1 := IntToString(indices[1]);
    AsWrittenAfterFirst(exe, pipeFile, stage, indices);
    assert indices[1..][0] == indices[1];
    IndicesTextStart(indices[1..]);
    SliceAfterSemicolon(first, after, |i1| + 1);
    IndexWordReads(indices[1]);
  }

  /** The as-written line is the first command, a `;`, and the index text
      of the remaining indices. */
  lemma AsWrittenAfterFirst(exe: string, pipeFile: string, stage: Stage, indices: seq<int>)
    requires |indices| >= 2
    ensures RunCommand(exe, pipeFile, stage, JobsAsWritten([], indices))
         == Join(QuoteAll([exe, "run", pipeFile, StageName(stage), IntToString(indices[0])]), " ")
            + (";" + IndicesText(indices[1..]))
  {
    var i0 := IntToString(indices[0]);
    var text := IndicesText(indices);
    var after := text[|i0| + 1..];
    IndexTextsAvoid(indices);
    IndicesTextStart(indices);
    assert text == i0 + (";" + after);
    RunCommandShape(exe, pipeFile, stage, text);
    FirstCommand(exe, pipeFile, StageName(stage), i0, after);
    assert i0 + (";" + after) == i0 + ";" + after;
    IndicesTextRest(indices);
  }

  lemma SliceAfterSemicolon(first: string, after: string, n: nat)
    requires n <= |after|
    ensures |first| + n < |first + (";" + after)|
    ensures (first + (";" + after))[|first| + 1..|first| + 1 + n] == after[..n]
  {
  }

  /** An index in decimal is one plain word. */
  lemma IndexWordReads(x: int)
    ensures ReadArgs(IntToString(x)) == Some([IntToString(x)])
  {
    var t := IntToString(x);
    IndexTextsAvoid([x]);
    assert IndexTexts([x])[0] == t;
    QuoteRoundTrip(t);
  }

  /** After the first index and its `;`, the index text goes on as the text
      of the remaining indices. */
  lemma IndicesTextRest(indices: seq<int>)
    requires |indices| >= 2
    ensures IndicesText(indices)[|IntToString(indices[0])| + 1..] == IndicesText(indices[1..])
  {
    var texts := IndexTexts(indices);
    JoinCons(texts[0], texts[1..], ";");
    assert texts == [texts[0]] + texts[1..];
    assert IndexTexts(indices[1..]) == texts[1..];
  }

  /** The part of the line before the first `;`. */
  lemma IndicesFirstCommand(exe: string, pipeFile: string, stage: Stage, i0: string, after: string)
    requires AllSafe(i0) && |i0| >= 1
    ensures var cmd := RunCommand(exe, pipeFile, stage, i0 + (";" + after));
      var first := Join(QuoteAll([exe, "run", pipeFile, StageName(stage), i0]), " ");
      && |first| < |cmd| && cmd[..|first|] == first && cmd[|first|] == ';'
      && ReadArgs(first) == Some([exe, "run", pipeFile, StageName(stage), i0])
  {
    var s := StageName(stage);
    var words := [exe, "run", pipeFile, s, i0];
    var cmd := RunCommand(exe, pipeFile, stage, i0 + (";" + after));
    RunCommandShape(exe, pipeFile, stage, i0 + (";" + after));
    FirstCommand(exe, pipeFile, s, i0, after);
    var first := Join(QuoteAll(words), " ");
    assert cmd == first + (";" + after);
    assert cmd[..|first|] == first;
    ReadQuotedWords(words, []);
    assert first + [] == first;
    assert ReadArgs([]) == Some([]);
    assert words + [] == words;
  }

  /** The whole line: the word holding `;` cannot be read. */
  lemma IndicesLineUnreadable(exe: string, pipeFile: string, stage: Stage, i0: string, after: string)
    requires AllSafe(i0) && |i0| >= 1
    ensures ReadArgs(RunCommand(exe, pipeFile, stage, i0 + (";" + after))) == None
  {
    var text := i0 + (";" + after);
    RunCommandShape(exe, pipeFile, stage, text);
    ReadQuotedWords([exe, "run", pipeFile, StageName(stage)], " " + text);
    ReadAfterBlank(text);
    UnreadableAfterSafe(i0, after);
  }

  lemma UnreadableAfterSafe(w: string, after: string)
    requires AllSafe(w) && |w| >= 1
    ensures ReadArgs(w + (";" + after)) == None
  {
    var t := w + (";" + after);
    SemicolonUnreadable(after);
    ReadSafe(w, ";" + after);
    assert ReadWord(t) == None;
    assert t[0] == w[0] && t[0] != ' ';
  }

  lemma SemicolonUnreadable(after: string)
    ensures ReadWord(";" + after) == None
  {
    var t := ";" + after;
    assert t[0] == ';' && !SafeChar(t[0]);
  }

  /** The index text starts with the first index and a `;`. */
  lemma IndicesTextStart(indices: seq<int>)
    requires |indices| >= 1
    ensures var i0 := IntToString(indices[0]);
      |IndicesText(indices)| > |i0| && IndicesText(indices)[..|i0| + 1] == i0 + ";"
  {
    var texts := IndexTexts(indices);
    var i0 := IntToString(indices[0]);
    if |indices| == 1 {
      assert Join(texts, ";") == i0;
    } else {
      JoinCons(texts[0], texts[1..], ";");
      assert texts == [texts[0]] + texts[1..];
    }
  }

  lemma FirstCommand(exe: string, pipeFile: string, s: string, i0: string, after: string)
    requires AllSafe(i0) && |i0| >= 1
    ensures Join(QuoteAll([exe, "run", pipeFile, s]), " ") + (" " + (i0 + ";" + after))
         == Join(QuoteAll([exe, "run", pipeFile, s, i0]), " ") + (";" + after)
  {
    var ws := [exe, "run", pipeFile, s, i0];
    assert QuoteAll(ws) == QuoteAll([exe, "run", pipeFile, s]) + [i0];
    JoinSnoc(QuoteAll([exe, "run", pipeFile, s]), i0, " ");
  }

  lemma JoinSnoc(parts: seq<string>, last: string, sep: string)
    requires |parts| >= 1
    ensures Join(parts + [last], sep) == Join(parts, sep) + sep + last
    decreases |parts|
  {
    JoinCons(parts[0], parts[1..] + [last], sep);
    assert parts + [last] == [parts[0]] + (parts[1..] + [last]);
    if |parts| > 1 {
      JoinSnoc(parts[1..], last, sep);
      JoinCons(parts[0], parts[1..], sep);
      assert parts == [parts[0]] + parts[1..];
    } else {
      assert parts[1..] + [last] == [last];
    }
  }

  // ---------------------------------------------------------------------------
  // Exit status
  // ---------------------------------------------------------------------------

  /** `run(iargs)`: a failed check or a non-zero return code of the external
      program ends the handler with status 1, anything else with 0. */
  function RunStatus(checked: Result<RunConfig, RunError>, returnCode: int): (status: int)
    ensures status == 0 || status == 1
    ensures status == 0 <==> checked.Ok? && returnCode == 0
  {
    if checked.Err? then 1 else ExitStatus(returnCode)
  }
}
