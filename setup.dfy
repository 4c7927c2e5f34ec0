/** The SETUP handler (`for_build/spark/setup.py`): validates the parsed
    arguments, derives the subject, session and run identifiers from the BIDS
    file name, writes the pipeline options text and builds the command that
    has the external program create the pipeline file.

    The environment is passed in: `files` is the set of paths that name
    existing regular files, `absPath` is `os.path.abspath` in the current
    working directory, `isBids` is the BIDS validator's verdict on a path and
    `showReal` is Python's `str` on a float. */
module Setup {
  import opened Wrappers
  import opened Strings
  import opened Paths
  import opened BidsNames
  import opened Shell
  import opened Args

  // ---------------------------------------------------------------------------
  // Parsed arguments
  // ---------------------------------------------------------------------------

  /** `--resampling-method` choices. */
  datatype ResamplingMethod = CBB | AR1B | AR1G

  /** `--dict-init-method` choices. */
  datatype DictInitMethod = GivenMatrix | DataElements

  /** `--sparse-coding-method` choices. */
  datatype SparseCodingMethod = OMP | Thresholding

  function ResamplingName(m: ResamplingMethod): string {
    match m
    case CBB => "CBB"
    case AR1B => "AR1B"
    case AR1G => "AR1G"
  }

  function DictInitName(m: DictInitMethod): string {
    match m
    case GivenMatrix => "GivenMatrix"
    case DataElements => "DataElements"
  }

  function SparseCodingName(m: SparseCodingMethod): string {
    match m
    case OMP => "OMP"
    case Thresholding => "Thresholding"
  }

  /** A `[begin] [step] [end]` vector option (`nargs=3`). */
  datatype Triple = Triple(begin: int, step: int, end: int)

  /** The dictionary `check_iargs_parser` returns, once unwrapped. */
  datatype SetupArgs = SetupArgs(
    exe: string,
    fmri: string,
    outDir: string,
    mask: string,
    nbResamplings: int,
    networkScales: Triple,
    nbIterations: int,
    pValue: Float,
    resamplingMethod: ResamplingMethod,
    blockWindowLength: Triple,
    dictInitMethod: DictInitMethod,
    sparseCodingMethod: SparseCodingMethod,
    preserveDcAtom: bool,
    verbose: bool)

  /** `p_value < 0 or p_value > 1` on a float: true of both infinities and
      false of NaN, so NaN is not rejected. */
  predicate OutsideUnit(p: Float) {
    match p
    case Finite(x) => x < 0.0 || x > 1.0
    case Infinity(_) => true
    case NaN => false
  }

  /** The four required options with every optional one at its default. */
  function WithDefaults(exe: string, fmri: string, outDir: string, mask: string): SetupArgs {
    SetupArgs(exe, fmri, outDir, mask, 100, Triple(10, 2, 30), 20, Finite(0.05), CBB,
              Triple(10, 1, 30), GivenMatrix, Thresholding, false, false)
  }

  /** The keys whose `nargs=1` lists the parser's output has unwrapped. */
  const SingletonKeys: seq<string> := ["exe", "fmri", "out_dir", "mask",
    "nb_resamplings", "nb_iterations", "p_value",
    "resampling_method", "dict_init_method", "sparse_coding_method", "preserve_dc_atom", "verbose"]

  /** The end of `parse_iargs`: the `nargs=1` options become plain values,
      while the three-element vectors stay the lists the parser built. */
  method UnwrapParsed(parsed: map<string, ArgValue>) returns (oargs: map<string, ArgValue>)
    requires forall i :: 0 <= i < |SingletonKeys| ==> SingletonKeys[i] in parsed
    requires forall k :: k in parsed && parsed[k].Many? ==> |parsed[k].items| >= 1
    ensures oargs.Keys == parsed.Keys
    ensures forall i :: 0 <= i < |SingletonKeys| ==> oargs[SingletonKeys[i]] == Unwrapped(parsed[SingletonKeys[i]])
    ensures "network_scales" in parsed ==> oargs["network_scales"] == parsed["network_scales"]
    ensures "block_window_length" in parsed ==> oargs["block_window_length"] == parsed["block_window_length"]
  {
    oargs := UnwrapSingletons(parsed, SingletonKeys);
  }

  // ---------------------------------------------------------------------------
  // Integrity of the arguments
  // ---------------------------------------------------------------------------

  /** Every diagnostic after which setup exits with status 1, in the order
      the handler checks them. */
  datatype SetupError =
    | ExeNotFound
    | FmriNotFound
    | MaskNotFound
    | MaskNotMincOrNifti
    | TooFewResamplings
    | NetworkScaleBelowOne
    | NetworkScalesReversed
    | TooFewIterations
    | PValueOutOfRange
    | BlockWindowBelowOne
    | BlockWindowReversed
    | NotSubjectFile
    | NotBidsFile
    | TooFewTokens

  /** Position of a check in the handler's order. */
  function Rank(e: SetupError): nat {
    match e
    case ExeNotFound => 0
    case FmriNotFound => 1
    case MaskNotFound => 2
    case MaskNotMincOrNifti => 3
    case TooFewResamplings => 4
    case NetworkScaleBelowOne => 5
    case NetworkScalesReversed => 6
    case TooFewIterations => 7
    case PValueOutOfRange => 8
    case BlockWindowBelowOne => 9
    case BlockWindowReversed => 10
    case NotSubjectFile => 11
    case NotBidsFile => 12
    case TooFewTokens => 13
  }

  /** A mask is MINC or NIfTI by its suffix. */
  predicate MaskFormatOk(mask: string) {
    EndsWith(mask, ".mnc") || EndsWith(mask, ".nii")
  }

  predicate TripleBelowOne(t: Triple) {
    t.begin < 1 || t.step < 1 || t.end < 1
  }

  predicate TripleReversed(t: Triple) {
    t.end < t.begin
  }

  /** The condition each integrity check rejects, on its own. */
  predicate Violated(a: SetupArgs, files: set<string>, e: SetupError) {
    match e
    case ExeNotFound => a.exe !in files
    case FmriNotFound => a.fmri !in files
    case MaskNotFound => a.mask !in files
    case MaskNotMincOrNifti => !MaskFormatOk(a.mask)
    case TooFewResamplings => a.nbResamplings < 2
    case NetworkScaleBelowOne => TripleBelowOne(a.networkScales)
    case NetworkScalesReversed => TripleReversed(a.networkScales)
    case TooFewIterations => a.nbIterations < 2
    case PValueOutOfRange => OutsideUnit(a.pValue)
    case BlockWindowBelowOne => TripleBelowOne(a.blockWindowLength)
    case BlockWindowReversed => TripleReversed(a.blockWindowLength)
    case NotSubjectFile => false
    case NotBidsFile => false
    case TooFewTokens => false
  }

  /** `check_iargs_integrity`: the checks run one after the other and the
      first that fails decides the outcome. The arguments pass exactly when
      no check rejects them; otherwise the reported check rejects them and
      every check before it accepts them. */
  function CheckIntegrity(a: SetupArgs, files: set<string>): (r: Outcome<SetupError>)
    ensures r.Pass? <==> forall e :: !Violated(a, files, e)
    ensures r.Fail? ==> Violated(a, files, r.error)
    ensures r.Fail? ==> forall e :: Rank(e) < Rank(r.error) ==> !Violated(a, files, e)
  {
    var r :=
    if a.exe !in files then Fail(ExeNotFound)
    else if a.fmri !in files then Fail(FmriNotFound)
    else if a.mask !in files then Fail(MaskNotFound)
    else if !MaskFormatOk(a.mask) then Fail(MaskNotMincOrNifti)
    else if a.nbResamplings < 2 then Fail(TooFewResamplings)
    else if TripleBelowOne(a.networkScales) then Fail(NetworkScaleBelowOne)
    else if TripleReversed(a.networkScales) then Fail(NetworkScalesReversed)
    else if a.nbIterations < 2 then Fail(TooFewIterations)
    else if OutsideUnit(a.pValue) then Fail(PValueOutOfRange)
    else if TripleBelowOne(a.blockWindowLength) then Fail(BlockWindowBelowOne)
    else if TripleReversed(a.blockWindowLength) then Fail(BlockWindowReversed)
    else Pass;
    assert r.Fail? ==> Violated(a, files, r.error);
    r
  }

  /** A vector passes when all three numbers are at least 1 and it does not
      run backwards; a single value `n 1 n` is a valid vector. */
  lemma TripleAccepted(a: SetupArgs, files: set<string>)
    requires CheckIntegrity(a, files).Pass?
    ensures a.networkScales.begin >= 1 && a.networkScales.step >= 1 && a.networkScales.end >= a.networkScales.begin
    ensures a.blockWindowLength.begin >= 1 && a.blockWindowLength.step >= 1 && a.blockWindowLength.end >= a.blockWindowLength.begin
    ensures a.pValue.NaN? || (a.pValue.Finite? && 0.0 <= a.pValue.value <= 1.0)
    ensures a.nbResamplings >= 2 && a.nbIterations >= 2
    ensures MaskFormatOk(a.mask) && a.exe in files && a.fmri in files && a.mask in files
  {
    assert !Violated(a, files, NetworkScaleBelowOne) && !Violated(a, files, NetworkScalesReversed);
    assert !Violated(a, files, BlockWindowBelowOne) && !Violated(a, files, BlockWindowReversed);
    assert !Violated(a, files, PValueOutOfRange) && !Violated(a, files, TooFewResamplings);
    assert !Violated(a, files, TooFewIterations) && !Violated(a, files, MaskNotMincOrNifti);
    assert !Violated(a, files, ExeNotFound) && !Violated(a, files, FmriNotFound);
    assert !Violated(a, files, MaskNotFound);
  }

  /** The defaults pass every range check: with existing files and a NIfTI
      or MINC mask, the default options are accepted. */
  lemma DefaultsPass(exe: string, fmri: string, outDir: string, mask: string, files: set<string>)
    requires exe in files && fmri in files && mask in files && MaskFormatOk(mask)
    ensures CheckIntegrity(WithDefaults(exe, fmri, outDir, mask), files) == Pass
  {
  }

  /** The boundary values of the range checks. */
  lemma IntegrityBoundaries(a: SetupArgs, files: set<string>)
    requires a.exe in files && a.fmri in files && a.mask in files
    requires a == WithDefaults(a.exe, a.fmri, a.outDir, a.mask)
    ensures CheckIntegrity(a.(mask := "/data/mask.txt"), files) == Fail(MaskNotMincOrNifti) || "/data/mask.txt" !in files
    ensures MaskFormatOk(a.mask) ==> CheckIntegrity(a.(nbResamplings := 1), files) == Fail(TooFewResamplings)
    ensures MaskFormatOk(a.mask) ==> CheckIntegrity(a.(nbResamplings := 2), files) == Pass
    ensures MaskFormatOk(a.mask) ==> CheckIntegrity(a.(nbIterations := 2), files) == Pass
    ensures MaskFormatOk(a.mask) ==> CheckIntegrity(a.(networkScales := Triple(12, 1, 12)), files) == Pass
    ensures MaskFormatOk(a.mask) ==> CheckIntegrity(a.(networkScales := Triple(30, 2, 10)), files) == Fail(NetworkScalesReversed)
    ensures MaskFormatOk(a.mask) ==> CheckIntegrity(a.(networkScales := Triple(0, 2, 30)), files) == Fail(NetworkScaleBelowOne)
    ensures MaskFormatOk(a.mask) ==> CheckIntegrity(a.(pValue := Finite(1.0)), files) == Pass
    ensures MaskFormatOk(a.mask) ==> CheckIntegrity(a.(pValue := Finite(1.5)), files) == Fail(PValueOutOfRange)
    ensures MaskFormatOk(a.mask) ==> CheckIntegrity(a.(pValue := Finite(-0.5)), files) == Fail(PValueOutOfRange)
    ensures MaskFormatOk(a.mask) ==> CheckIntegrity(a.(pValue := Infinity(false)), files) == Fail(PValueOutOfRange)
    ensures MaskFormatOk(a.mask) ==> CheckIntegrity(a.(pValue := NaN), files) == Pass
  {
  }

  // ---------------------------------------------------------------------------
  // Identifiers from the BIDS file name
  // ---------------------------------------------------------------------------

  /** `[base, sub_id, ses_id, run_id, fmri]` as `setup_fmri` returns it. */
  datatype FmriIds = FmriIds(base: string, sub: string, ses: string, run: string, path: string)

  /** The `_`-separated tokens of the file name. */
  function Tokens(fmri: string): (r: seq<string>)
    ensures |r| >= 1
  {
    Split(Basename(fmri), '_')
  }

  /** The path handed to the BIDS validator: `/<first token>/func/<file name>`. */
  function BidsProbe(filename: string, first: string): string {
    JoinPath([[Sep] + first, "func", filename])
  }

  /** The identifier read from a `<tag>-...` token, or the placeholder
      `<tag>_cspark_1` when the token does not carry the tag. */
  function TaggedId(tag: string, token: string): (id: string)
    requires |tag| >= 1 && AllWordChars(tag)
    ensures StartsWith(id, tag + "_") && AllWordChars(id)
  {
    if StartsWith(token, tag + "-") then
      NormalizeTag(tag, token);
      Normalize(token)
    else
      tag + "_cspark_1"
  }

  /** The properties `setup_fmri` gives its identifiers: each holds only word
      characters (so no space and no separator) and starts with its tag. */
  predicate IdsWellFormed(ids: FmriIds) {
    && StartsWith(ids.sub, "sub_") && AllWordChars(ids.sub)
    && StartsWith(ids.ses, "ses_") && AllWordChars(ids.ses)
    && StartsWith(ids.run, "run_") && AllWordChars(ids.run)
  }

  /** `setup_fmri`: the first token must carry `sub-`, the validator must
      accept the probe path, and the identifiers come from the first, second
      and next-to-last tokens. A file name with a single token, which the
      validator would have to accept, makes the source index past the end of
      the token list; that case is the error `TooFewTokens`. */
  function SetupFmri(fmri: string, isBids: string -> bool): (r: Result<FmriIds, SetupError>)
    ensures r.Err? ==> r.error == NotSubjectFile || r.error == NotBidsFile || r.error == TooFewTokens
    ensures r.Ok? ==> IdsWellFormed(r.value)
  {
    var tokens := Tokens(fmri);
    if !StartsWith(tokens[0], "sub-") then Err(NotSubjectFile)
    else if !isBids(BidsProbe(Basename(fmri), tokens[0])) then Err(NotBidsFile)
    else if |tokens| < 2 then Err(TooFewTokens)
    else Ok(SubjectIds(fmri, tokens))
  }

  /** The identifiers of an accepted file name. */
  function SubjectIds(fmri: string, tokens: seq<string>): (ids: FmriIds)
    requires |tokens| >= 2 && StartsWith(tokens[0], "sub-")
    ensures IdsWellFormed(ids)
  {
    NormalizeTag("sub", tokens[0]);
    FmriIds(BaseName(fmri), Normalize(tokens[0]),
            TaggedId("ses", tokens[1]), TaggedId("run", tokens[|tokens| - 2]), fmri)
  }

  /** Which check rejects a file name, and what an accepted one yields: the
      base name of the shared rule and the path itself. */
  lemma SetupFmriOutcome(fmri: string, isBids: string -> bool)
    ensures var r := SetupFmri(fmri, isBids); var t := Tokens(fmri);
      && (r == Err(NotSubjectFile) <==> !StartsWith(t[0], "sub-"))
      && (r == Err(NotBidsFile) <==> StartsWith(t[0], "sub-") && !isBids(BidsProbe(Basename(fmri), t[0])))
      && (r.Ok? <==> StartsWith(t[0], "sub-") && isBids(BidsProbe(Basename(fmri), t[0])) && |t| >= 2)
      && (r.Ok? ==> r.value.path == fmri && r.value.base == BaseName(fmri))
  {
  }

  /** Which token each identifier comes from: the subject is the normalised
      first token; the session is the normalised second token when it
      carries `ses-` and the placeholder otherwise; the run is the normalised
      next-to-last token when it carries `run-` and the placeholder
      otherwise. */
  lemma SetupFmriTokens(fmri: string, isBids: string -> bool)
    requires SetupFmri(fmri, isBids).Ok?
    ensures var ids := SetupFmri(fmri, isBids).value; var t := Tokens(fmri);
      && ids.sub == Normalize(t[0])
      && (StartsWith(t[1], "ses-") ==> ids.ses == Normalize(t[1]))
      && (!StartsWith(t[1], "ses-") ==> ids.ses == "ses_cspark_1")
      && (StartsWith(t[|t| - 2], "run-") ==> ids.run == Normalize(t[|t| - 2]))
      && (!StartsWith(t[|t| - 2], "run-") ==> ids.run == "run_cspark_1")
  {
    var t := Tokens(fmri);
    assert SetupFmri(fmri, isBids).value == SubjectIds(fmri, t);
  }

  // ---------------------------------------------------------------------------
  // check_iargs: absolute paths, integrity, identifiers
  // ---------------------------------------------------------------------------

  /** What setup keeps after its checks: the arguments, with `fmri` replaced
      by the identifiers derived from it. */
  datatype SetupConfig = SetupConfig(args: SetupArgs, ids: FmriIds)

  /** `setup_abspath`: the four paths made absolute. */
  function MadeAbsolute(a: SetupArgs, absPath: string -> string): SetupArgs {
    a.(fmri := absPath(a.fmri), outDir := absPath(a.outDir), mask := absPath(a.mask), exe := absPath(a.exe))
  }

  /** `check_iargs`: paths are made absolute first, so the integrity checks
      and the identifiers see absolute paths; the integrity checks run before
      the file name is examined, so a failing integrity check is always the
      error reported, and on success every check has passed. */
  function CheckedArgs(a: SetupArgs, files: set<string>, absPath: string -> string, isBids: string -> bool)
    : (r: Result<SetupConfig, SetupError>)
    ensures var b := MadeAbsolute(a, absPath);
      CheckIntegrity(b, files).Fail? ==> r == Err(CheckIntegrity(b, files).error)
    ensures r.Err? ==> forall e :: Rank(e) < Rank(r.error) ==> !Violated(MadeAbsolute(a, absPath), files, e)
    ensures r.Ok? ==> r.value.args == MadeAbsolute(a, absPath)
    ensures r.Ok? ==> CheckIntegrity(r.value.args, files) == Pass
    ensures r.Ok? ==> SetupFmri(r.value.args.fmri, isBids) == Ok(r.value.ids) && IdsWellFormed(r.value.ids)
  {
    var b := MadeAbsolute(a, absPath);
    match CheckIntegrity(b, files)
    case Fail(e) => Err(e)
    case Pass =>
      match SetupFmri(b.fmri, isBids)
      case Err(e) => Err(e)
      case Ok(ids) => Ok(SetupConfig(b, ids))
  }

  /** `check_iargs` as the handler runs it: the dictionary entries are
      overwritten one after the other, then checked. */
  method CheckArgs(a: SetupArgs, files: set<string>, absPath: string -> string, isBids: string -> bool)
    returns (r: Result<SetupConfig, SetupError>)
    ensures r == CheckedArgs(a, files, absPath, isBids)
  {
    var oargs := a;
    oargs := oargs.(fmri := absPath(oargs.fmri));
    oargs := oargs.(outDir := absPath(oargs.outDir));
    oargs := oargs.(mask := absPath(oargs.mask));
    oargs := oargs.(exe := absPath(oargs.exe));
    var integrity := CheckIntegrity(oargs, files);
    if integrity.Fail? {
      return Err(integrity.error);
    }
    var ids := SetupFmri(oargs.fmri, isBids);
    if ids.Err? {
      return Err(ids.error);
    }
    r := Ok(SetupConfig(oargs, ids.value));
  }

  // ---------------------------------------------------------------------------
  // The pipeline options text
  // ---------------------------------------------------------------------------

  /** The keys of the options file, in the order setup writes them. */
  const OptionKeys: seq<string> := ["pipe_file", "fmri_data", "out_dir", "mask",
    "nb_resamplings", "network_scales", "nb_iterations", "p_value", "resampling_method",
    "block_window_length", "dict_init_method", "sparse_coding_method", "preserve_dc_atom", "verbose"]

  /** `' '.join([str(x) for x in vector])` */
  function TripleText(t: Triple): string {
    Join([IntToString(t.begin), IntToString(t.step), IntToString(t.end)], " ")
  }

  /** `str(int(flag))` */
  function FlagText(b: bool): (r: string)
    ensures r == "0" || r == "1"
    ensures r == "1" <==> b
  {
    if b then "1" else "0"
  }

  /** `pipe_opt`, built one directory at a time as setup builds it. */
  function OptionsPath(outDir: string, base: string): (p: string)
    ensures p == OptPath(outDir, base)
  {
    NestedLayout(outDir, base);
    JoinPath([PipesDir(outDir, base), base + ".opt"])
  }

  /** `pipe_opt[:-4] + '.mat'` */
  function PipeFileValue(outDir: string, base: string): string {
    var opt := OptionsPath(outDir, base);
    MatFromOpt(outDir, base);
    opt[..|opt| - 4] + ".mat"
  }

  /** `' '.join(fmri[1:])`: the three identifiers and the path. */
  function FmriDataValue(ids: FmriIds): string {
    Join([ids.sub, ids.ses, ids.run, ids.path], " ")
  }

  /** The fourteen `(key, value)` pairs of the options file. */
  function OptionEntries(c: SetupConfig, showReal: Float -> string): (r: seq<(string, string)>)
    ensures |r| == |OptionKeys|
    ensures forall i :: 0 <= i < |r| ==> r[i].0 == OptionKeys[i]
  {
    var a := c.args;
    [("pipe_file", PipeFileValue(a.outDir, c.ids.base)),
     ("fmri_data", FmriDataValue(c.ids)),
     ("out_dir", WorkDir(a.outDir, c.ids.base)),
     ("mask", a.mask),
     ("nb_resamplings", IntToString(a.nbResamplings)),
     ("network_scales", TripleText(a.networkScales)),
     ("nb_iterations", IntToString(a.nbIterations)),
     ("p_value", showReal(a.pValue)),
     ("resampling_method", ResamplingName(a.resamplingMethod)),
     ("block_window_length", TripleText(a.blockWindowLength)),
     ("dict_init_method", DictInitName(a.dictInitMethod)),
     ("sparse_coding_method", SparseCodingName(a.sparseCodingMethod)),
     ("preserve_dc_atom", FlagText(a.preserveDcAtom)),
     ("verbose", FlagText(a.verbose))]
  }

  /** One `key value` line. */
  function EntryLine(key: string, value: string): string {
    key + " " + value + "\n"
  }

  function EntryLines(entries: seq<(string, string)>): (r: seq<string>)
    ensures |r| == |entries|
  {
    seq(|entries|, i requires 0 <= i < |entries| => EntryLine(entries[i].0, entries[i].1))
  }

  /** The text setup writes to the options file. */
  function OptionsText(entries: seq<(string, string)>): string {
    Concat(EntryLines(entries))
  }

  /** A `key value` line read back: the key is what precedes the first space
      and the value the rest of the line without its `\n`. */
  function ParseLine(line: string): (string, string) {
    var body := if |line| >= 1 && line[|line| - 1] == '\n' then line[..|line| - 1] else line;
    var i := IndexOf(body, ' ');
    if i == |body| then (body, "") else (body[..i], body[i + 1..])
  }

  /** The `(key, value)` pairs of an options text, one per line. */
  function ParseOptions(text: string): (r: seq<(string, string)>)
    ensures |r| == |LinesOf(text)|
  {
    var lines := LinesOf(text);
    seq(|lines|, i requires 0 <= i < |lines| => ParseLine(lines[i]))
  }

  /** A key: no space and no newline. */
  predicate KeyShaped(key: string) {
    forall i :: 0 <= i < |key| ==> key[i] != ' ' && key[i] != '\n'
  }

  /** Keys without spaces or newlines and values without newlines. */
  predicate OneLineEntries(entries: seq<(string, string)>) {
    forall i :: 0 <= i < |entries| ==> KeyShaped(entries[i].0) && '\n' !in entries[i].1
  }

  lemma EntryLineIsLine(key: string, value: string)
    requires KeyShaped(key) && '\n' !in value
    ensures IsLine(EntryLine(key, value))
  {
    var line := EntryLine(key, value);
    assert line[..|line| - 1] == key + " " + value;
  }

  lemma ParseEntryLine(key: string, value: string)
    requires KeyShaped(key)
    ensures ParseLine(EntryLine(key, value)) == (key, value)
  {
    var line := EntryLine(key, value);
    var body := key + " " + value;
    assert line[..|line| - 1] == body;
    assert body[..|key|] == key;
    IndexOfIs(body, ' ', |key|);
    assert body[|key| + 1..] == value;
  }

  /** Each entry is written as one line, and the lines read back give the
      entries: the options text is a faithful serialisation. */
  lemma OptionsTextRoundTrip(entries: seq<(string, string)>)
    requires OneLineEntries(entries)
    ensures LinesOf(OptionsText(entries)) == EntryLines(entries)
    ensures ParseOptions(OptionsText(entries)) == entries
  {
    var lines := EntryLines(entries);
    forall i | 0 <= i < |lines|
      ensures IsLine(lines[i])
    {
      EntryLineIsLine(entries[i].0, entries[i].1);
    }
    LinesOfConcat(lines);
    forall i | 0 <= i < |entries|
      ensures ParseLine(lines[i]) == entries[i]
    {
      ParseEntryLine(entries[i].0, entries[i].1);
    }
  }

  /** Word characters include neither space nor newline. */
  lemma WordCharsOneLine(s: string)
    requires AllWordChars(s)
    ensures ' ' !in s && '\n' !in s
  {
  }

  lemma IntToStringOneLine(i: int)
    ensures '\n' !in IntToString(i) && ' ' !in IntToString(i)
  {
  }

  lemma TripleTextOneLine(t: Triple)
    ensures '\n' !in TripleText(t)
  {
    IntToStringOneLine(t.begin);
    IntToStringOneLine(t.step);
    IntToStringOneLine(t.end);
    JoinAvoids([IntToString(t.begin), IntToString(t.step), IntToString(t.end)], " ", '\n');
  }

  /** The values setup takes from the command line without a newline. */
  predicate PathsOnOneLine(c: SetupConfig, showReal: Float -> string) {
    && '\n' !in c.args.outDir && '\n' !in c.args.mask && '\n' !in c.ids.path
    && '\n' !in c.ids.base && '\n' !in showReal(c.args.pValue)
  }

  lemma PathValuesOneLine(outDir: string, base: string)
    requires '\n' !in outDir && '\n' !in base
    ensures '\n' !in PipeFileValue(outDir, base)
    ensures '\n' !in WorkDir(outDir, base)
  {
    JoinPath2(outDir, base);
    assert PipeFileValue(outDir, base) == MatPath(outDir, base);
  }

  lemma FmriDataOneLine(ids: FmriIds)
    requires IdsWellFormed(ids) && '\n' !in ids.path
    ensures '\n' !in FmriDataValue(ids)
  {
    WordCharsOneLine(ids.sub);
    WordCharsOneLine(ids.ses);
    WordCharsOneLine(ids.run);
    JoinAvoids([ids.sub, ids.ses, ids.run, ids.path], " ", '\n');
  }

  lemma KeysShapedFirst()
    ensures KeyShaped("pipe_file") && KeyShaped("fmri_data") && KeyShaped("out_dir") && KeyShaped("mask") && KeyShaped("nb_resamplings") && KeyShaped("network_scales") && KeyShaped("nb_iterations")
  {
  }

  lemma KeysShapedLast()
    ensures KeyShaped("p_value") && KeyShaped("resampling_method") && KeyShaped("block_window_length") && KeyShaped("dict_init_method") && KeyShaped("sparse_coding_method") && KeyShaped("preserve_dc_atom") && KeyShaped("verbose")
  {
  }

  lemma KeysShaped()
    ensures forall i :: 0 <= i < |OptionKeys| ==> KeyShaped(OptionKeys[i])
  {
    KeysShapedFirst();
    KeysShapedLast();
  }

  lemma ValuesOneLineFirst(c: SetupConfig, showReal: Float -> string)
    requires IdsWellFormed(c.ids) && PathsOnOneLine(c, showReal)
    ensures var e := OptionEntries(c, showReal);
      forall i :: 0 <= i < 7 ==> '\n' !in e[i].1
  {
    PathValuesOneLine(c.args.outDir, c.ids.base);
    FmriDataOneLine(c.ids);
    IntToStringOneLine(c.args.nbResamplings);
    IntToStringOneLine(c.args.nbIterations);
    TripleTextOneLine(c.args.networkScales);
  }

  lemma ValuesOneLineLast(c: SetupConfig, showReal: Float -> string)
    requires PathsOnOneLine(c, showReal)
    ensures var e := OptionEntries(c, showReal);
      forall i :: 7 <= i < 14 ==> '\n' !in e[i].1
  {
    TripleTextOneLine(c.args.blockWindowLength);
    NamesOneLine(c.args);
  }

  lemma NamesOneLine(a: SetupArgs)
    ensures '\n' !in ResamplingName(a.resamplingMethod)
    ensures '\n' !in DictInitName(a.dictInitMethod)
    ensures '\n' !in SparseCodingName(a.sparseCodingMethod)
    ensures '\n' !in FlagText(a.preserveDcAtom) && '\n' !in FlagText(a.verbose)
  {
  }

  lemma EntriesOneLine(c: SetupConfig, showReal: Float -> string)
    requires IdsWellFormed(c.ids) && PathsOnOneLine(c, showReal)
    ensures OneLineEntries(OptionEntries(c, showReal))
  {
    KeysShaped();
    ValuesOneLineFirst(c, showReal);
    ValuesOneLineLast(c, showReal);
  }

  /** Every entry line is a line that starts with its key and a space. */
  lemma EntryLinesShape(entries: seq<(string, string)>)
    requires OneLineEntries(entries)
    ensures forall i :: 0 <= i < |entries| ==>
      IsLine(EntryLines(entries)[i]) && StartsWith(EntryLines(entries)[i], entries[i].0 + " ")
  {
    forall i | 0 <= i < |entries|
      ensures IsLine(EntryLines(entries)[i]) && StartsWith(EntryLines(entries)[i], entries[i].0 + " ")
    {
      EntryLineIsLine(entries[i].0, entries[i].1);
    }
  }

  /** The options file setup writes has exactly fourteen newline-terminated
      lines, in the fixed key order, and reads back as the entries. */
  lemma OptionsFileLines(c: SetupConfig, showReal: Float -> string)
    requires IdsWellFormed(c.ids) && PathsOnOneLine(c, showReal)
    ensures var lines := LinesOf(OptionsText(OptionEntries(c, showReal)));
      && |lines| == 14
      && forall i :: 0 <= i < 14 ==> IsLine(lines[i]) && StartsWith(lines[i], OptionKeys[i] + " ")
    ensures ParseOptions(OptionsText(OptionEntries(c, showReal))) == OptionEntries(c, showReal)
  {
    var e := OptionEntries(c, showReal);
    EntriesOneLine(c, showReal);
    OptionsTextRoundTrip(e);
    EntryLinesShape(e);
  }

  /** `pipe_file` names the `.mat` file the run handler later executes. */
  lemma PipeFileIsMat(c: SetupConfig, showReal: Float -> string)
    ensures OptionEntries(c, showReal)[0] == ("pipe_file", MatPath(c.args.outDir, c.ids.base))
  {
  }

  /** Vectors are written as three space-separated decimal integers: the
      words of the value read back as the three numbers. */
  lemma TripleTextRoundTrip(t: Triple)
    requires t.begin >= 0 && t.step >= 0 && t.end >= 0
    ensures Split(TripleText(t), ' ') == [NatToString(t.begin), NatToString(t.step), NatToString(t.end)]
    ensures var w := Split(TripleText(t), ' ');
      ParseNat(w[0]) == t.begin && ParseNat(w[1]) == t.step && ParseNat(w[2]) == t.end
  {
    var parts := [IntToString(t.begin), IntToString(t.step), IntToString(t.end)];
    IntToStringOneLine(t.begin);
    IntToStringOneLine(t.step);
    IntToStringOneLine(t.end);
    SplitJoin(parts, ' ');
    ParseNatToString(t.begin);
    ParseNatToString(t.step);
    ParseNatToString(t.end);
  }

  /** Flags are written as `0` or `1`. */
  lemma FlagsAsDigits(c: SetupConfig, showReal: Float -> string)
    ensures var e := OptionEntries(c, showReal);
      && (e[12].1 == "1" <==> c.args.preserveDcAtom) && (e[12].1 == "0" <==> !c.args.preserveDcAtom)
      && (e[13].1 == "1" <==> c.args.verbose) && (e[13].1 == "0" <==> !c.args.verbose)
  {
  }

  // ---------------------------------------------------------------------------
  // The pipeline files and the external program
  // ---------------------------------------------------------------------------

  /** What `setup_pipes` creates and runs: the analysis directory and its
      `pipelines` sub-directory, the options file and its text, and the
      command the shell runs in the `pipelines` directory. */
  datatype SetupPlan = SetupPlan(workDir: string, pipesDir: string, optPath: string,
                                 options: string, command: string)

  /** `'{} setup {}'.format(quote(exe), quote(pipe_opt))` */
  function SetupCommand(exe: string, optPath: string): string {
    Quote(exe) + " setup " + Quote(optPath)
  }

  /** Whatever characters the two paths hold, the command line reads as
      exactly three words: the program's path, `setup` and the options file;
      and when the program's path is absolute, the shell runs that program
      with them. */
  lemma SetupCommandArgs(exe: string, optPath: string)
    ensures ReadArgs(SetupCommand(exe, optPath)) == Some([exe, "setup", optPath])
    ensures IsAbsolute(exe) ==> CommandWords(SetupCommand(exe, optPath)) == Some([exe, "setup", optPath])
  {
    if IsAbsolute(exe) {
      QuoteAbsolute(exe);
      CommandWordsPlain(SetupCommand(exe, optPath));
    }
    var words := [exe, "setup", optPath];
    assert AllSafe("setup");
    assert QuoteAll(words) == [Quote(exe), "setup", Quote(optPath)];
    JoinThree(Quote(exe), "setup", Quote(optPath));
    assert Quote(exe) + " " + "setup" + " " + Quote(optPath) == SetupCommand(exe, optPath);
    ReadQuotedWords(words, []);
    assert SetupCommand(exe, optPath) + [] == SetupCommand(exe, optPath);
    assert ReadArgs([]) == Some([]);
    assert words + [] == words;
  }

  lemma JoinThree(a: string, b: string, c: string)
    ensures Join([a, b, c], " ") == a + " " + b + " " + c
  {
    JoinCons(a, [b, c], " ");
    JoinCons(b, [c], " ");
    assert [a, b, c][1..] == [b, c];
    assert [b, c][1..] == [c];
  }

  /** `setup_pipes` on checked arguments: the directories nest under the
      output directory, the options file is the one the wrap-up handler
      reads, its text holds the fourteen entries, and the external program
      receives that file. */
  function PlanPipes(c: SetupConfig, showReal: Float -> string): (p: SetupPlan)
    ensures p.workDir == c.args.outDir + "/" + c.ids.base
    ensures p.pipesDir == p.workDir + "/" + PipelinesDirName
    ensures p.optPath == OptPath(c.args.outDir, c.ids.base)
    ensures p.options == OptionsText(OptionEntries(c, showReal))
    ensures ReadArgs(p.command) == Some([c.args.exe, "setup", p.optPath])
    ensures IsAbsolute(c.args.exe) ==> CommandWords(p.command) == Some([c.args.exe, "setup", p.optPath])
  {
    var work := JoinPath([c.args.outDir, c.ids.base]);
    var pipes := JoinPath([work, PipelinesDirName]);
    var opt := JoinPath([pipes, c.ids.base + ".opt"]);
    JoinPath2(c.args.outDir, c.ids.base);
    JoinPath2(work, PipelinesDirName);
    NestedLayout(c.args.outDir, c.ids.base);
    SetupCommandArgs(c.args.exe, opt);
    var options := OptionsText(OptionEntries(c, showReal));
    SetupPlan(work, pipes, opt, options, SetupCommand(c.args.exe, opt))
  }

  /** On checked arguments, with `os.path.abspath` yielding paths from the
      root, the shell runs the program at the absolute `exe` with `setup`
      and the options file under the absolute output directory. */
  lemma CheckedSetupCommand(a: SetupArgs, files: set<string>, absPath: string -> string,
                            isBids: string -> bool, showReal: Float -> string)
    requires AbsPathRooted(absPath)
    requires CheckedArgs(a, files, absPath, isBids).Ok?
    ensures var c := CheckedArgs(a, files, absPath, isBids).value;
      CommandWords(PlanPipes(c, showReal).command)
        == Some([absPath(a.exe), "setup", OptPath(absPath(a.outDir), c.ids.base)])
  {
    assert IsAbsolute(absPath(a.exe));
  }

  /** What the environment reports while setup runs: whether each directory
      exists afterwards (created, or already there), whether the options file
      exists once written, and the external program's return code. */
  datatype SetupEffects = SetupEffects(workDirReady: bool, pipesDirReady: bool,
                                       optWritten: bool, returnCode: int)

  /** `setup(iargs)`: the exit status of the handler. Any failed check, a
      directory that could not be created, an options file missing after the
      write, or a non-zero return code ends it with status 1; otherwise it
      ends with status 0. */
  function SetupStatus(checked: Result<SetupConfig, SetupError>, fx: SetupEffects): (status: int)
    ensures status == 0 || status == 1
    ensures status == 0 <==> checked.Ok? && fx.workDirReady && fx.pipesDirReady && fx.optWritten && fx.returnCode == 0
  {
    if checked.Err? then 1
    else if !fx.workDirReady || !fx.pipesDirReady || !fx.optWritten then 1
    else ExitStatus(fx.returnCode)
  }

  /** The external program is started only for arguments that pass every
      check, and then with the options file of the checked arguments. */
  predicate RunsProgram(checked: Result<SetupConfig, SetupError>, fx: SetupEffects) {
    checked.Ok? && fx.workDirReady && fx.pipesDirReady && fx.optWritten
  }

  lemma ProgramOnlyOnValidArgs(a: SetupArgs, files: set<string>, absPath: string -> string,
                               isBids: string -> bool, fx: SetupEffects)
    requires RunsProgram(CheckedArgs(a, files, absPath, isBids), fx)
    ensures var c := CheckedArgs(a, files, absPath, isBids).value;
      && CheckIntegrity(MadeAbsolute(a, absPath), files) == Pass
      && SetupFmri(absPath(a.fmri), isBids) == Ok(c.ids)
      && (SetupStatus(CheckedArgs(a, files, absPath, isBids), fx) == 0 <==> fx.returnCode == 0)
  {
  }
}
