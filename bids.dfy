/** The one naming rule that all three handlers share: the base name derived
    from a BIDS fMRI file name, and the layout of the pipeline files under
    the output directory.

    `setup_fmri` (setup.py), `get_bids_fmri_filename` (run.py and wrapup.py)
    each cut the base name out of the file name with the same slice; the
    handlers then place the pipeline files at
    `<out_dir>/<base>/pipelines/<base>.{opt,mat}`. The rule is stated once
    here and each handler uses it. */
module BidsNames {
  import opened Strings
  import opened Paths

  /** The last `_`-separated token of a file name (`filename.split('_')[-1]`). */
  function LastToken(filename: string): (t: string)
    ensures EndsWith(filename, t)
    ensures '_' !in t
  {
    var tokens := Split(filename, '_');
    JoinSplit(filename, '_');
    SplitPieces(filename, '_');
    JoinEndsWithLast(tokens, "_");
    tokens[|tokens| - 1]
  }

  lemma {:induction false} JoinEndsWithLast(parts: seq<string>, sep: string)
    requires |parts| >= 1
    ensures EndsWith(Join(parts, sep), parts[|parts| - 1])
  {
    if |parts| > 1 {
      JoinEndsWithLast(parts[1..], sep);
      var j := Join(parts[1..], sep);
      var whole := parts[0] + sep + j;
      assert whole[|whole| - |j|..] == j;
      assert whole[|whole| - |parts[|parts| - 1]|..] == j[|j| - |parts[|parts| - 1]|..];
    }
  }

  /** Length of the part of the last token that the base name drops: the
      token minus its first four characters (`len(tokens[-1][4:])`). */
  function ExtensionLength(filename: string): nat {
    var t := LastToken(filename);
    if |t| <= 4 then 0 else |t| - 4
  }

  /** `filename[:-len(tokens[-1][4:])]`: the file name without what follows
      the first four characters of its last token. Python's `s[:-0]` is the
      empty string, so a last token of at most four characters gives "". */
  function BaseOfFilename(filename: string): string {
    var n := ExtensionLength(filename);
    if n == 0 then "" else filename[..|filename| - n]
  }

  /** `get_bids_fmri_filename(fmri)`: the base name of an fMRI path. */
  function BaseName(fmri: string): string {
    BaseOfFilename(Basename(fmri))
  }

  /** The base name is what is left once the last token's tail is cut off:
      appending that tail gives back the file name, and a short last token
      gives the empty name. The base name never holds a separator. */
  lemma BaseNameSpec(fmri: string)
    ensures var f := Basename(fmri); var t := LastToken(f);
      && (|t| <= 4 ==> BaseName(fmri) == "")
      && (|t| > 4 ==> BaseName(fmri) + t[4..] == f && EndsWith(BaseName(fmri), t[..4]))
    ensures Sep !in BaseName(fmri)
  {
    var f := Basename(fmri);
    var t := LastToken(f);
    if |t| > 4 {
      CutTail(f, t);
      PrefixAvoids(f, |f| - (|t| - 4), Sep);
    }
  }

  /** Cutting all but the first four characters of a suffix off a text. */
  lemma CutTail(f: string, t: string)
    requires EndsWith(f, t) && |t| > 4
    ensures var b := f[..|f| - (|t| - 4)]; b + t[4..] == f && EndsWith(b, t[..4])
  {
    var b := f[..|f| - (|t| - 4)];
    assert f[|f| - (|t| - 4)..] == t[4..];
    assert b[|b| - 4..] == t[..4];
  }

  lemma PrefixAvoids(f: string, n: nat, c: char)
    requires n <= |f| && c !in f
    ensures c !in f[..n]
  {
    assert forall k :: 0 <= k < n ==> f[..n][k] == f[k];
  }

  /** The last token of a name is what follows its last `_`. */
  lemma LastTokenAfter(stem: string, tail: string)
    requires '_' !in tail
    ensures LastToken(stem + "_" + tail) == tail
  {
    assert stem + "_" + tail == stem + ['_'] + tail;
    SplitAround(stem, tail, '_');
    SplitNoSeparator(tail, '_');
  }

  /** The handlers' running example, `sub-01_task-rest_bold.nii.gz`, in
      general form: a `_bold.nii.gz` file keeps its name up to `_bold`. */
  lemma BaseNameOfBold(dir: string, stem: string)
    requires Sep !in stem
    ensures BaseName(dir + "/" + stem + "_bold.nii.gz") == stem + "_bold"
  {
    BoldBasename(dir, stem);
    BoldBase(stem);
  }

  lemma BoldBasename(dir: string, stem: string)
    requires Sep !in stem
    ensures Basename(dir + "/" + stem + "_bold.nii.gz") == stem + "_bold.nii.gz"
  {
    var f := stem + "_bold.nii.gz";
    assert dir + "/" + stem + "_bold.nii.gz" == dir + [Sep] + f;
    assert Sep !in f;
    BasenameOfJoin(dir, f);
  }

  lemma BoldBase(stem: string)
    ensures BaseOfFilename(stem + "_bold.nii.gz") == stem + "_bold"
  {
    var tail := "bold.nii.gz";
    var f := stem + "_" + tail;
    assert f == stem + "_bold.nii.gz";
    LastTokenAfter(stem, tail);
    assert f[..|f| - 7] == stem + "_bold";
  }

  // ---------------------------------------------------------------------------
  // Layout under the output directory
  // ---------------------------------------------------------------------------

  const PipelinesDirName: string := "pipelines"

  /** `<out_dir>/<base>`: the directory of one analysis. */
  function WorkDir(outDir: string, base: string): string {
    JoinPath([outDir, base])
  }

  /** `<out_dir>/<base>/pipelines` */
  function PipesDir(outDir: string, base: string): string {
    JoinPath([WorkDir(outDir, base), PipelinesDirName])
  }

  /** `<out_dir>/<base>/pipelines/<base><ext>` */
  function PipeFile(outDir: string, base: string, ext: string): (r: string)
    ensures r == outDir + "/" + base + "/pipelines/" + base + ext
  {
    JoinPath4(outDir, base, PipelinesDirName, base + ext);
    JoinPath([outDir, base, PipelinesDirName, base + ext])
  }

  /** The options file written by setup and read by wrap-up. */
  function OptPath(outDir: string, base: string): string {
    PipeFile(outDir, base, ".opt")
  }

  /** The pipeline file the external program creates from the options and
      that run executes. */
  function MatPath(outDir: string, base: string): string {
    PipeFile(outDir, base, ".mat")
  }

  /** Setup builds the options path one directory at a time; it is the same
      path as the one joined in one go. */
  lemma NestedLayout(outDir: string, base: string)
    ensures JoinPath([PipesDir(outDir, base), base + ".opt"]) == OptPath(outDir, base)
    ensures PipesDir(outDir, base) == outDir + "/" + base + "/pipelines"
  {
    JoinPath2(outDir, base);
    JoinPath2(WorkDir(outDir, base), PipelinesDirName);
    JoinPath2(PipesDir(outDir, base), base + ".opt");
    assert OptPath(outDir, base) == outDir + "/" + base + "/pipelines/" + base + ".opt";
  }

  /** Setup writes `pipe_opt[:-4] + '.mat'` as the pipeline file: replacing
      the four-character `.opt` suffix gives exactly the run handler's path. */
  lemma MatFromOpt(outDir: string, base: string)
    ensures var opt := OptPath(outDir, base);
      |opt| >= 4 && opt[..|opt| - 4] + ".mat" == MatPath(outDir, base)
  {
    var opt := OptPath(outDir, base);
    var stem := outDir + "/" + base + "/pipelines/" + base;
    assert opt == stem + ".opt";
    assert opt[..|opt| - 4] == stem;
  }
}
