/** The output tree of a SPARK analysis and the two wrap-up steps that
    rearrange it (`rename_outputs` and `move_outputs` in
    `for_build/spark/wrapup.py`). A file is a path, given as its list of
    components, mapped to its content; a directory exists while some file
    lies below it. The listings `os.walk` yields are parameters. */
module Outputs {
  import opened Wrappers
  import opened Strings

  type Path = seq<string>

  /** Path to content. */
  type Tree = map<Path, string>

  /** `p` lies strictly below directory `dir`. */
  predicate Under(p: Path, dir: Path) {
    |dir| < |p| && p[..|dir|] == dir
  }

  predicate IsDir(files: Tree, d: Path) {
    exists p | p in files :: Under(p, d)
  }

  function Last(p: Path): string
    requires |p| >= 1
  {
    p[|p| - 1]
  }

  function Parent(p: Path): Path
    requires |p| >= 1
  {
    p[..|p| - 1]
  }

  /** The same relative path, taken from `dst` instead of `src`. */
  function Rebase(p: Path, src: Path, dst: Path): (r: Path)
    requires |src| <= |p|
    ensures |r| == |dst| + |p| - |src|
  {
    dst + p[|src|..]
  }

  /** The files below `d`. */
  function Below(files: Tree, d: Path): set<Path> {
    set p | p in files && Under(p, d)
  }

  predicate BelowAll(moved: set<Path>, files: Tree, src: Path) {
    forall p | p in moved :: p in files && Under(p, src)
  }

  /** The tree after the files of `moved`, all below `src`, have been carried
      to the same relative place below `dst`; a carried file replaces one
      already there. */
  function Relocated(files: Tree, moved: set<Path>, src: Path, dst: Path): Tree
    requires BelowAll(moved, files, src)
  {
    RebaseBackOn(moved, files, src, dst);
    var keys := (files.Keys - moved) + set d | d in moved :: Rebase(d, src, dst);
    map q | q in keys :: if Carried(q, moved, src, dst) then files[Rebase(q, dst, src)] else files[q]
  }

  /** `q` is the new place of a moved file. */
  predicate Carried(q: Path, moved: set<Path>, src: Path, dst: Path) {
    Under(q, dst) && Rebase(q, dst, src) in moved
  }

  lemma RebaseBackOn(moved: set<Path>, files: Tree, src: Path, dst: Path)
    requires BelowAll(moved, files, src)
    ensures forall d | d in moved :: Carried(Rebase(d, src, dst), moved, src, dst)
  {
    forall d | d in moved
      ensures Carried(Rebase(d, src, dst), moved, src, dst)
    {
      RebaseBack(d, src, dst);
    }
  }

  /** What the relocated tree holds at `q`. */
  lemma RelocatedAt(files: Tree, moved: set<Path>, src: Path, dst: Path, q: Path)
    requires BelowAll(moved, files, src)
    ensures var r := Relocated(files, moved, src, dst);
      && (q in r <==> (q in files && q !in moved) || Carried(q, moved, src, dst))
      && (q in r ==> r[q] == if Carried(q, moved, src, dst) then files[Rebase(q, dst, src)] else files[q])
  {
    RebaseBackOn(moved, files, src, dst);
    if Carried(q, moved, src, dst) {
      var d := Rebase(q, dst, src);
      RebaseBack(q, dst, src);
      assert q == Rebase(d, src, dst);
    }
  }

  lemma RelocatedNone(files: Tree, src: Path, dst: Path)
    ensures Relocated(files, {}, src, dst) == files
  {
    var r := Relocated(files, {}, src, dst);
    forall q
      ensures (q in r <==> q in files) && (q in r ==> r[q] == files[q])
    {
      RelocatedAt(files, {}, src, dst, q);
    }
    assert r == files;
  }

  /** A whole directory renamed from `src` to `dst`. */
  function Relocate(files: Tree, src: Path, dst: Path): Tree {
    Relocated(files, Below(files, src), src, dst)
  }

  lemma RebaseBack(p: Path, src: Path, dst: Path)
    requires Under(p, src)
    ensures Under(Rebase(p, src, dst), dst)
    ensures Rebase(Rebase(p, src, dst), dst, src) == p
  {
    var q := Rebase(p, src, dst);
    assert q[..|dst|] == dst;
    assert q[|dst|..] == p[|src|..];
    assert p == p[..|src|] + p[|src|..];
  }

  /** Every moved file is at its new place with its content, every file
      neither moved nor below `dst` stays as it was, and nothing else is in
      the tree. */
  lemma RelocatedSpec(files: Tree, moved: set<Path>, src: Path, dst: Path)
    requires BelowAll(moved, files, src)
    ensures var r := Relocated(files, moved, src, dst);
      && (forall p | p in moved :: Rebase(p, src, dst) in r && r[Rebase(p, src, dst)] == files[p])
      && (forall p | p in files && p !in moved && !Under(p, dst) :: p in r && r[p] == files[p])
      && (forall q | q in r :: (q in files && q !in moved) || (Under(q, dst) && Rebase(q, dst, src) in moved))
  {
    RelocatedCarries(files, moved, src, dst);
    RelocatedKeeps(files, moved, src, dst);
    RelocatedOnly(files, moved, src, dst);
  }

  lemma RelocatedCarries(files: Tree, moved: set<Path>, src: Path, dst: Path)
    requires BelowAll(moved, files, src)
    ensures var r := Relocated(files, moved, src, dst);
      forall p | p in moved :: Rebase(p, src, dst) in r && r[Rebase(p, src, dst)] == files[p]
  {
    forall p | p in moved
      ensures var r := Relocated(files, moved, src, dst); Rebase(p, src, dst) in r && r[Rebase(p, src, dst)] == files[p]
    {
      RebaseBack(p, src, dst);
      RelocatedAt(files, moved, src, dst, Rebase(p, src, dst));
    }
  }

  lemma RelocatedKeeps(files: Tree, moved: set<Path>, src: Path, dst: Path)
    requires BelowAll(moved, files, src)
    ensures var r := Relocated(files, moved, src, dst);
      forall p | p in files && p !in moved && !Under(p, dst) :: p in r && r[p] == files[p]
  {
    forall p | p in files && p !in moved && !Under(p, dst)
      ensures var r := Relocated(files, moved, src, dst); p in r && r[p] == files[p]
    {
      RelocatedAt(files, moved, src, dst, p);
    }
  }

  lemma RelocatedOnly(files: Tree, moved: set<Path>, src: Path, dst: Path)
    requires BelowAll(moved, files, src)
    ensures var r := Relocated(files, moved, src, dst);
      forall q | q in r :: (q in files && q !in moved) || (Under(q, dst) && Rebase(q, dst, src) in moved)
  {
    var r := Relocated(files, moved, src, dst);
    forall q | q in r && !(q in files && q !in moved)
      ensures Under(q, dst) && Rebase(q, dst, src) in moved
    {
      var s :| s in moved && q == Rebase(s, src, dst);
      RebaseBack(s, src, dst);
    }
  }

  // ---------------------------------------------------------------------------
  // shutil.move
  // ---------------------------------------------------------------------------

  /** Where `shutil.move(src, dst)` puts `src`: inside `dst` when that is a
      directory, at `dst` otherwise. */
  function MoveTarget(files: Tree, src: Path, dst: Path): Path
    requires |src| >= 1
  {
    if IsDir(files, dst) then dst + [Last(src)] else dst
  }

  /** `shutil.move` of a file; `None` where it raises: the file is missing,
      `dst` is a directory that already holds that name, or some directory
      above the target is a file. Otherwise the file is renamed, replacing a
      file already at the target. */
  function MoveFile(files: Tree, src: Path, dst: Path): (r: Option<Tree>)
    requires |src| >= 1
    ensures r.None? <==> (src !in files
      || (IsDir(files, dst) && (MoveTarget(files, src, dst) in files || IsDir(files, MoveTarget(files, src, dst))))
      || Blocked(files, MoveTarget(files, src, dst)))
    ensures r.Some? ==> var t := MoveTarget(files, src, dst);
      && t in r.value && r.value[t] == files[src]
      && (src in r.value <==> src == t)
      && forall p | p != src && p != t :: (p in r.value <==> p in files) && (p in files ==> r.value[p] == files[p])
  {
    var t := MoveTarget(files, src, dst);
    if src !in files then None
    else if IsDir(files, dst) && (t in files || IsDir(files, t)) then None
    else if Blocked(files, t) then None
    else Some((files - {src})[t := files[src]])
  }

  /** `shutil.move` of a directory; `None` where it raises: `src` is not a
      directory, or (when `dst` is not `src` itself) the target lies inside
      `src`, already exists, or has a file for one of its directories. Moving a directory onto itself renames it in
      place and changes nothing; otherwise every file below `src` is carried
      below the target. */
  function MoveDir(files: Tree, src: Path, dst: Path): (r: Option<Tree>)
    requires |src| >= 1
    ensures r.None? <==> (!IsDir(files, src)
      || (dst != src && var t := MoveTarget(files, src, dst);
          Under(t, src) || t in files || IsDir(files, t) || Blocked(files, t)))
    ensures r.Some? && dst == src ==> r.value == files
    ensures r.Some? && dst != src ==> r.value == Relocate(files, src, MoveTarget(files, src, dst))
  {
    var t := MoveTarget(files, src, dst);
    if !IsDir(files, src) then None
    else if dst == src then Some(files)
    else if Under(t, src) || t in files || IsDir(files, t) || Blocked(files, t) then None
    else Some(Relocate(files, src, t))
  }

  /** A directory moved onto itself stays as it is; one moved elsewhere
      without error has its files all at the same relative place below the
      target, every other file stays, nothing else appears, and nothing is
      left below the old directory. */
  lemma MoveDirSpec(files: Tree, src: Path, dst: Path)
    requires |src| >= 1
    requires MoveDir(files, src, dst).Some?
    ensures dst == src ==> MoveDir(files, src, dst).value == files
    ensures var t := MoveTarget(files, src, dst); var r := MoveDir(files, src, dst).value;
      dst != src ==>
      && (forall p | p in files && Under(p, src) :: Rebase(p, src, t) in r && r[Rebase(p, src, t)] == files[p])
      && (forall p | p in files && !Under(p, src) :: p in r && r[p] == files[p])
      && (forall q | q in r :: (q in files && !Under(q, src)) || (Under(q, t) && Rebase(q, t, src) in files))
      && !IsDir(r, src)
  {
    if dst != src {
      var t := MoveTarget(files, src, dst);
      RelocateSpec(files, src, t);
      RelocateEmpties(files, src, t);
    }
  }

  /** A directory renamed to a free place that is not inside it. */
  lemma RelocateSpec(files: Tree, src: Path, t: Path)
    requires t !in files && !IsDir(files, t)
    ensures var r := Relocate(files, src, t);
      && (forall p | p in files && Under(p, src) :: Rebase(p, src, t) in r && r[Rebase(p, src, t)] == files[p])
      && (forall p | p in files && !Under(p, src) :: p in r && r[p] == files[p])
      && (forall q | q in r :: (q in files && !Under(q, src)) || (Under(q, t) && Rebase(q, t, src) in files))
  {
    var moved := Below(files, src);
    RelocatedCarries(files, moved, src, t);
    RelocatedKeeps(files, moved, src, t);
    RelocatedOnly(files, moved, src, t);
  }

  lemma RelocateEmpties(files: Tree, src: Path, t: Path)
    requires IsDir(files, src) && t !in files && !IsDir(files, t)
    requires t != src && !Under(t, src)
    ensures !IsDir(Relocate(files, src, t), src)
  {
    var r := Relocate(files, src, t);
    RelocatedOnly(files, Below(files, src), src, t);
    NotBelowBoth(files, src, t);
    forall q | q in r
      ensures !Under(q, src)
    {
      if Under(q, t) && Under(q, src) {
        PrefixesOrdered(q, src, t);
      }
    }
  }

  /** Two directories above the same path: one holds the other. */
  lemma PrefixesOrdered(q: Path, a: Path, b: Path)
    requires Under(q, b) && Under(q, a)
    ensures a == b || Under(a, b) || Under(b, a)
  {
    if |a| < |b| {
      assert b[..|a|] == q[..|a|];
    } else if |b| < |a| {
      assert a[..|b|] == q[..|b|];
    } else {
      assert a == q[..|a|];
    }
  }

  /** A directory holding a file is not below a path where nothing is. */
  lemma NotBelowBoth(files: Tree, src: Path, t: Path)
    requires IsDir(files, src) && t !in files && !IsDir(files, t)
    ensures !Under(src, t)
  {
  }

  // ---------------------------------------------------------------------------
  // rename_outputs
  // ---------------------------------------------------------------------------

  /** One directory as `os.walk` yields it: its path, the names of its
      subdirectories and the names of its files. */
  datatype Listing = Listing(root: Path, dirs: seq<string>, names: seq<string>)

  /** `search('.+' + spark + '.+', name)`: the raw-output name occurs with a
      character other than a newline right before and right after it. */
  predicate Matches(name: string, spark: string) {
    exists i | 1 <= i && i + |spark| < |name| ::
      OccursAt(name, spark, i) && name[i - 1] != '\n' && name[i + |spark|] != '\n'
  }

  /** `sub('_' + spark, '_' + bids, name)`. */
  function NewName(name: string, spark: string, bids: string): string {
    ReplaceAll(name, "_" + spark, "_" + bids)
  }

  /** A SPARK output `<a>_<spark><b>` is matched, and when `_<spark>` occurs
      there only once it becomes `<a>_<bids><b>`. */
  lemma TypicalOutputName(a: string, spark: string, b: string, bids: string)
    requires |b| >= 1 && b[0] != '\n'
    requires forall i | 0 <= i < |a| :: !OccursAt(a + ("_" + spark) + b, "_" + spark, i)
    requires !Occurs(b, "_" + spark)
    ensures Matches(a + "_" + spark + b, spark)
    ensures NewName(a + "_" + spark + b, spark, bids) == a + "_" + bids + b
  {
    var name := a + "_" + spark + b;
    var i := |a| + 1;
    assert name[i..i + |spark|] == spark;
    assert OccursAt(name, spark, i);
    assert name[i - 1] == '_';
    assert name[i + |spark|] == b[0];
    assert a + ("_" + spark) + b == name;
    ReplaceAllFirst(a, "_" + spark, b, "_" + bids);
    assert a + ("_" + bids) + b == a + "_" + bids + b;
  }

  /** The state of a pass over one directory's files: the tree, the
      `rename_root` flag, and whether every move succeeded. */
  datatype Sweep = Sweep(files: Tree, flag: bool, ok: bool)

  /** The inner loop of `rename_outputs` over the first names of a listing:
      each matching file is moved to its new name in the same directory; the
      first move that raises ends the walk. */
  function RenameFiles(files: Tree, root: Path, names: seq<string>, spark: string, bids: string): Sweep
    decreases |names|
  {
    if names == [] then Sweep(files, false, true)
    else
      var w := RenameFiles(files, root, names[..|names| - 1], spark, bids);
      var name := names[|names| - 1];
      if !w.ok || !Matches(name, spark) then w
      else match MoveFile(w.files, root + [name], root + [NewName(name, spark, bids)])
        case None => Sweep(w.files, true, false)
        case Some(f) => Sweep(f, true, true)
  }

  /** One step of the walk: a directory that no longer exists is not
      yielded; otherwise its files are renamed, and the directory is renamed
      to the BIDS name when a file matched and the directory bears the
      raw-output name. */
  function RenameDir(files: Tree, e: Listing, spark: string, bids: string): (Tree, bool)
    requires |e.root| >= 1
  {
    if !IsDir(files, e.root) then (files, true)
    else
      var w := RenameFiles(files, e.root, e.names, spark, bids);
      if !w.ok then (w.files, false)
      else if w.flag && Last(e.root) == spark then
        match MoveDir(w.files, e.root, Parent(e.root) + [bids])
        case None => (w.files, false)
        case Some(g) => (g, true)
      else (w.files, true)
  }

  predicate Rooted(walk: seq<Listing>) {
    forall i | 0 <= i < |walk| :: |walk[i].root| >= 1
  }

  /** `rename_outputs` over the first listings of the walk: the tree when
      the walk ends or stops, and whether it ran to its end. */
  function RenameAll(files: Tree, walk: seq<Listing>, spark: string, bids: string): (Tree, bool)
    requires Rooted(walk)
    decreases |walk|
  {
    if walk == [] then (files, true)
    else
      var r := RenameAll(files, walk[..|walk| - 1], spark, bids);
      if !r.1 then r else RenameDir(r.0, walk[|walk| - 1], spark, bids)
  }

  // ---------------------------------------------------------------------------
  // What rename_outputs promises
  // ---------------------------------------------------------------------------

  /** The flag is set exactly when some listed name matches, whether or not
      the substitution changes that name. */
  lemma {:induction false} RenameFlag(files: Tree, root: Path, names: seq<string>, spark: string, bids: string)
    requires RenameFiles(files, root, names, spark, bids).ok
    ensures RenameFiles(files, root, names, spark, bids).flag <==> exists k | 0 <= k < |names| :: Matches(names[k], spark)
    decreases |names|
  {
    if names != [] {
      var init := names[..|names| - 1];
      var w := RenameFiles(files, root, init, spark, bids);
      assert w.ok;
      RenameFlag(files, root, init, spark, bids);
      assert forall k | 0 <= k < |init| :: init[k] == names[k];
    }
  }

  /** When no listed name matches, the directory's files are untouched. */
  lemma {:induction false} NoMatchNoChange(files: Tree, root: Path, names: seq<string>, spark: string, bids: string)
    requires forall k | 0 <= k < |names| :: !Matches(names[k], spark)
    ensures RenameFiles(files, root, names, spark, bids) == Sweep(files, false, true)
    decreases |names|
  {
    if names != [] {
      var init := names[..|names| - 1];
      assert forall k | 0 <= k < |init| :: init[k] == names[k];
      NoMatchNoChange(files, root, init, spark, bids);
    }
  }

  /** Renaming the files of a directory touches nothing outside it. */
  lemma {:induction false} RenameStaysInRoot(files: Tree, root: Path, names: seq<string>, spark: string, bids: string)
    ensures var f := RenameFiles(files, root, names, spark, bids).files;
      forall p | !Under(p, root) :: (p in f <==> p in files) && (p in files ==> f[p] == files[p])
    decreases |names|
  {
    if names != [] {
      var init := names[..|names| - 1];
      RenameStaysInRoot(files, root, init, spark, bids);
      var w := RenameFiles(files, root, init, spark, bids);
      var name := names[|names| - 1];
      var src := root + [name];
      var dst := root + [NewName(name, spark, bids)];
      if w.ok && Matches(name, spark) {
        InRoot(root, src, dst, w.files);
      }
    }
  }

  lemma InRoot(root: Path, src: Path, dst: Path, files: Tree)
    requires |src| == |root| + 1 && src[..|root|] == root
    requires |dst| == |root| + 1 && dst[..|root|] == root
    ensures Under(src, root) && Under(MoveTarget(files, src, dst), root)
  {
    var t := MoveTarget(files, src, dst);
    assert t[..|root|] == dst[..|root|];
  }

  /** A listed file that matches and whose new name is free ends at its new
      name with its content; when a directory above the new name is a file,
      the move raises and the sweep stops with the tree unchanged. */
  lemma RenameOneFile(files: Tree, root: Path, name: string, spark: string, bids: string)
    requires root + [name] in files && Matches(name, spark)
    requires !IsDir(files, root + [NewName(name, spark, bids)])
    ensures var w := RenameFiles(files, root, [name], spark, bids);
      !Blocked(files, root + [NewName(name, spark, bids)]) ==>
      && w == Sweep(w.files, true, true)
      && root + [NewName(name, spark, bids)] in w.files
      && w.files[root + [NewName(name, spark, bids)]] == files[root + [name]]
    ensures Blocked(files, root + [NewName(name, spark, bids)]) ==>
      RenameFiles(files, root, [name], spark, bids) == Sweep(files, true, false)
  {
    assert [name][..0] == [];
  }

  /** The paths of the first `j` listed names that match. */
  ghost function Sources(root: Path, names: seq<string>, spark: string, j: nat): set<Path>
    requires j <= |names|
  {
    set k | 0 <= k < j && Matches(names[k], spark) :: root + [names[k]]
  }

  /** The paths the first `j` listed names that match are renamed to. */
  ghost function Targets(root: Path, names: seq<string>, spark: string, bids: string, j: nat): set<Path>
    requires j <= |names|
  {
    set k | 0 <= k < j && Matches(names[k], spark) :: root + [NewName(names[k], spark, bids)]
  }

  /** The new name of a file is free: no directory and no file stands where
      the move would need a directory, and the target is either the file
      itself or no file at all. */
  predicate FreeName(files: Tree, root: Path, name: string, renamed: string) {
    !IsDir(files, root + [renamed]) && !Blocked(files, root + [renamed]) && (renamed == name || root + [renamed] !in files)
  }

  /** A listing of files of the tree, each name once, whose matching names
      all have free new names that are pairwise distinct. */
  predicate RenamableListing(files: Tree, root: Path, names: seq<string>, spark: string, bids: string) {
    && (forall k, l | 0 <= k < l < |names| :: names[k] != names[l])
    && (forall k | 0 <= k < |names| :: root + [names[k]] in files)
    && (forall k, l | 0 <= k < l < |names| && Matches(names[k], spark) && Matches(names[l], spark) ::
          NewName(names[k], spark, bids) != NewName(names[l], spark, bids))
    && (forall k | 0 <= k < |names| && Matches(names[k], spark) ::
          FreeName(files, root, names[k], NewName(names[k], spark, bids)))
  }

  /** After the first `j` names of a renamable listing: no move raised,
      every matching file is at its new name with its content, every file
      not renamed keeps its content, and nothing else is in the tree. */
  ghost predicate RenamedSoFar(files: Tree, w: Sweep, root: Path, names: seq<string>, spark: string, bids: string, j: nat)
    requires RenamableListing(files, root, names, spark, bids) && j <= |names|
  {
    && w.ok
    && (forall k | 0 <= k < j && Matches(names[k], spark) ::
          root + [NewName(names[k], spark, bids)] in w.files
          && w.files[root + [NewName(names[k], spark, bids)]] == files[root + [names[k]]])
    && (forall p | p in files && p !in Sources(root, names, spark, j) :: p in w.files && w.files[p] == files[p])
    && (forall q | q in w.files ::
          (q in files && q !in Sources(root, names, spark, j)) || q in Targets(root, names, spark, bids, j))
  }

  /** Renaming a whole directory listing: when the listed files are distinct
      files of the tree and the new names of the matching ones are distinct
      and free, no move raises, every matching file ends at its new name in
      the same directory with its content, every other file keeps its place
      and content, and nothing else appears. */
  lemma RenameListing(files: Tree, root: Path, names: seq<string>, spark: string, bids: string)
    requires RenamableListing(files, root, names, spark, bids)
    ensures var w := RenameFiles(files, root, names, spark, bids);
      && w.ok
      && (forall k | 0 <= k < |names| && Matches(names[k], spark) ::
            root + [NewName(names[k], spark, bids)] in w.files
            && w.files[root + [NewName(names[k], spark, bids)]] == files[root + [names[k]]])
      && (forall k | 0 <= k < |names| && !Matches(names[k], spark) ::
            root + [names[k]] in w.files && w.files[root + [names[k]]] == files[root + [names[k]]])
      && (forall p | p in files && p !in Sources(root, names, spark, |names|) :: p in w.files && w.files[p] == files[p])
      && (forall q | q in w.files ::
            (q in files && q !in Sources(root, names, spark, |names|)) || q in Targets(root, names, spark, bids, |names|))
  {
    RenamedPrefix(files, root, names, spark, bids, |names|);
    assert names[..|names|] == names;
    forall k | 0 <= k < |names| && !Matches(names[k], spark)
      ensures root + [names[k]] !in Sources(root, names, spark, |names|)
    {
      if root + [names[k]] in Sources(root, names, spark, |names|) {
        InSources(root, names, spark, |names|, root + [names[k]]);
      }
    }
  }

  /** A source path is a matching name directly below the directory. */
  lemma InSources(root: Path, names: seq<string>, spark: string, j: nat, p: Path)
    requires j <= |names| && p in Sources(root, names, spark, j)
    ensures |p| == |root| + 1 && Matches(p[|root|], spark)
  {
    var k :| 0 <= k < j && Matches(names[k], spark) && p == root + [names[k]];
    assert p[|root|] == names[k];
  }

  lemma {:induction false} RenamedPrefix(files: Tree, root: Path, names: seq<string>, spark: string, bids: string, j: nat)
    requires RenamableListing(files, root, names, spark, bids)
    requires j <= |names|
    ensures RenamedSoFar(files, RenameFiles(files, root, names[..j], spark, bids), root, names, spark, bids, j)
    decreases j
  {
    if j == 0 {
      assert names[..0] == [];
      assert Sources(root, names, spark, 0) == {};
      assert Targets(root, names, spark, bids, 0) == {};
    } else {
      RenamedPrefix(files, root, names, spark, bids, j - 1);
      RenameStep(files, root, names, spark, bids, j - 1);
    }
  }

  /** One more name of a renamable listing keeps the sweep renamed so far. */
  lemma RenameStep(files: Tree, root: Path, names: seq<string>, spark: string, bids: string, j: nat)
    requires RenamableListing(files, root, names, spark, bids)
    requires j < |names|
    requires RenamedSoFar(files, RenameFiles(files, root, names[..j], spark, bids), root, names, spark, bids, j)
    ensures RenamedSoFar(files, RenameFiles(files, root, names[..j + 1], spark, bids), root, names, spark, bids, j + 1)
  {
    var w := RenameFiles(files, root, names[..j], spark, bids);
    RenameSnoc(files, root, names, spark, bids, j);
    SourcesSnoc(root, names, spark, bids, j);
    if Matches(names[j], spark) {
      SourceNotYetMoved(root, names, spark, j);
      NextMoveSucceeds(files, w, root, names, spark, bids, j);
      MoveStep(files, w, root, names, spark, bids, j);
    } else {
      SkipStep(files, w, root, names, spark, bids, j);
    }
  }

  /** `RenameFiles` over one more name, unfolded once. */
  lemma RenameSnoc(files: Tree, root: Path, names: seq<string>, spark: string, bids: string, j: nat)
    requires j < |names|
    ensures var w := RenameFiles(files, root, names[..j], spark, bids);
      var src, t := root + [names[j]], root + [NewName(names[j], spark, bids)];
      RenameFiles(files, root, names[..j + 1], spark, bids)
        == if !w.ok || !Matches(names[j], spark) then w
           else if MoveFile(w.files, src, t).None? then Sweep(w.files, true, false)
           else Sweep(MoveFile(w.files, src, t).value, true, true)
  {
    var pre := names[..j + 1];
    assert pre[..|pre| - 1] == names[..j];
    assert pre[|pre| - 1] == names[j];
  }

  /** A name that does not match leaves the sweep renamed so far. */
  lemma SkipStep(files: Tree, w: Sweep, root: Path, names: seq<string>, spark: string, bids: string, j: nat)
    requires RenamableListing(files, root, names, spark, bids)
    requires j < |names| && !Matches(names[j], spark)
    requires RenamedSoFar(files, w, root, names, spark, bids, j)
    requires Sources(root, names, spark, j + 1) == Sources(root, names, spark, j)
    requires Targets(root, names, spark, bids, j + 1) == Targets(root, names, spark, bids, j)
    ensures RenamedSoFar(files, w, root, names, spark, bids, j + 1)
  {
  }

  /** The next matching file of a renamable listing is still in the tree and
      its new name still free, so its move succeeds. */
  lemma NextMoveSucceeds(files: Tree, w: Sweep, root: Path, names: seq<string>, spark: string, bids: string, j: nat)
    requires RenamableListing(files, root, names, spark, bids)
    requires j < |names| && Matches(names[j], spark)
    requires RenamedSoFar(files, w, root, names, spark, bids, j)
    requires root + [names[j]] !in Sources(root, names, spark, j)
    ensures var src, t := root + [names[j]], root + [NewName(names[j], spark, bids)];
      MoveFile(w.files, src, t) == Some((w.files - {src})[t := files[src]])
  {
    var src, t := root + [names[j]], root + [NewName(names[j], spark, bids)];
    assert src in files;
    assert FreeName(files, root, names[j], NewName(names[j], spark, bids));
    TargetFree(files, w, root, names, spark, bids, j, t);
  }

  /** Moving the next matching file keeps the sweep renamed so far. */
  lemma MoveStep(files: Tree, w: Sweep, root: Path, names: seq<string>, spark: string, bids: string, j: nat)
    requires RenamableListing(files, root, names, spark, bids)
    requires j < |names| && Matches(names[j], spark)
    requires RenamedSoFar(files, w, root, names, spark, bids, j)
    requires root + [names[j]] !in Sources(root, names, spark, j)
    requires Sources(root, names, spark, j + 1) == Sources(root, names, spark, j) + {root + [names[j]]}
    requires Targets(root, names, spark, bids, j + 1)
      == Targets(root, names, spark, bids, j) + {root + [NewName(names[j], spark, bids)]}
    ensures var src, t := root + [names[j]], root + [NewName(names[j], spark, bids)];
      RenamedSoFar(files, Sweep((w.files - {src})[t := files[src]], true, true), root, names, spark, bids, j + 1)
  {
    var src, t := root + [names[j]], root + [NewName(names[j], spark, bids)];
    var f := (w.files - {src})[t := files[src]];
    assert FreeName(files, root, names[j], NewName(names[j], spark, bids));
    EarlierTargetsApart(files, root, names, spark, bids, j);
    MovedTargets(files, w.files, f, root, names, spark, bids, j);
    MovedOthers(files, w.files, f, root, names, spark, bids, j);
    MovedNothingElse(files, w.files, f, root, names, spark, bids, j);
  }

  /** The targets of the earlier matching names differ from the next
      name's file and from its target. */
  lemma EarlierTargetsApart(files: Tree, root: Path, names: seq<string>, spark: string, bids: string, j: nat)
    requires RenamableListing(files, root, names, spark, bids)
    requires j < |names| && Matches(names[j], spark)
    ensures forall k | 0 <= k < j && Matches(names[k], spark) ::
      root + [NewName(names[k], spark, bids)] != root + [NewName(names[j], spark, bids)]
      && root + [NewName(names[k], spark, bids)] != root + [names[j]]
  {
    forall k | 0 <= k < j && Matches(names[k], spark)
      ensures root + [NewName(names[k], spark, bids)] != root + [NewName(names[j], spark, bids)]
      ensures root + [NewName(names[k], spark, bids)] != root + [names[j]]
    {
      assert NewName(names[k], spark, bids) == (root + [NewName(names[k], spark, bids)])[|root|];
      assert names[k] != names[j];
      assert FreeName(files, root, names[k], NewName(names[k], spark, bids));
    }
  }

  lemma MovedTargets(files: Tree, g: Tree, f: Tree, root: Path, names: seq<string>, spark: string, bids: string, j: nat)
    requires RenamableListing(files, root, names, spark, bids)
    requires j < |names| && Matches(names[j], spark)
    requires f == (g - {root + [names[j]]})[root + [NewName(names[j], spark, bids)] := files[root + [names[j]]]]
    requires forall k | 0 <= k < j && Matches(names[k], spark) ::
      root + [NewName(names[k], spark, bids)] in g
      && g[root + [NewName(names[k], spark, bids)]] == files[root + [names[k]]]
    requires forall k | 0 <= k < j && Matches(names[k], spark) ::
      root + [NewName(names[k], spark, bids)] != root + [NewName(names[j], spark, bids)]
      && root + [NewName(names[k], spark, bids)] != root + [names[j]]
    ensures forall k | 0 <= k < j + 1 && Matches(names[k], spark) ::
      root + [NewName(names[k], spark, bids)] in f
      && f[root + [NewName(names[k], spark, bids)]] == files[root + [names[k]]]
  {
  }

  lemma MovedOthers(files: Tree, g: Tree, f: Tree, root: Path, names: seq<string>, spark: string, bids: string, j: nat)
    requires RenamableListing(files, root, names, spark, bids)
    requires j < |names| && Matches(names[j], spark)
    requires FreeName(files, root, names[j], NewName(names[j], spark, bids))
    requires f == (g - {root + [names[j]]})[root + [NewName(names[j], spark, bids)] := files[root + [names[j]]]]
    requires forall p | p in files && p !in Sources(root, names, spark, j) :: p in g && g[p] == files[p]
    requires Sources(root, names, spark, j + 1) == Sources(root, names, spark, j) + {root + [names[j]]}
    ensures forall p | p in files && p !in Sources(root, names, spark, j + 1) :: p in f && f[p] == files[p]
  {
  }

  lemma MovedNothingElse(files: Tree, g: Tree, f: Tree, root: Path, names: seq<string>, spark: string, bids: string, j: nat)
    requires RenamableListing(files, root, names, spark, bids)
    requires j < |names| && Matches(names[j], spark)
    requires f == (g - {root + [names[j]]})[root + [NewName(names[j], spark, bids)] := files[root + [names[j]]]]
    requires forall q | q in g ::
      (q in files && q !in Sources(root, names, spark, j)) || q in Targets(root, names, spark, bids, j)
    requires Sources(root, names, spark, j + 1) == Sources(root, names, spark, j) + {root + [names[j]]}
    requires Targets(root, names, spark, bids, j + 1)
      == Targets(root, names, spark, bids, j) + {root + [NewName(names[j], spark, bids)]}
    ensures forall q | q in f ::
      (q in files && q !in Sources(root, names, spark, j + 1)) || q in Targets(root, names, spark, bids, j + 1)
  {
  }

  /** The sources and targets grow by the next name exactly when it matches. */
  lemma SourcesSnoc(root: Path, names: seq<string>, spark: string, bids: string, j: nat)
    requires j < |names|
    ensures Sources(root, names, spark, j + 1)
      == Sources(root, names, spark, j) + (if Matches(names[j], spark) then {root + [names[j]]} else {})
    ensures Targets(root, names, spark, bids, j + 1)
      == Targets(root, names, spark, bids, j) + (if Matches(names[j], spark) then {root + [NewName(names[j], spark, bids)]} else {})
  {
  }

  /** A listed name is renamed at most once, so before its own step its file
      is not among those already moved. */
  lemma SourceNotYetMoved(root: Path, names: seq<string>, spark: string, j: nat)
    requires j < |names|
    requires forall k, l | 0 <= k < l < |names| :: names[k] != names[l]
    ensures root + [names[j]] !in Sources(root, names, spark, j)
  {
    forall k | 0 <= k < j && Matches(names[k], spark) ensures root + [names[k]] != root + [names[j]] {
      assert names[k] == (root + [names[k]])[|root|];
    }
  }

  /** A free new name stays free while the earlier files of the listing are
      renamed: every target has the depth of the new name, so none is a
      directory above it or a file below it. */
  lemma TargetFree(files: Tree, w: Sweep, root: Path, names: seq<string>, spark: string, bids: string, j: nat, t: Path)
    requires RenamableListing(files, root, names, spark, bids) && j <= |names|
    requires RenamedSoFar(files, w, root, names, spark, bids, j)
    requires |t| == |root| + 1
    requires !IsDir(files, t) && !Blocked(files, t)
    ensures !IsDir(w.files, t) && !Blocked(w.files, t)
  {
    forall q | q in Targets(root, names, spark, bids, j) ensures |q| == |root| + 1 {
      var k :| 0 <= k < j && Matches(names[k], spark) && q == root + [NewName(names[k], spark, bids)];
    }
    forall p | p in w.files ensures !Under(p, t) {
    }
    forall k | 1 <= k < |t| ensures t[..k] !in w.files {
    }
  }

  /** The directory step renames the directory only when the flag is set and
      its name is the raw-output name. Then, when the BIDS name is the
      raw-output name, the directory is moved onto itself and stays; when it
      differs, the step raises iff `<parent>/<bids>` exists or a directory
      above it is a file, and otherwise every file below the directory is
      carried below `<parent>/<bids>`. */
  lemma RenameDirOnlyIf(files: Tree, e: Listing, spark: string, bids: string)
    requires |e.root| >= 1 && IsDir(files, e.root)
    ensures var w := RenameFiles(files, e.root, e.names, spark, bids);
      w.ok && !(w.flag && Last(e.root) == spark) ==> RenameDir(files, e, spark, bids) == (w.files, true)
    ensures var w := RenameFiles(files, e.root, e.names, spark, bids);
      w.ok && w.flag && Last(e.root) == spark && bids == spark ==> RenameDir(files, e, spark, bids) == (w.files, true)
    ensures var w := RenameFiles(files, e.root, e.names, spark, bids);
      var u := MoveTarget(w.files, e.root, Parent(e.root) + [bids]);
      w.ok && w.flag && Last(e.root) == spark && bids != spark ==>
        RenameDir(files, e, spark, bids) ==
          if u in w.files || IsDir(w.files, u) || Blocked(w.files, u) then (w.files, false) else (Relocate(w.files, e.root, u), true)
  {
    var w := RenameFiles(files, e.root, e.names, spark, bids);
    if w.ok && w.flag {
      RenamedKeepsRoot(files, e.root, e.names, spark, bids);
      if Last(e.root) == spark && bids != spark {
        SiblingNotInside(e.root, bids);
        SiblingChildNotInside(e.root, bids, Last(e.root));
      }
    }
  }

  /** After a sweep that renamed a file, the directory still holds it. */
  lemma {:induction false} RenamedKeepsRoot(files: Tree, root: Path, names: seq<string>, spark: string, bids: string)
    requires RenameFiles(files, root, names, spark, bids).ok
    requires RenameFiles(files, root, names, spark, bids).flag
    ensures IsDir(RenameFiles(files, root, names, spark, bids).files, root)
    decreases |names|
  {
    if names != [] {
      var init := names[..|names| - 1];
      var w := RenameFiles(files, root, init, spark, bids);
      var name := names[|names| - 1];
      if !Matches(name, spark) {
        RenamedKeepsRoot(files, root, init, spark, bids);
      } else {
        var src := root + [name];
        var dst := root + [NewName(name, spark, bids)];
        InRoot(root, src, dst, w.files);
        var t := MoveTarget(w.files, src, dst);
        assert t in RenameFiles(files, root, names, spark, bids).files;
      }
    }
  }

  lemma SiblingNotInside(root: Path, name: string)
    requires |root| >= 1 && Last(root) != name
    ensures Parent(root) + [name] != root && !Under(Parent(root) + [name], root)
  {
    assert (Parent(root) + [name])[|root| - 1] == name;
  }

  lemma SiblingChildNotInside(root: Path, name: string, child: string)
    requires |root| >= 1 && Last(root) != name
    ensures !Under(Parent(root) + [name] + [child], root)
  {
    assert (Parent(root) + [name] + [child])[|root| - 1] == name;
  }

  lemma {:induction false} RenameAllStops(files: Tree, walk: seq<Listing>, i: nat, spark: string, bids: string)
    requires Rooted(walk) && i <= |walk|
    requires !RenameAll(files, walk[..i], spark, bids).1
    ensures RenameAll(files, walk, spark, bids) == RenameAll(files, walk[..i], spark, bids)
    decreases |walk| - i
  {
    if i < |walk| {
      assert walk[..i + 1][..i] == walk[..i];
      RenameAllStops(files, walk, i + 1, spark, bids);
    } else {
      assert walk[..i] == walk;
    }
  }

  lemma {:induction false} RenameFilesStops(files: Tree, root: Path, names: seq<string>, j: nat, spark: string, bids: string)
    requires j <= |names|
    requires !RenameFiles(files, root, names[..j], spark, bids).ok
    ensures RenameFiles(files, root, names, spark, bids) == RenameFiles(files, root, names[..j], spark, bids)
    decreases |names| - j
  {
    if j < |names| {
      assert names[..j + 1][..j] == names[..j];
      RenameFilesStops(files, root, names, j + 1, spark, bids);
    } else {
      assert names[..j] == names;
    }
  }

  // ---------------------------------------------------------------------------
  // move_outputs
  // ---------------------------------------------------------------------------

  /** Some proper ancestor of `t` is a file. */
  predicate Blocked(files: Tree, t: Path) {
    exists k | 1 <= k < |t| :: t[..k] in files
  }

  /** `os.rename` of a file; `None` where it raises: the file is missing, the
      target is a directory, or an ancestor of the target is a file.
      Otherwise the file is renamed, replacing a file already at `t`. */
  function RenameFile(files: Tree, s: Path, t: Path): Option<Tree>
  {
    if s !in files || IsDir(files, t) || Blocked(files, t) then None
    else Some((files - {s})[t := files[s]])
  }

  /** The files of one listing renamed, one by one, from directory `from` to
      directory `to`; the first rename that raises ends the walk. */
  function MoveFiles(files: Tree, from: Path, to: Path, names: seq<string>): (Tree, bool)
    decreases |names|
  {
    if names == [] then (files, true)
    else
      var r := MoveFiles(files, from, to, names[..|names| - 1]);
      var f := names[|names| - 1];
      if !r.1 then r
      else match RenameFile(r.0, from + [f], to + [f])
        case None => (r.0, false)
        case Some(g) => (g, true)
  }

  /** `os.rmdir` succeeds on each listed subdirectory: none holds a file. */
  predicate SubdirsEmpty(files: Tree, root: Path, dirs: seq<string>) {
    forall k | 0 <= k < |dirs| :: !IsDir(files, root + [dirs[k]])
  }

  /** One step of the bottom-up walk over `src`: the directory's files go to
      the same relative directory below `out`, then its subdirectories are
      removed. */
  function MoveEntry(files: Tree, src: Path, out: Path, e: Listing): (Tree, bool)
    requires |src| <= |e.root|
  {
    var r := MoveFiles(files, e.root, Rebase(e.root, src, out), e.names);
    if !r.1 then r else (r.0, SubdirsEmpty(r.0, e.root, e.dirs))
  }

  /** Every listed directory lies in `src`, as `os.walk(src)` yields them. */
  predicate InSrc(walk: seq<Listing>, src: Path) {
    forall i | 0 <= i < |walk| :: |src| <= |walk[i].root| && walk[i].root[..|src|] == src
  }

  function MoveAll(files: Tree, src: Path, out: Path, walk: seq<Listing>): (Tree, bool)
    requires InSrc(walk, src)
    decreases |walk|
  {
    if walk == [] then (files, true)
    else
      var r := MoveAll(files, src, out, walk[..|walk| - 1]);
      if !r.1 then r else MoveEntry(r.0, src, out, walk[|walk| - 1])
  }

  /** `move_outputs(out_dir, pipe_file)` with `src_dir = <out_dir>/<bids>`:
      the walk, then the removal of `src_dir`, which fails when a file is
      left in it. */
  function MovedOutputs(files: Tree, out: Path, bids: string, walk: seq<Listing>): (Tree, bool)
    requires InSrc(walk, out + [bids])
  {
    var r := MoveAll(files, out + [bids], out, walk);
    if !r.1 then r else (r.0, !IsDir(r.0, out + [bids]))
  }

  lemma {:induction false} MoveAllStops(files: Tree, src: Path, out: Path, walk: seq<Listing>, i: nat)
    requires InSrc(walk, src) && i <= |walk|
    requires !MoveAll(files, src, out, walk[..i]).1
    ensures MoveAll(files, src, out, walk) == MoveAll(files, src, out, walk[..i])
    decreases |walk| - i
  {
    if i < |walk| {
      assert walk[..i + 1][..i] == walk[..i];
      MoveAllStops(files, src, out, walk, i + 1);
    } else {
      assert walk[..i] == walk;
    }
  }

  lemma {:induction false} MoveFilesStops(files: Tree, from: Path, to: Path, names: seq<string>, j: nat)
    requires j <= |names|
    requires !MoveFiles(files, from, to, names[..j]).1
    ensures MoveFiles(files, from, to, names) == MoveFiles(files, from, to, names[..j])
    decreases |names| - j
  {
    if j < |names| {
      assert names[..j + 1][..j] == names[..j];
      MoveFilesStops(files, from, to, names, j + 1);
    } else {
      assert names[..j] == names;
    }
  }

  // ---------------------------------------------------------------------------
  // What move_outputs promises
  // ---------------------------------------------------------------------------

  /** No file is also a directory holding other files. */
  predicate WellFormed(files: Tree) {
    forall p, q | p in files && q in files :: !Under(q, p)
  }

  /** Every file below `<out>/<bids>` has a free place below `out`: its
      first component there is not `bids` (so its place is not back inside
      `<out>/<bids>`), and no file lies below or above that place. */
  predicate FreeTargets(files: Tree, out: Path, bids: string) {
    forall s | s in files && Under(s, out + [bids]) ::
      && s[|out| + 1] != bids
      && !IsDir(files, Rebase(s, out + [bids], out))
      && !Blocked(files, Rebase(s, out + [bids], out))
  }

  /** The files named by the first `j` names of a listing. */
  function EntryPaths(e: Listing, j: nat): set<Path>
    requires j <= |e.names|
  {
    set k | 0 <= k < j :: e.root + [e.names[k]]
  }

  /** The files named by the first `i` listings of a walk. */
  function WalkPaths(walk: seq<Listing>, i: nat): set<Path>
    requires i <= |walk|
  {
    if i == 0 then {} else WalkPaths(walk, i - 1) + EntryPaths(walk[i - 1], |walk[i - 1].names|)
  }

  /** Each directory is listed once and each name once in its listing, as
      `os.walk` does. */
  predicate ListsOnce(walk: seq<Listing>) {
    && (forall i, j | 0 <= i < j < |walk| :: walk[i].root != walk[j].root)
    && (forall i, k, l | 0 <= i < |walk| && 0 <= k < l < |walk[i].names| :: walk[i].names[k] != walk[i].names[l])
  }

  /** Bottom-up order: every file below a listed subdirectory was listed
      before the directory holding it. */
  predicate BottomUp(files: Tree, walk: seq<Listing>) {
    forall i, k, p | 0 <= i < |walk| && 0 <= k < |walk[i].dirs| && p in files && Under(p, walk[i].root + [walk[i].dirs[k]]) ::
      p in WalkPaths(walk, i)
  }

  /** The walk lists exactly the files below `src`, each once, bottom-up. */
  predicate WalksTree(files: Tree, src: Path, walk: seq<Listing>) {
    && InSrc(walk, src) && ListsOnce(walk) && BottomUp(files, walk)
    && WalkPaths(walk, |walk|) == Below(files, src)
  }

  /** On a well-formed tree whose outputs have free places below `out`, the
      walk ends with every file below `<out>/<bids>` at the same relative
      path below `out` (replacing a file there), every other file in place,
      and `<out>/<bids>` empty, so that its removal succeeds. */
  lemma MoveOutputsRelocates(files: Tree, out: Path, bids: string, walk: seq<Listing>)
    requires WalksTree(files, out + [bids], walk)
    requires WellFormed(files) && FreeTargets(files, out, bids)
    ensures MovedOutputs(files, out, bids, walk) == (Relocate(files, out + [bids], out), true)
    ensures var r := MovedOutputs(files, out, bids, walk).0;
      && (forall p | p in files && Under(p, out + [bids]) ::
            Rebase(p, out + [bids], out) in r && r[Rebase(p, out + [bids], out)] == files[p])
      && !IsDir(r, out + [bids])
  {
    var src := out + [bids];
    WalkSteps(files, out, bids, walk, |walk|);
    assert walk[..|walk|] == walk;
    var r := Relocate(files, src, out);
    RelocatedOnly(files, Below(files, src), src, out);
    RelocatedCarries(files, Below(files, src), src, out);
    forall q | q in r
      ensures !Under(q, src)
    {
      if Under(q, out) && Rebase(q, out, src) in Below(files, src) {
        TargetOutside(files, out, bids, Rebase(q, out, src));
        RebaseBack(Rebase(q, out, src), src, out);
      }
    }
  }

  /** After `i` listings the walk has carried exactly the files they name. */
  lemma {:induction false} WalkSteps(files: Tree, out: Path, bids: string, walk: seq<Listing>, i: nat)
    requires WalksTree(files, out + [bids], walk) && i <= |walk|
    requires WellFormed(files) && FreeTargets(files, out, bids)
    ensures BelowAll(WalkPaths(walk, i), files, out + [bids])
    ensures MoveAll(files, out + [bids], out, walk[..i]) == (Relocated(files, WalkPaths(walk, i), out + [bids], out), true)
    decreases i
  {
    if i == 0 {
      assert walk[..0] == [];
      RelocatedNone(files, out + [bids], out);
    } else {
      WalkSteps(files, out, bids, walk, i - 1);
      WalkStep(files, out, bids, walk, i - 1);
    }
  }

  /** One more listing: its files carried, then its subdirectories found
      empty. */
  lemma WalkStep(files: Tree, out: Path, bids: string, walk: seq<Listing>, i: nat)
    requires WalksTree(files, out + [bids], walk) && i < |walk|
    requires WellFormed(files) && FreeTargets(files, out, bids)
    requires BelowAll(WalkPaths(walk, i), files, out + [bids])
    requires MoveAll(files, out + [bids], out, walk[..i]) == (Relocated(files, WalkPaths(walk, i), out + [bids], out), true)
    ensures BelowAll(WalkPaths(walk, i + 1), files, out + [bids])
    ensures MoveAll(files, out + [bids], out, walk[..i + 1]) == (Relocated(files, WalkPaths(walk, i + 1), out + [bids], out), true)
  {
    assert walk[..i + 1][..i] == walk[..i];
    var e := walk[i];
    var done := WalkPaths(walk, i);
    NewListing(walk, i);
    WalkPathsGrow(walk, i, |walk|);
    EntryFiles(files, out, bids, done, e, |e.names|);
    assert e.names[..|e.names|] == e.names;
    SubdirsLeft(files, out, bids, walk, i);
  }

  /** Once a directory's files are carried, its listed subdirectories hold
      nothing. */
  lemma SubdirsLeft(files: Tree, out: Path, bids: string, walk: seq<Listing>, i: nat)
    requires WalksTree(files, out + [bids], walk) && i < |walk|
    requires FreeTargets(files, out, bids)
    requires BelowAll(WalkPaths(walk, i + 1), files, out + [bids])
    ensures SubdirsEmpty(Relocated(files, WalkPaths(walk, i + 1), out + [bids], out), walk[i].root, walk[i].dirs)
  {
    forall k | 0 <= k < |walk[i].dirs|
      ensures !IsDir(Relocated(files, WalkPaths(walk, i + 1), out + [bids], out), walk[i].root + [walk[i].dirs[k]])
    {
      SubdirLeft(files, out, bids, walk, i, k);
    }
  }

  lemma SubdirLeft(files: Tree, out: Path, bids: string, walk: seq<Listing>, i: nat, k: nat)
    requires WalksTree(files, out + [bids], walk) && i < |walk| && k < |walk[i].dirs|
    requires FreeTargets(files, out, bids)
    requires BelowAll(WalkPaths(walk, i + 1), files, out + [bids])
    ensures !IsDir(Relocated(files, WalkPaths(walk, i + 1), out + [bids], out), walk[i].root + [walk[i].dirs[k]])
  {
    var src := out + [bids];
    var done := WalkPaths(walk, i + 1);
    var r := Relocated(files, done, src, out);
    var d := walk[i].root + [walk[i].dirs[k]];
    assert d[..|src|] == src;
    forall q | q in r && Under(q, d)
      ensures false
    {
      RelocatedAt(files, done, src, out, q);
      assert Under(q, src);
      if Carried(q, done, src, out) {
        var s := Rebase(q, out, src);
        RebaseBack(s, src, out);
        TargetOutside(files, out, bids, s);
      }
    }
  }

  /** The files of a listing, carried one by one. */
  lemma {:induction false} EntryFiles(files: Tree, out: Path, bids: string, done: set<Path>, e: Listing, j: nat)
    requires WellFormed(files) && FreeTargets(files, out, bids) && BelowAll(done, files, out + [bids])
    requires |out + [bids]| <= |e.root| && j <= |e.names|
    requires forall k, l | 0 <= k < l < |e.names| :: e.names[k] != e.names[l]
    requires EntryPaths(e, |e.names|) <= Below(files, out + [bids])
    requires forall k | 0 <= k < |e.names| :: e.root + [e.names[k]] !in done
    ensures BelowAll(done + EntryPaths(e, j), files, out + [bids])
    ensures MoveFiles(Relocated(files, done, out + [bids], out), e.root, Rebase(e.root, out + [bids], out), e.names[..j])
         == (Relocated(files, done + EntryPaths(e, j), out + [bids], out), true)
    decreases j
  {
    if j == 0 {
      assert e.names[..0] == [];
      assert done + EntryPaths(e, 0) == done;
    } else {
      EntryFiles(files, out, bids, done, e, j - 1);
      EntryFileStep(files, out, bids, done, e, j - 1);
    }
  }

  lemma EntryFileStep(files: Tree, out: Path, bids: string, done: set<Path>, e: Listing, j: nat)
    requires WellFormed(files) && FreeTargets(files, out, bids)
    requires |out + [bids]| <= |e.root| && j < |e.names|
    requires forall k, l | 0 <= k < l < |e.names| :: e.names[k] != e.names[l]
    requires EntryPaths(e, |e.names|) <= Below(files, out + [bids])
    requires forall k | 0 <= k < |e.names| :: e.root + [e.names[k]] !in done
    requires BelowAll(done + EntryPaths(e, j), files, out + [bids])
    requires MoveFiles(Relocated(files, done, out + [bids], out), e.root, Rebase(e.root, out + [bids], out), e.names[..j])
         == (Relocated(files, done + EntryPaths(e, j), out + [bids], out), true)
    ensures BelowAll(done + EntryPaths(e, j + 1), files, out + [bids])
    ensures MoveFiles(Relocated(files, done, out + [bids], out), e.root, Rebase(e.root, out + [bids], out), e.names[..j + 1])
         == (Relocated(files, done + EntryPaths(e, j + 1), out + [bids], out), true)
  {
    var src := out + [bids];
    var f := e.names[j];
    var s := e.root + [f];
    var before := done + EntryPaths(e, j);
    var after := done + EntryPaths(e, j + 1);
    EntryPathsNext(e, j);
    assert after == before + {s};
    assert s in Below(files, src);
    assert s !in done;
    RebaseSnoc(e.root, f, src, out);
    MoveNextName(files, out, bids, done, before, s, e.root, Rebase(e.root, src, out), e.names, j);
  }

  lemma RebaseSnoc(root: Path, f: string, src: Path, dst: Path)
    requires |src| <= |root|
    ensures Rebase(root, src, dst) + [f] == Rebase(root + [f], src, dst)
  {
    assert (root + [f])[|src|..] == root[|src|..] + [f];
  }

  /** One more name of a listing is one more file carried. */
  lemma MoveNextName(files: Tree, out: Path, bids: string, done: set<Path>, before: set<Path>, s: Path,
                     from: Path, to: Path, names: seq<string>, j: nat)
    requires WellFormed(files) && FreeTargets(files, out, bids)
    requires BelowAll(done, files, out + [bids]) && BelowAll(before, files, out + [bids])
    requires s in files && Under(s, out + [bids]) && s !in before
    requires j < |names| && s == from + [names[j]] && to + [names[j]] == Rebase(s, out + [bids], out)
    requires MoveFiles(Relocated(files, done, out + [bids], out), from, to, names[..j])
         == (Relocated(files, before, out + [bids], out), true)
    ensures BelowAll(before + {s}, files, out + [bids])
    ensures MoveFiles(Relocated(files, done, out + [bids], out), from, to, names[..j + 1])
         == (Relocated(files, before + {s}, out + [bids], out), true)
  {
    var src := out + [bids];
    OneMove(files, out, bids, before, s);
    MoveFilesSnoc(Relocated(files, done, src, out), from, to, names, j,
                  Relocated(files, before, src, out), Relocated(files, before + {s}, src, out));
  }

  lemma MoveFilesSnoc(files: Tree, from: Path, to: Path, names: seq<string>, j: nat, g: Tree, h: Tree)
    requires j < |names|
    requires MoveFiles(files, from, to, names[..j]) == (g, true)
    requires RenameFile(g, from + [names[j]], to + [names[j]]) == Some(h)
    ensures MoveFiles(files, from, to, names[..j + 1]) == (h, true)
  {
    assert names[..j + 1][..j] == names[..j];
  }

  lemma EntryPathsNext(e: Listing, j: nat)
    requires j < |e.names|
    requires forall k, l | 0 <= k < l < |e.names| :: e.names[k] != e.names[l]
    ensures EntryPaths(e, j + 1) == EntryPaths(e, j) + {e.root + [e.names[j]]}
    ensures e.root + [e.names[j]] in EntryPaths(e, |e.names|)
    ensures e.root + [e.names[j]] !in EntryPaths(e, j)
  {
    forall k | 0 <= k < j
      ensures e.root + [e.names[k]] != e.root + [e.names[j]]
    {
      assert (e.root + [e.names[k]])[|e.root|] == e.names[k];
    }
  }

  /** The files of the next listing have not been carried yet. */
  lemma NewListing(walk: seq<Listing>, i: nat)
    requires ListsOnce(walk) && i < |walk|
    ensures forall k | 0 <= k < |walk[i].names| :: walk[i].root + [walk[i].names[k]] !in WalkPaths(walk, i)
  {
    forall k | 0 <= k < |walk[i].names|
      ensures walk[i].root + [walk[i].names[k]] !in WalkPaths(walk, i)
    {
      var p := walk[i].root + [walk[i].names[k]];
      if p in WalkPaths(walk, i) {
        var j, l := ListedAt(walk, i, p);
        SameParent(walk[j].root, walk[j].names[l], walk[i].root, walk[i].names[k]);
      }
    }
  }

  lemma SameParent(a: Path, x: string, b: Path, y: string)
    requires a + [x] == b + [y]
    ensures a == b
  {
    assert a == (a + [x])[..|a|];
    assert b == (b + [y])[..|b|];
  }

  /** Where a path in the first `i` listings comes from. */
  lemma {:induction false} ListedAt(walk: seq<Listing>, i: nat, p: Path) returns (j: nat, l: nat)
    requires i <= |walk| && p in WalkPaths(walk, i)
    ensures j < i && l < |walk[j].names| && p == walk[j].root + [walk[j].names[l]]
    decreases i
  {
    if p in WalkPaths(walk, i - 1) {
      j, l := ListedAt(walk, i - 1, p);
    } else {
      j := i - 1;
      l :| 0 <= l < |walk[j].names| && p == walk[j].root + [walk[j].names[l]];
    }
  }

  lemma {:induction false} WalkPathsGrow(walk: seq<Listing>, i: nat, n: nat)
    requires i <= n <= |walk|
    ensures WalkPaths(walk, i) <= WalkPaths(walk, n)
    ensures i < n ==> EntryPaths(walk[i], |walk[i].names|) <= WalkPaths(walk, n)
    decreases n - i
  {
    if i < n {
      WalkPathsGrow(walk, i + 1, n);
    }
  }

  /** The place of an output below `out` is outside `<out>/<bids>`. */
  lemma TargetOutside(files: Tree, out: Path, bids: string, s: Path)
    requires FreeTargets(files, out, bids) && s in files && Under(s, out + [bids])
    ensures var t := Rebase(s, out + [bids], out); t != out + [bids] && !Under(t, out + [bids])
    ensures forall d: Path | Under(d, out + [bids]) :: !Under(d, Rebase(s, out + [bids], out))
  {
    var src := out + [bids];
    var t := Rebase(s, src, out);
    assert t[|out|] == s[|out| + 1];

  }

  lemma RebaseReflects(p: Path, q: Path, src: Path, dst: Path)
    requires Under(p, src) && Under(q, src)
    requires Under(Rebase(p, src, dst), Rebase(q, src, dst))
    ensures Under(p, q)
  {
    var rp := Rebase(p, src, dst);
    var rq := Rebase(q, src, dst);
    assert p == src + rp[|dst|..] by { RebaseBack(p, src, dst); }
    assert q == src + rq[|dst|..] by { RebaseBack(q, src, dst); }
    assert rq == rp[..|rq|];
    assert q == p[..|q|];
  }

  /** A file not yet moved is still in place: the carried files all lie
      outside `<out>/<bids>`. */
  lemma StillInPlace(files: Tree, out: Path, bids: string, moved: set<Path>, s: Path)
    requires FreeTargets(files, out, bids) && BelowAll(moved, files, out + [bids])
    requires s in files && Under(s, out + [bids]) && s !in moved
    ensures !Carried(s, moved, out + [bids], out) && Rebase(s, out + [bids], out) != s
  {
    var src := out + [bids];
    TargetOutside(files, out, bids, s);
    if Carried(s, moved, src, out) {
      var d := Rebase(s, out, src);
      RebaseBack(s, out, src);
      TargetOutside(files, out, bids, d);
    }
  }

  /** The place of a file not yet moved is not a directory. */
  lemma TargetNotDir(files: Tree, out: Path, bids: string, moved: set<Path>, s: Path)
    requires WellFormed(files) && FreeTargets(files, out, bids) && BelowAll(moved, files, out + [bids])
    requires s in files && Under(s, out + [bids])
    ensures !IsDir(Relocated(files, moved, out + [bids], out), Rebase(s, out + [bids], out))
  {
    var src := out + [bids];
    var t := Rebase(s, src, out);
    var r := Relocated(files, moved, src, out);
    RelocatedOnly(files, moved, src, out);
    TargetOutside(files, out, bids, s);
    forall q | q in r
      ensures !Under(q, t)
    {
      if q !in files || q in moved {
        var d := Rebase(q, out, src);
        RebaseBack(d, src, out);
        if Under(q, t) {
          RebaseReflects(d, s, src, out);
        }
      }
    }
  }

  /** No ancestor of the place of a file not yet moved is a file. */
  lemma TargetNotBlocked(files: Tree, out: Path, bids: string, moved: set<Path>, s: Path)
    requires WellFormed(files) && FreeTargets(files, out, bids) && BelowAll(moved, files, out + [bids])
    requires s in files && Under(s, out + [bids])
    ensures !Blocked(Relocated(files, moved, out + [bids], out), Rebase(s, out + [bids], out))
  {
    var src := out + [bids];
    var t := Rebase(s, src, out);
    var r := Relocated(files, moved, src, out);
    RelocatedOnly(files, moved, src, out);
    forall k | 1 <= k < |t| && t[..k] in r
      ensures false
    {
      var q := t[..k];
      if !(q in files && q !in moved) {
        var d := Rebase(q, out, src);
        RebaseBack(d, src, out);
        assert Under(t, q);
        RebaseReflects(s, d, src, out);
      }
    }
  }

  /** Renaming the next file of the walk carries it to its place. */
  lemma OneMove(files: Tree, out: Path, bids: string, moved: set<Path>, s: Path)
    requires WellFormed(files) && FreeTargets(files, out, bids) && BelowAll(moved, files, out + [bids])
    requires s in files && Under(s, out + [bids]) && s !in moved
    ensures BelowAll(moved + {s}, files, out + [bids])
    ensures RenameFile(Relocated(files, moved, out + [bids], out), s, Rebase(s, out + [bids], out))
         == Some(Relocated(files, moved + {s}, out + [bids], out))
  {
    var src := out + [bids];
    var r := Relocated(files, moved, src, out);
    var t := Rebase(s, src, out);
    StillInPlace(files, out, bids, moved, s);
    RelocatedAt(files, moved, src, out, s);
    TargetNotDir(files, out, bids, moved, s);
    TargetNotBlocked(files, out, bids, moved, s);
    assert RenameFile(r, s, t) == Some((r - {s})[t := files[s]]);
    MoveOneMore(files, src, out, moved, s);
  }

  /** Carrying one more file is one rename of the relocated tree. */
  lemma MoveOneMore(files: Tree, src: Path, out: Path, moved: set<Path>, s: Path)
    requires BelowAll(moved, files, src) && s in files && Under(s, src) && s !in moved
    requires Rebase(s, src, out) != s
    requires !Carried(s, moved, src, out)
    ensures (Relocated(files, moved, src, out) - {s})[Rebase(s, src, out) := files[s]]
         == Relocated(files, moved + {s}, src, out)
  {
    var t := Rebase(s, src, out);
    var r := Relocated(files, moved, src, out);
    var lhs := (r - {s})[t := files[s]];
    var rhs := Relocated(files, moved + {s}, src, out);
    forall q
      ensures (q in lhs <==> q in rhs) && (q in lhs ==> lhs[q] == rhs[q])
    {
      RelocatedAt(files, moved, src, out, q);
      RelocatedAt(files, moved + {s}, src, out, q);
      if q == t {
        RebaseBack(s, src, out);
      } else {
        NotCarriedOne(q, s, moved, src, out);
      }
    }
    assert lhs == rhs;
  }

  lemma NotCarriedOne(q: Path, s: Path, moved: set<Path>, src: Path, out: Path)
    requires Under(s, src) && q != Rebase(s, src, out)
    ensures Carried(q, moved + {s}, src, out) == Carried(q, moved, src, out)
  {
    if Under(q, out) && Rebase(q, out, src) == s {
      RebaseBack(q, out, src);
    }
  }

  // ---------------------------------------------------------------------------
  // The tree, updated in place
  // ---------------------------------------------------------------------------

  class OutputTree {
    var files: Tree

    constructor (initial: Tree)
      ensures files == initial
    {
      files := initial;
    }

    /** `rename_outputs`, given the listings of its top-down walk. */
    method RenameOutputs(walk: seq<Listing>, spark: string, bids: string) returns (ok: bool)
      requires Rooted(walk)
      modifies this
      ensures (files, ok) == RenameAll(old(files), walk, spark, bids)
    {
      var i := 0;
      while i < |walk|
        invariant 0 <= i <= |walk|
        invariant (files, true) == RenameAll(old(files), walk[..i], spark, bids)
      {
        assert walk[..i + 1][..i] == walk[..i];
        var e := walk[i];
        if IsDir(files, e.root) {
          ghost var start := files;
          var renameRoot := false;
          var j := 0;
          while j < |e.names|
            invariant 0 <= j <= |e.names|
            invariant Sweep(files, renameRoot, true) == RenameFiles(start, e.root, e.names[..j], spark, bids)
          {
            assert e.names[..j + 1][..j] == e.names[..j];
            var name := e.names[j];
            if Matches(name, spark) {
              var moved := MoveFile(files, e.root + [name], e.root + [NewName(name, spark, bids)]);
              if moved.None? {
                RenameFilesStops(start, e.root, e.names, j + 1, spark, bids);
                RenameAllStops(old(files), walk, i + 1, spark, bids);
                return false;
              }
              files := moved.value;
              renameRoot := true;
            }
            j := j + 1;
          }
          assert e.names[..j] == e.names;
          if renameRoot && Last(e.root) == spark {
            var moved := MoveDir(files, e.root, Parent(e.root) + [bids]);
            if moved.None? {
              RenameAllStops(old(files), walk, i + 1, spark, bids);
              return false;
            }
            files := moved.value;
          }
        }
        i := i + 1;
      }
      assert walk[..i] == walk;
      ok := true;
    }
  
    /** `move_outputs`, given the listings of its bottom-up walk over
        `<out>/<bids>`. Directories are created on demand, so `makedirs`
        has nothing to do. */
    method MoveOutputs(out: Path, bids: string, walk: seq<Listing>) returns (ok: bool)
      requires InSrc(walk, out + [bids])
      modifies this
      ensures (files, ok) == MovedOutputs(old(files), out, bids, walk)
    {
      var src := out + [bids];
      var i := 0;
      while i < |walk|
        invariant 0 <= i <= |walk|
        invariant (files, true) == MoveAll(old(files), src, out, walk[..i])
      {
        assert walk[..i + 1][..i] == walk[..i];
        ok := MoveEntryIn(src, out, walk[i]);
        if !ok {
          MoveAllStops(old(files), src, out, walk, i + 1);
          return;
        }
        i := i + 1;
      }
      assert walk[..i] == walk;
      ok := !IsDir(files, src);
    }

    /** One directory of the walk: its files renamed, then its
        subdirectories removed. */
    method MoveEntryIn(src: Path, out: Path, e: Listing) returns (ok: bool)
      requires |src| <= |e.root|
      modifies this
      ensures (files, ok) == MoveEntry(old(files), src, out, e)
    {
      ok := MoveFilesIn(e.root, Rebase(e.root, src, out), e.names);
      if ok {
        ok := CanRemoveSubdirs(e.root, e.dirs);
      }
    }

    method MoveFilesIn(from: Path, to: Path, names: seq<string>) returns (ok: bool)
      modifies this
      ensures (files, ok) == MoveFiles(old(files), from, to, names)
    {
      var j := 0;
      while j < |names|
        invariant 0 <= j <= |names|
        invariant (files, true) == MoveFiles(old(files), from, to, names[..j])
      {
        assert names[..j + 1][..j] == names[..j];
        var f := names[j];
        var moved := RenameFile(files, from + [f], to + [f]);
        if moved.None? {
          MoveFilesStops(old(files), from, to, names, j + 1);
          return false;
        }
        files := moved.value;
        j := j + 1;
      }
      assert names[..j] == names;
      ok := true;
    }

    /** The `os.rmdir` loop over the listed subdirectories, which stops at
        the first one still holding a file. */
    method CanRemoveSubdirs(root: Path, dirs: seq<string>) returns (ok: bool)
      ensures ok == SubdirsEmpty(files, root, dirs)
    {
      var k := 0;
      while k < |dirs|
        invariant 0 <= k <= |dirs|
        invariant forall l | 0 <= l < k :: !IsDir(files, root + [dirs[l]])
      {
        if IsDir(files, root + [dirs[k]]) {
          return false;
        }
        k := k + 1;
      }
      ok := true;
    }
  }
}
