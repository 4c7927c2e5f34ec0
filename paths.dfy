/** POSIX path helpers as `os.path` computes them on strings (`posixpath`):
    nothing here touches a file system. */
module Paths {
  import opened Strings

  const Sep: char := '/'

  /** A path from the root. */
  predicate IsAbsolute(p: string) {
    |p| >= 1 && p[0] == Sep
  }

  /** What `os.path.abspath` guarantees of every result: it joins a relative
      path to the working directory, which is itself absolute. */
  ghost predicate AbsPathRooted(absPath: string -> string) {
    forall s :: IsAbsolute(absPath(s))
  }

  /** `os.sep.join(parts)` */
  function JoinPath(parts: seq<string>): string {
    Join(parts, "/")
  }

  lemma JoinPath2(a: string, b: string)
    ensures JoinPath([a, b]) == a + "/" + b
  {
    assert [a, b][1..] == [b];
    assert Join([b], "/") == b;
    assert Join([a, b], "/") == a + "/" + b;
  }

  lemma JoinPath4(a: string, b: string, c: string, d: string)
    ensures JoinPath([a, b, c, d]) == a + "/" + b + "/" + c + "/" + d
  {
    assert [a, b, c, d][1..] == [b, c, d];
    assert [b, c, d][1..] == [c, d];
    assert [c, d][1..] == [d];
    assert Join([d], "/") == d;
    assert Join([c, d], "/") == c + "/" + d;
    assert Join([b, c, d], "/") == b + "/" + c + "/" + d;
  }

  /** `os.path.basename(p)`: everything after the last separator. */
  function Basename(p: string): (r: string)
    ensures Sep !in r
    ensures EndsWith(p, r)
    ensures LastIndexOf(p, Sep) == -1 ==> r == p
  {
    var i := LastIndexOf(p, Sep);
    p[i + 1..]
  }

  /** `os.path.dirname(p)`: everything up to the last separator, with the
      trailing separators removed unless the head is made of separators only. */
  function Dirname(p: string): (r: string)
    ensures StartsWith(p, r)
  {
    var head := p[..LastIndexOf(p, Sep) + 1];
    if head != [] && exists k :: 0 <= k < |head| && head[k] != Sep then TrimSeps(head) else head
  }

  /** `head.rstrip('/')` */
  function TrimSeps(s: string): (r: string)
    ensures StartsWith(s, r)
    ensures r == [] || r[|r| - 1] != Sep
    ensures (exists k :: 0 <= k < |s| && s[k] != Sep) ==> r != []
  {
    if s == [] then []
    else if s[|s| - 1] == Sep then
      assert forall k :: 0 <= k < |s| - 1 ==> s[..|s| - 1][k] == s[k];
      TrimSeps(s[..|s| - 1])
    else s
  }

  /** The base name of a path joined onto a directory is that name. */
  lemma BasenameOfJoin(dir: string, name: string)
    requires Sep !in name
    ensures Basename(dir + [Sep] + name) == name
  {
    var p := dir + [Sep] + name;
    assert p[|dir|] == Sep;
    assert forall k :: |dir| < k < |p| ==> p[k] == name[k - |dir| - 1];
    assert LastIndexOf(p, Sep) == |dir|;
    assert p[|dir| + 1..] == name;
  }

  /** The directory part of a path joined from a directory and a name. */
  lemma DirnameOfJoin(dir: string, name: string)
    requires Sep !in name
    requires dir != [] && dir[|dir| - 1] != Sep
    ensures Dirname(dir + [Sep] + name) == dir
  {
    var p := dir + [Sep] + name;
    assert p[|dir|] == Sep;
    assert forall k :: |dir| < k < |p| ==> p[k] == name[k - |dir| - 1];
    assert LastIndexOf(p, Sep) == |dir|;
    var head := p[..|dir| + 1];
    assert head == dir + [Sep];
    assert head[|dir| - 1] != Sep;
    assert head[..|head| - 1] == dir;
    assert TrimSeps(dir) == dir;
    assert TrimSeps(head) == dir;
  }

  // ---------------------------------------------------------------------------
  // os.path.splitext
  // ---------------------------------------------------------------------------

  /** The part of `p` after its last separator holds a non-dot character
      before position `dot`: `splitext` only splits on a dot that does not
      just end a run of leading dots. */
  predicate HasStemBefore(p: string, sep: int, dot: int)
    requires -1 <= sep < dot <= |p|
  {
    exists k :: sep + 1 <= k < dot && p[k] != '.'
  }

  /** `os.path.splitext(p)` as (root, extension). */
  function SplitExt(p: string): (r: (string, string))
    ensures r.0 + r.1 == p
    ensures r.1 == [] || r.1[0] == '.'
  {
    var sep := LastIndexOf(p, Sep);
    var dot := LastIndexOf(p, '.');
    if dot > sep && HasStemBefore(p, sep, dot) then
      assert p[..dot] + p[dot..] == p;
      (p[..dot], p[dot..])
    else
      (p, [])
  }

  /** A name with a non-dot character, followed by an extension made of a dot
      and characters that are neither dots nor separators, splits there. */
  lemma SplitExtOfName(name: string, ext: string)
    requires Sep !in name
    requires exists k :: 0 <= k < |name| && name[k] != '.'
    requires Sep !in ext && '.' !in ext
    ensures SplitExt(name + "." + ext) == (name, "." + ext)
  {
    var p := name + "." + ext;
    var dot := |name|;
    assert p[dot] == '.';
    assert forall k :: dot < k < |p| ==> p[k] == ext[k - dot - 1];
    assert LastIndexOf(p, '.') == dot;
    assert forall k :: 0 <= k < |p| ==> p[k] != Sep by {
      forall k | 0 <= k < |p| ensures p[k] != Sep {
        if k < |name| { assert p[k] == name[k]; }
        else if k > |name| { assert p[k] == ext[k - |name| - 1]; }
      }
    }
    assert LastIndexOf(p, Sep) == -1;
    var k :| 0 <= k < |name| && name[k] != '.';
    assert p[k] == name[k];
    assert HasStemBefore(p, -1, dot);
    assert p[..dot] == name;
    assert p[dot..] == "." + ext;
  }
}
