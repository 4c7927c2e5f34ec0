/** The Python `str` operations the handlers rely on, on `seq<char>`:
    `split`, `join`, `startswith`, `endswith`, `str(int)`, iteration over the
    lines of a text file, and the two regular-expression substitutions the
    handlers perform (`re.sub(r'\W+', '_', s)` and a literal `re.sub`). */
module Strings {

  // ---------------------------------------------------------------------------
  // Prefixes, suffixes, searching
  // ---------------------------------------------------------------------------

  /** `s.startswith(p)` */
  predicate StartsWith(s: string, p: string) {
    |p| <= |s| && s[..|p|] == p
  }

  /** `s.endswith(p)` */
  predicate EndsWith(s: string, p: string) {
    |p| <= |s| && s[|s| - |p|..] == p
  }

  /** `p` occurs in `s` at position `i`. */
  predicate OccursAt(s: string, p: string, i: int) {
    0 <= i && i + |p| <= |s| && s[i..i + |p|] == p
  }

  /** Index of the first `c` in `s`, or `|s|` when there is none. */
  function IndexOf(s: string, c: char): (r: nat)
    ensures r <= |s|
    ensures r < |s| ==> s[r] == c
  {
    IndexFrom(s, c, 0)
  }

  /** Index of the first `c` in `s` at or after `k`, or `|s|`. */
  function IndexFrom(s: string, c: char, k: nat): (r: nat)
    requires k <= |s|
    ensures k <= r <= |s|
    ensures r < |s| ==> s[r] == c
    decreases |s| - k
  {
    if k == |s| then |s| else if s[k] == c then k else IndexFrom(s, c, k + 1)
  }

  lemma {:induction false} IndexFromFirst(s: string, c: char, k: nat)
    requires k <= |s|
    ensures forall j :: k <= j < IndexFrom(s, c, k) ==> s[j] != c
    decreases |s| - k
  {
    if k < |s| && s[k] != c {
      IndexFromFirst(s, c, k + 1);
    }
  }

  /** No `c` comes before the index `IndexOf` finds. */
  lemma IndexOfFirst(s: string, c: char)
    ensures c !in s[..IndexOf(s, c)]
  {
    IndexFromFirst(s, c, 0);
    var i := IndexOf(s, c);
    assert forall j :: 0 <= j < i ==> s[..i][j] == s[j];
  }

  lemma {:induction false} IndexFromIs(s: string, c: char, k: nat, i: nat)
    requires k <= i <= |s|
    requires forall j :: k <= j < i ==> s[j] != c
    requires i < |s| ==> s[i] == c
    ensures IndexFrom(s, c, k) == i
    decreases i - k
  {
    if k < i {
      IndexFromIs(s, c, k + 1, i);
    }
  }

  /** `IndexOf` finds the first `c`: a position before which there is no
      `c` and which holds `c` or is the end. */
  lemma IndexOfIs(s: string, c: char, i: nat)
    requires i <= |s| && c !in s[..i]
    requires i < |s| ==> s[i] == c
    ensures IndexOf(s, c) == i
  {
    assert forall j :: 0 <= j < i ==> s[j] == s[..i][j];
    IndexFromIs(s, c, 0, i);
  }

  /** Searching a text that does not start with `c` is searching its tail. */
  lemma IndexOfTail(s: string, c: char)
    requires s != [] && s[0] != c
    ensures IndexOf(s, c) == 1 + IndexOf(s[1..], c)
  {
    var i := IndexOf(s[1..], c);
    IndexOfFirst(s[1..], c);
    assert s[..1 + i] == [s[0]] + s[1..][..i];
    IndexOfIs(s, c, 1 + i);
  }

  /** A text without `c` is searched to its end. */
  lemma IndexOfAbsent(s: string, c: char)
    requires c !in s
    ensures IndexOf(s, c) == |s|
  {
  }

  /** The first `c` of a text that holds one is the first `c` of any
      extension of it; otherwise the extension's first `c` comes after it. */
  lemma IndexOfAppend(a: string, b: string, c: char)
    ensures IndexOf(a + b, c) == if IndexOf(a, c) < |a| then IndexOf(a, c) else |a| + IndexOf(b, c)
  {
    var s := a + b;
    var i := IndexOf(a, c);
    IndexOfFirst(a, c);
    if i < |a| {
      assert s[..i] == a[..i];
      IndexOfIs(s, c, i);
    } else {
      var k := IndexOf(b, c);
      IndexOfFirst(b, c);
      assert s[..|a| + k] == a + b[..k];
      IndexOfIs(s, c, |a| + k);
    }
  }

  /** `s.rfind(c)`: index of the last `c` in `s`, or -1. */
  function LastIndexOf(s: string, c: char): (r: int)
    ensures -1 <= r < |s|
    ensures forall j :: r < j < |s| ==> s[j] != c
    ensures r >= 0 ==> s[r] == c
  {
    if s == [] then -1
    else if s[|s| - 1] == c then |s| - 1
    else LastIndexOf(s[..|s| - 1], c)
  }

  // ---------------------------------------------------------------------------
  // split / join
  // ---------------------------------------------------------------------------

  /** `s.split(c)` for a one-character separator: the pieces between the
      separators, always at least one (`"".split("_") == [""]`). */
  function Split(s: string, c: char): (r: seq<string>)
    ensures |r| >= 1
    decreases |s|
  {
    var i := IndexOf(s, c);
    if i == |s| then [s] else [s[..i]] + Split(s[i + 1..], c)
  }

  /** Splitting at the first separator. */
  lemma SplitAt(s: string, c: char, i: nat)
    requires i < |s| && s[i] == c && c !in s[..i]
    ensures Split(s, c) == [s[..i]] + Split(s[i + 1..], c)
  {
    IndexOfIs(s, c, i);
  }

  /** No piece of a split holds the separator. */
  lemma {:induction false} SplitPieces(s: string, c: char)
    ensures forall i :: 0 <= i < |Split(s, c)| ==> c !in Split(s, c)[i]
    decreases |s|
  {
    var k := IndexOf(s, c);
    IndexOfFirst(s, c);
    if k < |s| {
      SplitPieces(s[k + 1..], c);
    }
  }

  /** `sep.join(parts)` */
  function Join(parts: seq<string>, sep: string): string {
    if |parts| == 0 then ""
    else if |parts| == 1 then parts[0]
    else parts[0] + sep + Join(parts[1..], sep)
  }

  /** Joining the pieces of a split with the separator gives back the text. */
  lemma {:induction false} JoinSplit(s: string, c: char)
    ensures Join(Split(s, c), [c]) == s
    decreases |s|
  {
    var i := IndexOf(s, c);
    IndexOfFirst(s, c);
    if i < |s| {
      SplitAt(s, c, i);
      var rest := Split(s[i + 1..], c);
      JoinSplit(s[i + 1..], c);
      JoinCons(s[..i], rest, [c]);
      assert s[..i] + [c] + s[i + 1..] == s;
    } else {
      SplitNoSeparator(s, c);
    }
  }

  lemma JoinCons(head: string, rest: seq<string>, sep: string)
    requires |rest| >= 1
    ensures Join([head] + rest, sep) == head + sep + Join(rest, sep)
  {
    assert ([head] + rest)[1..] == rest;
  }

  /** A join holds a character only if a piece or the separator does. */
  lemma {:induction false} JoinAvoids(parts: seq<string>, sep: string, c: char)
    requires c !in sep
    requires forall i :: 0 <= i < |parts| ==> c !in parts[i]
    ensures c !in Join(parts, sep)
  {
    if |parts| > 1 {
      JoinAvoids(parts[1..], sep, c);
    }
  }

  /** Splitting a join of separator-free pieces gives back the pieces. */
  lemma {:induction false} SplitJoin(parts: seq<string>, c: char)
    requires |parts| >= 1
    requires forall i :: 0 <= i < |parts| ==> c !in parts[i]
    ensures Split(Join(parts, [c]), c) == parts
  {
    if |parts| == 1 {
      SplitNoSeparator(parts[0], c);
    } else {
      SplitJoin(parts[1..], c);
      SplitAround(parts[0], Join(parts[1..], [c]), c);
      SplitNoSeparator(parts[0], c);
      assert [parts[0]] + parts[1..] == parts;
    }
  }

  /** A text without the separator splits into itself. */
  lemma SplitNoSeparator(s: string, c: char)
    requires c !in s
    ensures Split(s, c) == [s]
  {
    IndexOfAbsent(s, c);
  }

  /** A separator between two texts separates their pieces. */
  lemma {:induction false} SplitAround(a: string, b: string, c: char)
    ensures Split(a + [c] + b, c) == Split(a, c) + Split(b, c)
    decreases |a|
  {
    var i := IndexOf(a, c);
    IndexOfFirst(a, c);
    if i == |a| {
      SplitAroundFirst(a, b, c);
    } else {
      var tail := a[i + 1..];
      SplitAround(tail, b, c);
      SplitAtFirstOf(a, b, c, i);
      SplitAt(a, c, i);
      PrependAppend(Split(a + [c] + b, c), a[..i], Split(tail + [c] + b, c), Split(tail, c), Split(b, c), Split(a, c));
    }
  }

  /** The list identity behind `SplitAroundStep`. */
  lemma PrependAppend<T>(whole: seq<T>, head: T, inner: seq<T>, left: seq<T>, right: seq<T>, leftWhole: seq<T>)
    requires whole == [head] + inner
    requires inner == left + right
    requires leftWhole == [head] + left
    ensures whole == leftWhole + right
  {
  }

  /** The first separator of `a` is the first separator of `a + [c] + b`. */
  lemma SplitAtFirstOf(a: string, b: string, c: char, i: nat)
    requires i < |a| && a[i] == c && c !in a[..i]
    ensures Split(a + [c] + b, c) == [a[..i]] + Split(a[i + 1..] + [c] + b, c)
  {
    var s := a + [c] + b;
    assert s[..i] == a[..i];
    assert s[i + 1..] == a[i + 1..] + [c] + b;
    SplitAt(s, c, i);
  }

  /** The base case: the first piece is a text without the separator. */
  lemma SplitAroundFirst(a: string, b: string, c: char)
    requires c !in a
    ensures Split(a + [c] + b, c) == [a] + Split(b, c)
    ensures Split(a, c) == [a]
  {
    var s := a + [c] + b;
    assert s[..|a|] == a;
    assert s[|a| + 1..] == b;
    SplitAt(s, c, |a|);
    SplitNoSeparator(a, c);
  }

  // ---------------------------------------------------------------------------
  // str(int)
  // ---------------------------------------------------------------------------

  predicate IsDigit(ch: char) { '0' <= ch <= '9' }

  function DigitChar(d: nat): (ch: char)
    requires d < 10
    ensures IsDigit(ch)
  {
    ['0', '1', '2', '3', '4', '5', '6', '7', '8', '9'][d]
  }

  /** Decimal notation of a natural number, no leading zeros. */
  function NatToString(n: nat): (r: string)
    ensures |r| >= 1
    ensures forall i :: 0 <= i < |r| ==> IsDigit(r[i])
  {
    if n < 10 then [DigitChar(n)] else NatToString(n / 10) + [DigitChar(n % 10)]
  }

  /** `str(i)` for a Python `int`. */
  function IntToString(i: int): (r: string)
    ensures |r| >= 1
    ensures forall k :: 0 <= k < |r| ==> IsDigit(r[k]) || r[k] == '-'
  {
    if i < 0 then "-" + NatToString(-i) else NatToString(i)
  }

  /** Reads decimal digits back; the inverse of `NatToString`. */
  function ParseNat(s: string): nat
    requires forall i :: 0 <= i < |s| ==> IsDigit(s[i])
  {
    if s == [] then 0 else 10 * ParseNat(s[..|s| - 1]) + DigitValue(s[|s| - 1])
  }

  function DigitValue(ch: char): (d: nat)
    requires IsDigit(ch)
    ensures d < 10
  {
    assert '0' as int <= ch as int <= '9' as int;
    ch as int - '0' as int
  }

  lemma {:induction false} ParseNatToString(n: nat)
    ensures ParseNat(NatToString(n)) == n
  {
    if n >= 10 {
      var s := NatToString(n);
      ParseNatToString(n / 10);
      assert s[..|s| - 1] == NatToString(n / 10);
      var d := n % 10;
      assert DigitValue(DigitChar(d)) == d;
    } else {
      assert DigitValue(DigitChar(n)) == n;
    }
  }

  // ---------------------------------------------------------------------------
  // re.sub(r'\W+', '_', s) restricted to ASCII word characters
  // ---------------------------------------------------------------------------

  /** `\w` on ASCII: a letter, a digit or `_`. */
  predicate IsWordChar(ch: char) {
    'a' <= ch <= 'z' || 'A' <= ch <= 'Z' || '0' <= ch <= '9' || ch == '_'
  }

  predicate AllWordChars(s: string) {
    forall i :: 0 <= i < |s| ==> IsWordChar(s[i])
  }

  /** Replaces every maximal run of non-word characters by one `_`;
      `inRun` says the character before `s` was a non-word character. */
  function NormalizeFrom(s: string, inRun: bool): string
  {
    if s == [] then []
    else if IsWordChar(s[0]) then [s[0]] + NormalizeFrom(s[1..], false)
    else if inRun then NormalizeFrom(s[1..], true)
    else "_" + NormalizeFrom(s[1..], true)
  }

  /** `re.sub(r'\W+', '_', s)` */
  function Normalize(s: string): string {
    NormalizeFrom(s, false)
  }

  lemma {:induction false} NormalizeFromWordChars(s: string, inRun: bool)
    ensures AllWordChars(NormalizeFrom(s, inRun))
    ensures |NormalizeFrom(s, inRun)| <= |s|
  {
    if s != [] {
      NormalizeFromWordChars(s[1..], !IsWordChar(s[0]));
    }
  }

  lemma {:induction false} NormalizeFromKeepsWords(s: string, inRun: bool)
    requires AllWordChars(s)
    ensures NormalizeFrom(s, inRun) == s
  {
    if s != [] {
      NormalizeFromKeepsWords(s[1..], false);
      assert [s[0]] + s[1..] == s;
    }
  }

  /** The normalised text holds only word characters, is no longer than the
      input, and leaves a text of word characters as it is; so normalising
      twice changes nothing. */
  lemma NormalizeProperties(s: string)
    ensures AllWordChars(Normalize(s))
    ensures |Normalize(s)| <= |s|
    ensures AllWordChars(s) ==> Normalize(s) == s
    ensures Normalize(Normalize(s)) == Normalize(s)
  {
    NormalizeFromWordChars(s, false);
    if AllWordChars(s) {
      NormalizeFromKeepsWords(s, false);
    }
    NormalizeFromKeepsWords(Normalize(s), false);
  }

  /** A text that starts with a word character keeps it in front. */
  lemma NormalizeKeepsLeadingWord(s: string)
    requires |s| >= 1 && IsWordChar(s[0])
    ensures |Normalize(s)| >= 1 && Normalize(s)[0] == s[0]
  {
  }

  /** A leading run of word characters is copied as it is, and the text
      after it is normalised as if it started the text. */
  lemma {:induction false} NormalizeFromWordPrefix(w: string, x: string, inRun: bool)
    requires |w| >= 1 && AllWordChars(w)
    ensures NormalizeFrom(w + x, inRun) == w + NormalizeFrom(x, false)
    decreases |w|
  {
    var s := w + x;
    assert s[0] == w[0];
    assert s[1..] == w[1..] + x;
    if |w| > 1 {
      NormalizeFromWordPrefix(w[1..], x, false);
    } else {
      assert w[1..] + x == x;
    }
    assert [w[0]] + w[1..] == w;
  }

  /** A token `<tag>-...` whose tag is made of word characters normalises to
      `<tag>_...`: the dash is the first non-word run. */
  lemma NormalizeTag(tag: string, t: string)
    requires |tag| >= 1 && AllWordChars(tag)
    requires StartsWith(t, tag + "-")
    ensures StartsWith(Normalize(t), tag + "_")
    ensures AllWordChars(Normalize(t))
  {
    var rest := t[|tag| + 1..];
    assert t == tag + ("-" + rest);
    NormalizeFromWordPrefix(tag, "-" + rest, false);
    assert ("-" + rest)[1..] == rest;
    NormalizeFromWordChars(t, false);
  }

  // ---------------------------------------------------------------------------
  // re.sub with a literal pattern: every non-overlapping occurrence, left to right
  // ---------------------------------------------------------------------------

  predicate Occurs(s: string, p: string) {
    exists i :: 0 <= i <= |s| - |p| && OccursAt(s, p, i)
  }

  /** `re.sub(p, r, s)` for a pattern and a replacement without special
      characters: scans left to right, replacing each occurrence of `p` and
      resuming after it. */
  function ReplaceAll(s: string, p: string, r: string): string
    requires |p| > 0
    decreases |s|
  {
    if |s| < |p| then s
    else if s[..|p|] == p then r + ReplaceAll(s[|p|..], p, r)
    else [s[0]] + ReplaceAll(s[1..], p, r)
  }

  /** A text without the pattern is left unchanged. */
  lemma {:induction false} ReplaceAllAbsent(s: string, p: string, r: string)
    requires |p| > 0
    requires !Occurs(s, p)
    ensures ReplaceAll(s, p, r) == s
    decreases |s|
  {
    if |s| >= |p| {
      assert !OccursAt(s, p, 0);
      assert s[..|p|] != p;
      forall i | 0 <= i <= |s[1..]| - |p|
        ensures !OccursAt(s[1..], p, i)
      {
        assert !OccursAt(s, p, i + 1);
        assert s[1..][i..i + |p|] == s[i + 1..i + 1 + |p|];
      }
      ReplaceAllAbsent(s[1..], p, r);
      assert [s[0]] + s[1..] == s;
    }
  }

  /** Replacing the pattern by itself changes nothing. */
  lemma {:induction false} ReplaceAllSame(s: string, p: string)
    requires |p| > 0
    ensures ReplaceAll(s, p, p) == s
    decreases |s|
  {
    if |s| >= |p| {
      if s[..|p|] == p {
        ReplaceAllSame(s[|p|..], p);
        assert s[..|p|] + s[|p|..] == s;
      } else {
        ReplaceAllSame(s[1..], p);
        assert [s[0]] + s[1..] == s;
      }
    }
  }

  /** When the first occurrence of the pattern starts right after `a` and
      none follows it, that one occurrence is replaced. */
  lemma {:induction false} ReplaceAllFirst(a: string, p: string, b: string, r: string)
    requires |p| > 0
    requires forall i | 0 <= i < |a| :: !OccursAt(a + p + b, p, i)
    requires !Occurs(b, p)
    ensures ReplaceAll(a + p + b, p, r) == a + r + b
    decreases |a|
  {
    var s := a + p + b;
    if a == [] {
      assert s == p + b;
      assert s[..|p|] == p && s[|p|..] == b;
      ReplaceAllAbsent(b, p, r);
    } else {
      assert !OccursAt(s, p, 0);
      var t := a[1..] + p + b;
      assert s[1..] == t;
      forall i | 0 <= i < |a[1..]|
        ensures !OccursAt(t, p, i)
      {
        assert !OccursAt(s, p, i + 1);
        assert t[i..i + |p|] == s[i + 1..i + 1 + |p|];
      }
      ReplaceAllFirst(a[1..], p, b, r);
      assert [a[0]] + (a[1..] + r + b) == a + r + b;
    }
  }

  // ---------------------------------------------------------------------------
  // Lines of a text file opened with newline='\n'
  // ---------------------------------------------------------------------------

  /** The lines `for line in file` yields: each keeps its terminating `\n`;
      the last one lacks it when the text does not end with `\n`. */
  function LinesOf(s: string): (r: seq<string>)
    decreases |s|
  {
    if s == [] then []
    else
      var i := IndexOf(s, '\n');
      if i == |s| then [s] else [s[..i + 1]] + LinesOf(s[i + 1..])
  }

  function Concat(lines: seq<string>): string {
    if lines == [] then "" else lines[0] + Concat(lines[1..])
  }

  lemma ConcatCons(line: string, rest: seq<string>)
    ensures Concat([line] + rest) == line + Concat(rest)
  {
    assert ([line] + rest)[1..] == rest;
  }

  /** The first line ends at the first `\n`. */
  lemma LinesAt(s: string, i: nat)
    requires i < |s| && s[i] == '\n' && '\n' !in s[..i]
    ensures LinesOf(s) == [s[..i + 1]] + LinesOf(s[i + 1..])
  {
    IndexOfIs(s, '\n', i);
  }

  /** Reading the lines loses nothing: they concatenate back to the text. */
  lemma {:induction false} ConcatLinesOf(s: string)
    ensures Concat(LinesOf(s)) == s
    decreases |s|
  {
    if s != [] {
      var i := IndexOf(s, '\n');
      IndexOfFirst(s, '\n');
      if i < |s| {
        LinesAt(s, i);
        ConcatLinesOf(s[i + 1..]);
        ConcatCons(s[..i + 1], LinesOf(s[i + 1..]));
        assert s[..i + 1] + s[i + 1..] == s;
      } else {
        assert [s][1..] == [];
      }
    }
  }

  /** A line without a newline, followed by `\n`, is read as the first line. */
  lemma LinesOfCons(line: string, rest: string)
    requires '\n' !in line
    ensures LinesOf(line + "\n" + rest) == [line + "\n"] + LinesOf(rest)
  {
    var s := line + "\n" + rest;
    assert s[..|line|] == line;
    assert s[..|line| + 1] == line + "\n";
    assert s[|line| + 1..] == rest;
    LinesAt(s, |line|);
  }

  /** A line made of text without `\n` and one final `\n`. */
  predicate IsLine(line: string) {
    |line| >= 1 && line[|line| - 1] == '\n' && '\n' !in line[..|line| - 1]
  }

  /** Reading back lines that were written one after the other gives those
      lines. */
  lemma {:induction false} LinesOfConcat(lines: seq<string>)
    requires forall i :: 0 <= i < |lines| ==> IsLine(lines[i])
    ensures LinesOf(Concat(lines)) == lines
  {
    if lines != [] {
      var first := lines[0];
      var text := first[..|first| - 1];
      assert first == text + "\n";
      LinesOfCons(text, Concat(lines[1..]));
      LinesOfConcat(lines[1..]);
      assert [first] + lines[1..] == lines;
    }
  }
}
