/** The shell side of the handlers: `shlex.quote`, which they apply to every
    path they put on a command line, a reader for the part of POSIX shell
    word syntax that quoting produces (so that the round trip can be stated:
    the shell reads back exactly the quoted argument), and the exit status a
    handler derives from the external program's return code. */
module Shell {
  import opened Wrappers
  import opened Strings

  /** The characters `shlex` leaves unquoted: `[\w@%+=:,./-]` in ASCII. */
  predicate SafeChar(ch: char) {
    IsWordChar(ch) || ch == '@' || ch == '%' || ch == '+' || ch == '=' ||
    ch == ':' || ch == ',' || ch == '.' || ch == '/' || ch == '-'
  }

  predicate AllSafe(s: string) {
    forall i :: 0 <= i < |s| ==> SafeChar(s[i])
  }

  /** How a single quote is written inside single quotes: close the quoted
      text, write `'` inside double quotes, reopen. */
  const QuoteEscape: string := "'\"'\"'"

  /** `shlex.quote(s)` */
  function Quote(s: string): (r: string)
    ensures |r| >= 1 && r[0] != ' '
  {
    if s == [] then "''"
    else if AllSafe(s) then s
    else "'" + ReplaceAll(s, "'", QuoteEscape) + "'"
  }

  /** The handler's exit status once the external program has returned
      `returnCode`: a non-zero code is reported and ends the handler with
      status 1, otherwise the handler ends with status 0. */
  function ExitStatus(returnCode: int): (status: int)
    ensures status == 0 || status == 1
    ensures status == 0 <==> returnCode == 0
  {
    if returnCode != 0 then 1 else 0
  }

  // ---------------------------------------------------------------------------
  // Reading a command line back
  // ---------------------------------------------------------------------------

  /** Characters that keep a special meaning inside double quotes. */
  predicate SpecialInDoubleQuotes(ch: char) {
    ch == '"' || ch == '$' || ch == '`' || ch == '\\'
  }

  /** Puts `s` in front of the value of a word read so far. */
  function Prepend(s: string, r: Option<(string, string)>): Option<(string, string)> {
    if r.Some? then Some((s + r.value.0, r.value.1)) else None
  }

  /** Reads one shell word at the start of `t`, made of unquoted safe
      characters, single-quoted text and double-quoted text without special
      characters, up to the first unquoted blank: `Some((value, rest))`, where
      `rest` is the text from that blank on; `None` when the word holds
      anything else (an operator such as `;`, a substitution, an unclosed
      quote). */
  function ReadWord(t: string): (r: Option<(string, string)>)
    ensures r.Some? ==> |r.value.1| <= |t|
    ensures r.Some? && t != [] && t[0] != ' ' ==> |r.value.1| < |t|
    decreases |t|
  {
    if t == [] || t[0] == ' ' then Some(([], t))
    else if t[0] == '\'' then
      var j := 1 + IndexOf(t[1..], '\'');
      if j == |t| then None else Prepend(t[1..j], ReadWord(t[j + 1..]))
    else if t[0] == '"' then
      var j := 1 + IndexOf(t[1..], '"');
      if j == |t| || exists k :: 1 <= k < j && SpecialInDoubleQuotes(t[k]) then None
      else Prepend(t[1..j], ReadWord(t[j + 1..]))
    else if SafeChar(t[0]) then Prepend([t[0]], ReadWord(t[1..]))
    else None
  }

  /** Puts `w` in front of the words read so far. */
  function Cons(w: string, r: Option<seq<string>>): Option<seq<string>> {
    if r.Some? then Some([w] + r.value) else None
  }

  /** The argument list the shell runs a command line with, when the line is
      one simple command of such words separated by blanks; `None` otherwise. */
  function ReadArgs(t: string): Option<seq<string>>
    decreases |t|
  {
    if t == [] then Some([])
    else if t[0] == ' ' then ReadArgs(t[1..])
    else
      match ReadWord(t)
      case None => None
      case Some((w, rest)) => Cons(w, ReadArgs(rest))
  }

  /** The reserved words of the POSIX shell. */
  predicate ReservedWord(w: string) {
    w in {"!", "{", "}", "case", "do", "done", "elif", "else", "esac", "fi", "for", "if", "in", "then", "until", "while"}
  }

  /** `t` starts with an assignment `NAME=`: a letter or `_`, then letters,
      digits or `_`, then `=`. */
  predicate StartsWithAssignment(t: string) {
    exists k | 1 <= k < |t| :: t[k] == '=' && ('a' <= t[0] <= 'z' || 'A' <= t[0] <= 'Z' || t[0] == '_')
      && forall i | 1 <= i < k :: IsWordChar(t[i])
  }

  /** The argument list a simple command line runs its program with. The
      words are read as `ReadArgs` reads them, but in command position the
      shell treats a leading `NAME=value` as an assignment and a bare
      reserved word as syntax, so such a line does not run its first word:
      `None`. */
  function CommandWords(t: string): Option<seq<string>>
    decreases |t|
  {
    if t != [] && t[0] == ' ' then CommandWords(t[1..])
    else if StartsWithAssignment(t) || ReservedWord(t[..IndexOf(t, ' ')]) then None
    else ReadArgs(t)
  }

  /** A line that starts with `/` or a single quote runs its first word. */
  lemma CommandWordsPlain(t: string)
    requires |t| >= 1 && (t[0] == '/' || t[0] == '\'')
    ensures CommandWords(t) == ReadArgs(t)
  {
    var w := t[..IndexOf(t, ' ')];
    assert |w| >= 1 && w[0] == t[0];
    NotReserved(w);
    assert !StartsWithAssignment(t);
  }

  lemma NotReserved(w: string)
    requires |w| >= 1 && (w[0] == '/' || w[0] == '\'')
    ensures !ReservedWord(w)
  {
  }

  /** An absolute path, quoted or not, starts with `/` or a single quote. */
  lemma QuoteAbsolute(s: string)
    requires |s| >= 1 && s[0] == '/'
    ensures Quote(s)[0] == '/' || Quote(s)[0] == '\''
  {
  }

  /** `X=1 p` runs `p` with `X` set, not a program named `X=1`, although
      its words read as two plain words. */
  lemma AssignmentNotProgram(name: string, p: string)
    requires |name| >= 1 && AllWordChars(name) && !('0' <= name[0] <= '9')
    requires AllSafe(p) && |p| >= 1
    ensures ReadArgs(name + "=1" + " " + p) == Some([name + "=1", p])
    ensures CommandWords(name + "=1" + " " + p) == None
  {
    AssignmentSafe(name);
    TwoSafeWords(name + "=1", p);
    AssignmentFirst(name, p);
  }

  lemma AssignmentSafe(name: string)
    requires AllWordChars(name)
    ensures AllSafe(name + "=1")
  {
    var w := name + "=1";
    assert forall i | 0 <= i < |name| :: w[i] == name[i];
  }

  lemma TwoSafeWords(w: string, p: string)
    requires AllSafe(w) && |w| >= 1 && AllSafe(p) && |p| >= 1
    ensures ReadArgs(w + " " + p) == Some([w, p])
  {
    var rest := " " + p;
    assert Quote(w) == w;
    assert Quote(p) == p;
    QuoteRoundTrip(p);
    assert ReadArgs(p) == Some([p]);
    ReadAfterBlank(p);
    assert ReadArgs(rest) == Some([p]);
    QuoteThen(w, rest);
    assert ReadArgs(w + rest) == Cons(w, Some([p]));
    assert [w] + [p] == [w, p];
    assert w + rest == w + " " + p;
  }

  lemma AssignmentFirst(name: string, p: string)
    requires |name| >= 1 && AllWordChars(name) && !('0' <= name[0] <= '9')
    ensures CommandWords(name + "=1" + " " + p) == None
  {
    var t := name + "=1" + " " + p;
    assert t[0] == name[0];
    assert t[|name|] == '=';
    assert forall i | 1 <= i < |name| :: t[i] == name[i];
    assert StartsWithAssignment(t);
  }

  /** A quoted argument followed by a blank or the end of the line is read
      back as the argument itself, whatever characters it holds. */
  lemma QuoteReadsBack(s: string, rest: string)
    requires rest == [] || rest[0] == ' '
    ensures ReadWord(Quote(s) + rest) == Some((s, rest))
  {
    assert ReadWord(rest) == Some(([], rest));
    if s == [] {
      ReadSingleQuoted([], rest);
      assert "'" + [] + "'" + rest == Quote(s) + rest;
    } else if AllSafe(s) {
      ReadSafe(s, rest);
    } else {
      ReadQuoted(s, rest);
      assert "'" + ReplaceAll(s, "'", QuoteEscape) + "'" + rest == Quote(s) + rest;
    }
    assert s + [] == s;
  }

  /** The shell passes a quoted argument on as one argument. */
  lemma QuoteThen(s: string, rest: string)
    requires rest == [] || rest[0] == ' '
    ensures ReadArgs(Quote(s) + rest) == Cons(s, ReadArgs(rest))
  {
    var t := Quote(s) + rest;
    QuoteReadsBack(s, rest);
    assert t[0] == Quote(s)[0];
  }

  /** A quoted argument alone is read as exactly that argument. */
  lemma QuoteRoundTrip(s: string)
    ensures ReadArgs(Quote(s)) == Some([s])
  {
    QuoteThen(s, []);
    assert Quote(s) + [] == Quote(s);
    assert ReadArgs([]) == Some([]);
    assert [s] + [] == [s];
  }

  /** `[quote(s) for s in words]` */
  function QuoteAll(words: seq<string>): (r: seq<string>)
    ensures |r| == |words|
    ensures forall i :: 0 <= i < |words| ==> r[i] == Quote(words[i])
  {
    if words == [] then [] else [Quote(words[0])] + QuoteAll(words[1..])
  }

  /** Puts a list of words in front of the words read so far. */
  function Extend(ws: seq<string>, r: Option<seq<string>>): Option<seq<string>> {
    if r.Some? then Some(ws + r.value) else None
  }

  /** `' '.join(quote(s) for s in words)` is read back as `words`, one
      argument per word, whatever the words hold. */
  lemma {:induction false} ReadQuotedWords(words: seq<string>, rest: string)
    requires rest == [] || rest[0] == ' '
    ensures ReadArgs(Join(QuoteAll(words), " ") + rest) == Extend(words, ReadArgs(rest))
    decreases |words|
  {
    if |words| == 0 {
      assert Join(QuoteAll(words), " ") + rest == rest;
      ExtendNil(ReadArgs(rest));
    } else if |words| == 1 {
      ReadOneQuoted(words, rest);
    } else {
      ReadQuotedWords(words[1..], rest);
      ReadQuotedStep(words, rest);
    }
  }

  lemma ReadOneQuoted(words: seq<string>, rest: string)
    requires |words| == 1 && (rest == [] || rest[0] == ' ')
    ensures ReadArgs(Join(QuoteAll(words), " ") + rest) == Extend(words, ReadArgs(rest))
  {
    assert Join(QuoteAll(words), " ") == Quote(words[0]);
    QuoteThen(words[0], rest);
    assert words == [words[0]];
  }

  lemma ReadQuotedStep(words: seq<string>, rest: string)
    requires |words| >= 2 && (rest == [] || rest[0] == ' ')
    requires ReadArgs(Join(QuoteAll(words[1..]), " ") + rest) == Extend(words[1..], ReadArgs(rest))
    ensures ReadArgs(Join(QuoteAll(words), " ") + rest) == Extend(words, ReadArgs(rest))
  {
    var tail := Join(QuoteAll(words[1..]), " ") + rest;
    JoinQuotedCons(words, rest);
    QuoteThen(words[0], " " + tail);
    ReadAfterBlank(tail);
    ExtendHead(words, ReadArgs(rest));
    calc {
      ReadArgs(Join(QuoteAll(words), " ") + rest);
      ReadArgs(Quote(words[0]) + (" " + tail));
      Cons(words[0], ReadArgs(" " + tail));
      Cons(words[0], ReadArgs(tail));
      Cons(words[0], Extend(words[1..], ReadArgs(rest)));
      Extend(words, ReadArgs(rest));
    }
  }

  lemma JoinQuotedCons(words: seq<string>, rest: string)
    requires |words| >= 2
    ensures Join(QuoteAll(words), " ") + rest
         == Quote(words[0]) + (" " + (Join(QuoteAll(words[1..]), " ") + rest))
  {
    var more := QuoteAll(words[1..]);
    assert QuoteAll(words) == [Quote(words[0])] + more;
    JoinCons(Quote(words[0]), more, " ");
    ConcatAssoc(Quote(words[0]), " ", Join(more, " "), rest);
  }

  lemma ConcatAssoc(a: string, b: string, c: string, d: string)
    ensures a + b + c + d == a + (b + (c + d))
  {
  }

  lemma ExtendNil(r: Option<seq<string>>)
    ensures Extend([], r) == r
  {
    if r.Some? {
      assert [] + r.value == r.value;
    }
  }

  lemma ExtendHead(ws: seq<string>, r: Option<seq<string>>)
    requires |ws| >= 1
    ensures Cons(ws[0], Extend(ws[1..], r)) == Extend(ws, r)
  {
    if r.Some? {
      assert [ws[0]] + (ws[1..] + r.value) == ws + r.value;
    }
  }

  /** A blank between two words is only a separator. */
  lemma ReadAfterBlank(t: string)
    ensures ReadArgs(" " + t) == ReadArgs(t)
  {
    assert (" " + t)[1..] == t;
  }

  /** Unquoted safe characters read as themselves. */
  lemma {:induction false} ReadSafe(s: string, rest: string)
    requires AllSafe(s)
    ensures ReadWord(s + rest) == Prepend(s, ReadWord(rest))
    decreases |s|
  {
    if s != [] {
      ReadSafe(s[1..], rest);
      var t := s + rest;
      assert t[0] == s[0] && SafeChar(t[0]);
      assert t[1..] == s[1..] + rest;
      assert ReadWord(t) == Prepend([s[0]], ReadWord(s[1..] + rest));
      assert [s[0]] + s[1..] == s;
      PrependTwice([s[0]], s[1..], ReadWord(rest));
      assert Prepend([s[0]], ReadWord(s[1..] + rest)) == Prepend(s, ReadWord(rest));
    } else {
      assert s + rest == rest;
      if ReadWord(rest).Some? {
        assert s + ReadWord(rest).value.0 == ReadWord(rest).value.0;
      }
    }
  }

  /** Text between single quotes reads as itself. */
  lemma ReadSingleQuoted(body: string, rest: string)
    requires '\'' !in body
    ensures ReadWord("'" + body + "'" + rest) == Prepend(body, ReadWord(rest))
  {
    var t := "'" + body + "'" + rest;
    assert t[1..] == body + ("'" + rest);
    IndexOfAppend(body, "'" + rest, '\'');
    assert IndexOf(body, '\'') == |body|;
    assert IndexOf(t[1..], '\'') == |body|;
    assert t[1..|body| + 1] == body;
    assert t[|body| + 2..] == rest;
  }

  /** `"'"` reads as a single quote. */
  lemma ReadEscapedQuote(rest: string)
    ensures ReadWord("\"'\"" + rest) == Prepend("'", ReadWord(rest))
  {
    var t := "\"'\"" + rest;
    assert t[0] == '"';
    assert t[1..] == "'\"" + rest;
    assert t[1..][..1] == "'";
    IndexOfIs(t[1..], '"', 1);
    assert t[1..2] == "'";
    assert !SpecialInDoubleQuotes(t[1]);
    assert t[3..] == rest;
  }

  /** A single-quoted escaped text reads as the text. */
  lemma {:induction false} ReadQuoted(s: string, rest: string)
    ensures ReadWord("'" + ReplaceAll(s, "'", QuoteEscape) + "'" + rest) == Prepend(s, ReadWord(rest))
    decreases |s|
  {
    var k := IndexOf(s, '\'');
    IndexOfFirst(s, '\'');
    assert "'" == ['\''];
    if k == |s| {
      assert s[..k] == s;
      ReplaceCharAbsent(s, '\'', QuoteEscape);
      ReadSingleQuoted(s, rest);
    } else {
      ReadQuoted(s[k + 1..], rest);
      ReadQuotedAt(s, rest, k);
    }
  }

  /** The step of `ReadQuoted` at the first single quote of the text. */
  lemma ReadQuotedAt(s: string, rest: string, k: nat)
    requires k < |s| && s[k] == '\'' && '\'' !in s[..k]
    requires ReadWord("'" + ReplaceAll(s[k + 1..], "'", QuoteEscape) + "'" + rest)
          == Prepend(s[k + 1..], ReadWord(rest))
    ensures ReadWord("'" + ReplaceAll(s, "'", QuoteEscape) + "'" + rest) == Prepend(s, ReadWord(rest))
  {
    var head := s[..k];
    var esc := ReplaceAll(s[k + 1..], "'", QuoteEscape);
    assert "'" == ['\''];
    ReplaceCharAt(s, '\'', QuoteEscape, k);
    assert ReplaceAll(s, "'", QuoteEscape) == head + QuoteEscape + esc;
    ReadEscapedPiece(head, esc, rest);
    PrependTwice(head + "'", s[k + 1..], ReadWord(rest));
    Reassemble(s, k);
  }

  lemma Reassemble(s: string, k: nat)
    requires k < |s| && s[k] == '\''
    ensures s[..k] + "'" + s[k + 1..] == s
  {
    assert "'" == [s[k]];
  }

  /** One piece of an escaped text: the quoted text before a single quote,
      then the escaped quote. */
  lemma ReadEscapedPiece(head: string, esc: string, rest: string)
    requires '\'' !in head
    ensures ReadWord("'" + (head + QuoteEscape + esc) + "'" + rest)
         == Prepend(head + "'", ReadWord("'" + esc + "'" + rest))
  {
    var dq := "\"'\"";
    var tail := "'" + esc + "'" + rest;
    assert QuoteEscape == "'" + dq + "'";
    QuotedSplit(head, dq, esc, rest);
    ReadSingleQuoted(head, dq + tail);
    ReadEscapedQuote(tail);
    PrependTwice(head, "'", ReadWord(tail));
  }

  lemma PrependTwice(a: string, b: string, r: Option<(string, string)>)
    ensures Prepend(a, Prepend(b, r)) == Prepend(a + b, r)
  {
    if r.Some? {
      assert a + (b + r.value.0) == (a + b) + r.value.0;
    }
  }

  lemma QuotedSplit(head: string, dq: string, esc: string, rest: string)
    ensures "'" + (head + ("'" + dq + "'") + esc) + "'" + rest
         == "'" + head + "'" + (dq + ("'" + esc + "'" + rest))
  {
  }

  /** A text without the character is left as it is. */
  lemma {:induction false} ReplaceCharAbsent(s: string, ch: char, r: string)
    requires ch !in s
    ensures ReplaceAll(s, [ch], r) == s
  {
    if s != [] {
      ReplaceCharAbsent(s[1..], ch, r);
      assert [s[0]] + s[1..] == s;
    }
  }

  /** Replacing a one-character pattern: the text up to its first occurrence,
      the replacement, then the rest replaced in turn. */
  lemma {:induction false} ReplaceCharAt(s: string, ch: char, r: string, i: nat)
    requires i < |s| && s[i] == ch && ch !in s[..i]
    ensures ReplaceAll(s, [ch], r) == s[..i] + r + ReplaceAll(s[i + 1..], [ch], r)
  {
    if i == 0 {
      assert s[..1] == [ch];
    } else {
      assert s[1..][..i - 1] == s[1..i];
      ReplaceCharAt(s[1..], ch, r, i - 1);
      assert [s[0]] + s[1..i] == s[..i];
      assert s[1..][i..] == s[i + 1..];
    }
  }
}
