/**
 * How the package list is read from the text box before a run starts
 * (`ProjectBuilderUI.on_create`): the text is stripped and split into lines;
 * blank lines and lines starting with `#` are skipped; every other line is
 * stripped and split at runs of whitespace. Only the entries that pass the
 * validator are handed to the worker.
 */
module PackageText {

  import opened PackageName

  /** Python's `str.isspace()`, which `str.strip()` and the regex `\s` also use. */
  predicate IsSpace(c: char) {
    c == ' ' || '\t' <= c <= '\r' || '\U{1C}' <= c <= '\U{1F}' ||
    c == '\U{85}' || c == '\U{A0}' || c == '\U{1680}' ||
    '\U{2000}' <= c <= '\U{200A}' || c == '\U{2028}' || c == '\U{2029}' ||
    c == '\U{202F}' || c == '\U{205F}' || c == '\U{3000}'
  }

  /** The line boundaries of `str.splitlines()`. */
  predicate IsLineBreak(c: char) {
    '\n' <= c <= '\r' || '\U{1C}' <= c <= '\U{1E}' ||
    c == '\U{85}' || c == '\U{2028}' || c == '\U{2029}'
  }

  predicate NoSpace(s: string) {
    forall i | 0 <= i < |s| :: !IsSpace(s[i])
  }

  /** How many whitespace characters `s` starts with. */
  function LeadingSpace(s: string): (n: nat)
    ensures n <= |s| && (n < |s| ==> !IsSpace(s[n]))
    ensures forall i | 0 <= i < n :: IsSpace(s[i])
  {
    if s != [] && IsSpace(s[0]) then 1 + LeadingSpace(s[1..]) else 0
  }

  /** Where the whitespace `s` ends with begins. */
  function TrailingSpace(s: string): (n: nat)
    ensures n <= |s| && (0 < n ==> !IsSpace(s[n - 1]))
    ensures forall i | n <= i < |s| :: IsSpace(s[i])
  {
    if s != [] && IsSpace(s[|s| - 1]) then TrailingSpace(s[..|s| - 1]) else |s|
  }

  /** `str.lstrip()`: the suffix left after dropping the leading whitespace. */
  function TrimStart(s: string): (r: string)
    ensures |r| <= |s| && r == s[|s| - |r|..]
    ensures r == [] || !IsSpace(r[0])
    ensures forall i | 0 <= i < |s| - |r| :: IsSpace(s[i])
  {
    s[LeadingSpace(s)..]
  }

  /** `str.rstrip()`: the prefix left after dropping the trailing whitespace. */
  function TrimEnd(s: string): (r: string)
    ensures |r| <= |s| && r == s[..|r|]
    ensures r == [] || !IsSpace(r[|r| - 1])
    ensures forall i | |r| <= i < |s| :: IsSpace(s[i])
  {
    s[..TrailingSpace(s)]
  }

  /**
   * `str.strip()`: the slice of `s` left after removing the whitespace at
   * both ends; it neither starts nor ends with whitespace.
   */
  function Strip(s: string): (r: string)
    ensures r == [] || (!IsSpace(r[0]) && !IsSpace(r[|r| - 1]))
    ensures exists a, b | 0 <= a <= b <= |s| ::
      r == s[a..b] && (forall i | 0 <= i < a :: IsSpace(s[i])) && (forall i | b <= i < |s| :: IsSpace(s[i]))
  {
    var t := TrimStart(s);
    var r := TrimEnd(t);
    var a, b := |s| - |t|, |s| - |t| + |r|;
    assert r == s[a..b];
    assert forall i | b <= i < |s| :: s[i] == t[i - a];
    r
  }

  predicate NoLineBreak(s: string) {
    forall i | 0 <= i < |s| :: !IsLineBreak(s[i])
  }

  /** Length of the text before the first line boundary. */
  function LineLength(s: string): (n: nat)
    ensures n <= |s| && (n < |s| ==> IsLineBreak(s[n]))
    ensures forall i | 0 <= i < n :: !IsLineBreak(s[i])
  {
    if s == [] || IsLineBreak(s[0]) then 0 else 1 + LineLength(s[1..])
  }

  /**
   * The text cut at every line boundary. Where `str.splitlines()` treats
   * "\r\n" as one boundary or drops a final empty line, this yields an
   * extra empty piece; empty pieces are skipped by the reader below.
   */
  function SplitLines(s: string): (r: seq<string>)
    decreases |s|
    ensures r != []
  {
    var n := LineLength(s);
    if n == |s| then [s] else [s[..n]] + SplitLines(s[n + 1..])
  }

  /** Text without a line boundary is one line. */
  lemma SplitLinesOfLine(w: string)
    requires NoLineBreak(w)
    ensures SplitLines(w) == [w]
  {
  }

  /** A line boundary after a line ends that line, and the lines of the rest follow. */
  lemma SplitLinesAtBreak(w: string, c: char, b: string)
    requires NoLineBreak(w) && IsLineBreak(c)
    ensures SplitLines(w + [c] + b) == [w] + SplitLines(b)
  {
    var t := w + [c] + b;
    assert t[|w|] == c;
    assert t[..|w|] == w && t[|w| + 1..] == b;
  }

  /** No line that `SplitLines` cuts holds a line boundary. */
  lemma {:induction false} LinesHoldNoBreak(s: string)
    decreases |s|
    ensures forall l | l in SplitLines(s) :: NoLineBreak(l)
  {
    var n := LineLength(s);
    if n < |s| {
      LinesHoldNoBreak(s[n + 1..]);
    }
  }

  /** Length of the leading run of non-whitespace. */
  function TokenLength(s: string): (n: nat)
    ensures n <= |s| && (n < |s| ==> IsSpace(s[n]))
    ensures forall i | 0 <= i < n :: !IsSpace(s[i])
  {
    if s == [] || IsSpace(s[0]) then 0 else 1 + TokenLength(s[1..])
  }

  /**
   * The maximal runs of non-whitespace in `s`: what `re.split(r'\s+', line)`
   * returns for a stripped, non-empty line.
   */
  function Words(s: string): (r: seq<string>)
    decreases |s|
    ensures forall w | w in r :: w != [] && NoSpace(w)
  {
    if s == [] then []
    else if IsSpace(s[0]) then Words(s[1..])
    else
      var n := TokenLength(s);
      [s[..n]] + Words(s[n..])
  }

  /** The characters of `s` that are not whitespace, in order. */
  function NonSpaceChars(s: string): string {
    if s == [] then [] else (if IsSpace(s[0]) then [] else [s[0]]) + NonSpaceChars(s[1..])
  }

  /** The words of a list, run together. */
  function Concat(ws: seq<string>): string {
    if ws == [] then [] else ws[0] + Concat(ws[1..])
  }

  lemma {:induction false} NonSpaceCharsAppend(a: string, b: string)
    ensures NonSpaceChars(a + b) == NonSpaceChars(a) + NonSpaceChars(b)
  {
    if a == [] {
      assert a + b == b;
    } else {
      var h := if IsSpace(a[0]) then [] else [a[0]];
      SliceOfAppend(a, b, 1);
      assert (a + b)[0] == a[0];
      assert NonSpaceChars(a + b) == h + NonSpaceChars(a[1..] + b);
      NonSpaceCharsAppend(a[1..], b);
      AppendAssoc(h, NonSpaceChars(a[1..]), NonSpaceChars(b));
    }
  }

  lemma {:induction false} NonSpaceCharsOfWord(w: string)
    requires NoSpace(w)
    ensures NonSpaceChars(w) == w
  {
    if w != [] {
      NonSpaceCharsOfWord(w[1..]);
    }
  }

  /** Splitting drops the whitespace and nothing else: the words run together are the other characters. */
  lemma {:induction false} WordsKeepText(s: string)
    decreases |s|
    ensures Concat(Words(s)) == NonSpaceChars(s)
  {
    if s != [] {
      if IsSpace(s[0]) {
        WordsKeepText(s[1..]);
      } else {
        var n := TokenLength(s);
        var ws := Words(s);
        assert ws[0] == s[..n] && ws[1..] == Words(s[n..]);
        WordsKeepText(s[n..]);
        NonSpaceCharsOfWord(s[..n]);
        NonSpaceCharsAppend(s[..n], s[n..]);
        assert s[..n] + s[n..] == s;
      }
    }
  }

  /** A run of non-whitespace ends where `a` ends when `a` ends in whitespace or `b` starts with it. */
  lemma {:induction false} TokenLengthAppend(a: string, b: string)
    requires TokenLength(a) < |a| || b == [] || IsSpace(b[0])
    ensures TokenLength(a + b) == TokenLength(a)
  {
    if a == [] {
      assert a + b == b;
    } else if !IsSpace(a[0]) {
      SliceOfAppend(a, b, 1);
      TokenLengthAppend(a[1..], b);
    }
  }

  /**
   * Words never span whitespace: text cut at a whitespace character (or
   * at either end) splits into the words of the two parts.
   */
  lemma {:induction false} WordsSplit(a: string, b: string)
    requires a == [] || b == [] || IsSpace(a[|a| - 1]) || IsSpace(b[0])
    decreases |a|
    ensures Words(a + b) == Words(a) + Words(b)
  {
    if a == [] {
      assert a + b == b;
    } else if IsSpace(a[0]) {
      assert a[1..] == [] || a[1..][|a[1..]| - 1] == a[|a| - 1];
      WordsSplit(a[1..], b);
      WordsSplitAtSpace(a, b);
    } else {
      var m := TokenLength(a);
      assert m < |a| || !IsSpace(a[|a| - 1]);
      TokenLengthAppend(a, b);
      assert a[m..] == [] || a[m..][|a[m..]| - 1] == a[|a| - 1];
      WordsSplit(a[m..], b);
      WordsSplitAtToken(a, b);
    }
  }

  /** The step of `WordsSplit` when `a` starts with whitespace. */
  lemma WordsSplitAtSpace(a: string, b: string)
    requires a != [] && IsSpace(a[0])
    requires Words(a[1..] + b) == Words(a[1..]) + Words(b)
    ensures Words(a + b) == Words(a) + Words(b)
  {
    SliceOfAppend(a, b, 1);
  }

  /** The step of `WordsSplit` when `a` starts with a word that ends inside `a`. */
  lemma WordsSplitAtToken(a: string, b: string)
    requires a != [] && !IsSpace(a[0]) && TokenLength(a + b) == TokenLength(a)
    requires Words(a[TokenLength(a)..] + b) == Words(a[TokenLength(a)..]) + Words(b)
    ensures Words(a + b) == Words(a) + Words(b)
  {
    var m := TokenLength(a);
    var ab := a + b;
    assert ab[0] == a[0];
    SliceOfAppend(a, b, m);
    WordsAtToken(ab);
    WordsAtToken(a);
    AppendAssoc([a[..m]], Words(a[m..]), Words(b));
  }

  /** Text that starts with a word: that word, then the words of the rest. */
  lemma WordsAtToken(s: string)
    requires s != [] && !IsSpace(s[0])
    ensures Words(s) == [s[..TokenLength(s)]] + Words(s[TokenLength(s)..])
  {
  }

  /** A non-empty run of non-whitespace is one word. */
  lemma WordsOfToken(w: string)
    requires w != [] && NoSpace(w)
    ensures Words(w) == [w]
  {
    TokenLengthOfWord(w);
    assert w[..|w|] == w && w[|w|..] == [];
  }

  /** Text without whitespace is one run of non-whitespace. */
  lemma {:induction false} TokenLengthOfWord(w: string)
    requires NoSpace(w)
    ensures TokenLength(w) == |w|
  {
    if w != [] {
      assert NoSpace(w[1..]) by {
        assert forall i | 0 <= i < |w| - 1 :: w[1..][i] == w[i + 1];
      }
      TokenLengthOfWord(w[1..]);
    }
  }

  /** Text has no word exactly when it is all whitespace. */
  lemma {:induction false} WordsEmpty(s: string)
    ensures Words(s) == [] <==> forall i | 0 <= i < |s| :: IsSpace(s[i])
  {
    if s != [] && IsSpace(s[0]) {
      WordsEmpty(s[1..]);
      assert forall i | 1 <= i < |s| :: s[i] == s[1..][i - 1];
    }
  }

  /** Leading whitespace changes no word. */
  lemma WordsOfTrimStart(s: string)
    ensures Words(TrimStart(s)) == Words(s)
  {
    var t := TrimStart(s);
    var front := s[..|s| - |t|];
    WordsEmpty(front);
    assert s == front + t;
    WordsSplit(front, t);
  }

  /** Trailing whitespace changes no word. */
  lemma WordsOfTrimEnd(s: string)
    ensures Words(TrimEnd(s)) == Words(s)
  {
    var r := TrimEnd(s);
    var back := s[|r|..];
    WordsEmpty(back);
    assert s == r + back;
    WordsSplit(r, back);
  }

  /** Stripping the ends changes no word. */
  lemma WordsOfStrip(s: string)
    ensures Words(Strip(s)) == Words(s)
  {
    WordsOfTrimStart(s);
    WordsOfTrimEnd(TrimStart(s));
  }

  /** The packages one line contributes: none for blank and `#` lines. */
  function LinePackages(line: string): seq<string> {
    var l := Strip(line);
    if l == [] || l[0] == '#' then [] else Words(l)
  }

  /** The packages of a sequence of lines, in line order. */
  function PackagesOfLines(lines: seq<string>): (r: seq<string>)
    ensures forall p | p in r :: p != [] && NoSpace(p)
  {
    if lines == [] then []
    else PackagesOfLines(lines[..|lines| - 1]) + LinePackages(lines[|lines| - 1])
  }

  /** The package list read from the raw text of the package box. */
  function PackagesFromText(raw: string): (r: seq<string>)
    ensures forall p | p in r :: p != [] && NoSpace(p)
  {
    var text := Strip(raw);
    if text == [] then [] else PackagesOfLines(SplitLines(text))
  }

  lemma {:induction false} PackagesOfLinesAppend(xs: seq<string>, ys: seq<string>)
    decreases |ys|
    ensures PackagesOfLines(xs + ys) == PackagesOfLines(xs) + PackagesOfLines(ys)
  {
    if ys == [] {
      assert xs + ys == xs;
    } else {
      var init, last := ys[..|ys| - 1], ys[|ys| - 1];
      assert (xs + ys)[..|xs + ys| - 1] == xs + init && (xs + ys)[|xs + ys| - 1] == last;
      PackagesOfLinesAppend(xs, init);
      var a, b, c := PackagesOfLines(xs), PackagesOfLines(init), LinePackages(last);
      assert PackagesOfLines(xs + ys) == (a + b) + c;
      assert PackagesOfLines(ys) == b + c;
      AppendAssoc(a, b, c);
    }
  }

  lemma SliceOfAppend<T>(a: seq<T>, b: seq<T>, m: nat)
    requires m <= |a|
    ensures (a + b)[..m] == a[..m] && (a + b)[m..] == a[m..] + b
  {
  }

  lemma AppendAssoc<T>(a: seq<T>, b: seq<T>, c: seq<T>)
    ensures (a + b) + c == a + (b + c)
  {
  }

  /** A character absent from the text is absent from its stripped form. */
  lemma StripKeepsOut(s: string, c: char)
    requires c !in s
    ensures c !in Strip(s)
  {
    var r := Strip(s);
    var a, b :| 0 <= a <= b <= |s| && r == s[a..b];
    forall j | 0 <= j < |r|
      ensures r[j] != c
    {
      assert r[j] == s[a + j];
    }
  }

  /**
   * A line that is not a comment line contributes its words, a `#` after
   * the line's first word included.
   */
  lemma LineWithoutComment(line: string)
    requires Strip(line) == [] || Strip(line)[0] != '#'
    ensures LinePackages(line) == Words(line)
  {
    WordsOfStrip(line);
  }

  lemma LineBreakIsSpace(c: char)
    requires IsLineBreak(c)
    ensures IsSpace(c)
  {
  }

  /** Cut into lines, text without `#` yields its words, in order. */
  lemma {:induction false} LinesWithoutComments(t: string)
    requires '#' !in t
    decreases |t|
    ensures PackagesOfLines(SplitLines(t)) == Words(t)
  {
    var n := LineLength(t);
    if n == |t| {
      assert SplitLines(t) == [t];
      OneLine(t);
      StripKeepsOut(t, '#');
      LineWithoutComment(t);
    } else {
      var line, rest := t[..n], t[n + 1..];
      assert '#' !in line && '#' !in rest by {
        assert forall i | 0 <= i < |line| :: line[i] == t[i];
        assert forall i | 0 <= i < |rest| :: rest[i] == t[n + 1 + i];
      }
      FirstLine(line, rest, SplitLines(t));
      LinesWithoutComments(rest);
      CutAt(t, n);
      LineBreakIsSpace(t[n]);
      WordsAroundSpace(line, t[n], rest);
    }
  }

  /** The packages of a line followed by further lines, for a line without `#`. */
  lemma FirstLine(line: string, rest: string, lines: seq<string>)
    requires '#' !in line && lines == [line] + SplitLines(rest)
    ensures PackagesOfLines(lines) == Words(line) + PackagesOfLines(SplitLines(rest))
  {
    PackagesOfLinesAppend([line], SplitLines(rest));
    OneLine(line);
    StripKeepsOut(line, '#');
    LineWithoutComment(line);
  }

  lemma CutAt(t: string, n: nat)
    requires n < |t|
    ensures t == t[..n] + [t[n]] + t[n + 1..]
  {
  }

  lemma OneLine(line: string)
    ensures PackagesOfLines([line]) == LinePackages(line)
  {
    assert [line][..0] == [];
    var x := LinePackages(line);
    assert [] + x == x;
  }

  /** Words never span a whitespace character. */
  lemma WordsAroundSpace(a: string, c: char, b: string)
    requires IsSpace(c)
    ensures Words(a + [c] + b) == Words(a) + Words(b)
  {
    WordsOfSpaces([c]);
    WordsSplit([c], b);
    WordsSplit(a, [c] + b);
    assert a + [c] + b == a + ([c] + b);
  }

  /** A single whitespace character has no word. */
  lemma WordsOfSpaces(s: string)
    requires forall i | 0 <= i < |s| :: IsSpace(s[i])
    ensures Words(s) == []
  {
    WordsEmpty(s);
  }

  /**
   * Text without `#` yields exactly its words: stripping, cutting into
   * lines, skipping blank lines and splitting each line lose and add
   * nothing.
   */
  lemma TextWithoutComments(raw: string)
    requires '#' !in raw
    ensures PackagesFromText(raw) == Words(raw)
  {
    var text := Strip(raw);
    WordsOfStrip(raw);
    if text != [] {
      StripKeepsOut(raw, '#');
      LinesWithoutComments(text);
    }
  }

  lemma NextLine(lines: seq<string>, i: nat)
    requires i < |lines|
    ensures PackagesOfLines(lines[..i + 1]) == PackagesOfLines(lines[..i]) + LinePackages(lines[i])
  {
    assert lines[..i + 1][..i] == lines[..i];
  }

  /** The reading loop of `on_create`. */
  method ReadPackages(raw: string) returns (packages: seq<string>)
    ensures packages == PackagesFromText(raw)
    ensures forall p | p in packages :: p != [] && NoSpace(p)
  {
    packages := [];
    var text := Strip(raw);
    if text != [] {
      var lines := SplitLines(text);
      var i := 0;
      while i < |lines|
        invariant 0 <= i <= |lines|
        invariant packages == PackagesOfLines(lines[..i])
      {
        NextLine(lines, i);
        var line := Strip(lines[i]);
        if line == [] || line[0] == '#' {
          i := i + 1;
          continue;
        }
        packages := packages + Words(line);
        i := i + 1;
      }
      assert lines[..|lines|] == lines;
    }
  }

  /** A blank line or a comment line contributes no package. */
  lemma CommentLinesSkipped(line: string)
    requires Strip(line) == [] || Strip(line)[0] == '#'
    ensures LinePackages(line) == []
  {
  }

  /**
   * A line of two words gives both, whatever the second starts with: a `#`
   * after the line's first word starts an entry, not a comment.
   */
  lemma TwoWordLine(w: string, v: string)
    requires w != [] && NoSpace(w) && w[0] != '#'
    requires v != [] && NoSpace(v)
    ensures LinePackages(w + [' '] + v) == [w, v]
  {
    var line := w + [' '] + v;
    assert line[0] == w[0];
    LineWithoutComment(line);
    WordsAroundSpace(w, ' ', v);
    WordsOfToken(w);
    WordsOfToken(v);
  }

  /**
   * Every package that reaches the worker from the text box has a base
   * name that is a well-formed name without a trailing newline: the
   * newline that Python's `$` lets through cannot come from this path.
   */
  lemma TextPackagesAreCoreNames(raw: string)
    ensures forall p | p in ValidOnly(PackagesFromText(raw)) :: IsCoreName(BaseName(p))
  {
    forall p | p in ValidOnly(PackagesFromText(raw))
      ensures IsCoreName(BaseName(p))
    {
      var b := BaseName(p);
      assert p in PackagesFromText(raw);
      assert NoSpace(p);
      if !IsCoreName(b) {
        assert b[|b| - 1] == p[|b| - 1];
        assert IsSpace(p[|b| - 1]);
      }
    }
  }
}
