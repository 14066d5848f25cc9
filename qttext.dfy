/** The few Qt string and byte-array operations the line-record readers rely
    on, re-specified over `seq<char>`: whitespace sets, split, join, trimmed,
    simplified, and the line-by-line reading of a text device. */
module QtText {

  /** Bytes that `isspace` (QByteArray::simplified and ::trimmed) treats as white space. */
  const ByteSpace: set<char> := {' ', '\t', '\n', 11 as char, 12 as char, '\r'}

  /** Characters below U+0100 that Qt 4's QChar::isSpace (QString::trimmed)
      treats as white space: U+0009 to U+000D and the space separators, that
      is the bytes above plus NO-BREAK SPACE. */
  const CharSpace: set<char> := ByteSpace + {0xA0 as char}

  predicate Free(s: string, seps: set<char>) {
    forall i :: 0 <= i < |s| ==> s[i] !in seps
  }

  /** QString::split keeping empty parts: the maximal runs between separators. */
  function Split(s: string, seps: set<char>): (parts: seq<string>)
    ensures |parts| >= 1
    ensures forall k :: 0 <= k < |parts| ==> Free(parts[k], seps)
  {
    if s == [] then [[]]
    else
      var rest := Split(s[1..], seps);
      if s[0] in seps then [[]] + rest else [[s[0]] + rest[0]] + rest[1..]
  }

  /** The parts with the empty ones dropped (QString::SkipEmptyParts). */
  function NonEmpty(parts: seq<string>): (r: seq<string>)
    ensures forall k :: 0 <= k < |r| ==> r[k] != []
    ensures forall k :: 0 <= k < |r| ==> r[k] in parts
  {
    if parts == [] then []
    else if parts[0] == [] then NonEmpty(parts[1..])
    else [parts[0]] + NonEmpty(parts[1..])
  }

  function Join(parts: seq<string>, sep: char): string {
    if parts == [] then []
    else if |parts| == 1 then parts[0]
    else parts[0] + [sep] + Join(parts[1..], sep)
  }

  /** `s` without its leading run of `spaces`. */
  function TrimStart(s: string, spaces: set<char>): (r: string)
    ensures r == [] || r[0] !in spaces
    ensures |r| <= |s| && r == s[|s| - |r|..]
    ensures forall i :: 0 <= i < |s| - |r| ==> s[i] in spaces
  {
    if s != [] && s[0] in spaces then TrimStart(s[1..], spaces) else s
  }

  /** `s` without its trailing run of `spaces`. */
  function TrimEnd(s: string, spaces: set<char>): (r: string)
    ensures r == [] || r[|r| - 1] !in spaces
    ensures |r| <= |s| && r == s[..|r|]
    ensures forall i :: |r| <= i < |s| ==> s[i] in spaces
  {
    if s != [] && s[|s| - 1] in spaces then TrimEnd(s[..|s| - 1], spaces) else s
  }

  /** QString::trimmed and QByteArray::trimmed: `s` without white space at
      either end. */
  function Trimmed(s: string, spaces: set<char>): (r: string)
    ensures r == [] || (r[0] !in spaces && r[|r| - 1] !in spaces)
    ensures |r| <= |s|
  {
    TrimEnd(TrimStart(s, spaces), spaces)
  }

  /** Trimming gives the empty string exactly when the text is all white space. */
  lemma TrimmedBlank(s: string, spaces: set<char>)
    ensures Trimmed(s, spaces) == [] <==> forall i :: 0 <= i < |s| ==> s[i] in spaces
  {
    var front := TrimStart(s, spaces);
    if Trimmed(s, spaces) == [] {
      assert front == [];
    }
  }

  /** The white-space separated words of `s`. */
  function Words(s: string): (r: seq<string>)
    ensures forall k :: 0 <= k < |r| ==> r[k] != [] && Free(r[k], ByteSpace)
  {
    NonEmpty(Split(s, ByteSpace))
  }

  /** QByteArray::simplified: the words of `s`, each separated by one space. */
  function Simplified(s: string): (r: string)
    ensures Words(r) == Words(s)
    ensures forall i :: 0 <= i < |r| ==> r[i] == ' ' || r[i] !in ByteSpace
  {
    WordsOfJoin(Words(s));
    JoinFree(Words(s), ' ', ByteSpace - {' '});
    Join(Words(s), ' ')
  }

  /** Length of what QIODevice::readLine returns from `s`: up to and
      including the first line feed, or all of `s`. */
  function LineLength(s: string): (n: nat)
    requires s != []
    ensures 0 < n <= |s|
    ensures '\n' !in s[..n - 1]
    ensures n < |s| ==> s[n - 1] == '\n'
  {
    if s[0] == '\n' || |s| == 1 then 1 else 1 + LineLength(s[1..])
  }

  /** The successive results of readLine until the device is at its end. */
  function Lines(s: string): (r: seq<string>)
    ensures r == [] <==> s == []
    ensures forall k :: 0 <= k < |r| ==> r[k] != []
    decreases |s|
  {
    if s == [] then [] else [s[..LineLength(s)]] + Lines(s[LineLength(s)..])
  }

  function Concat(lines: seq<string>): string {
    if lines == [] then [] else lines[0] + Concat(lines[1..])
  }

  // --- Split and Join -------------------------------------------------------

  lemma {:induction false} SplitFree(p: string, seps: set<char>)
    requires Free(p, seps)
    ensures Split(p, seps) == [p]
  {
    if p != [] {
      SplitFree(p[1..], seps);
      assert [p[0]] + p[1..] == p;
    }
  }

  /** A separator-free prefix followed by a separator is the first part. */
  lemma {:induction false} SplitAfter(p: string, c: char, rest: string, seps: set<char>)
    requires Free(p, seps) && c in seps
    ensures Split(p + [c] + rest, seps) == [p] + Split(rest, seps)
  {
    if p == [] {
      assert (p + [c] + rest)[1..] == rest;
    } else {
      assert (p + [c] + rest)[1..] == p[1..] + [c] + rest;
      SplitAfter(p[1..], c, rest, seps);
      assert [p[0]] + p[1..] == p;
    }
  }

  /** A trailing separator adds one empty part. */
  lemma {:induction false} SplitEndingWith(s: string, c: char, seps: set<char>)
    requires c in seps
    ensures Split(s + [c], seps) == Split(s, seps) + [[]]
  {
    if s == [] {
      assert ([c])[1..] == [];
    } else {
      assert (s + [c])[1..] == s[1..] + [c];
      SplitEndingWith(s[1..], c, seps);
    }
  }

  /** Splitting undoes joining, when no part holds a separator. */
  lemma {:induction false} SplitJoin(parts: seq<string>, sep: char, seps: set<char>)
    requires |parts| >= 1 && sep in seps
    requires forall k :: 0 <= k < |parts| ==> Free(parts[k], seps)
    ensures Split(Join(parts, sep), seps) == parts
  {
    if |parts| == 1 {
      SplitFree(parts[0], seps);
    } else {
      SplitJoin(parts[1..], sep, seps);
      SplitAfter(parts[0], sep, Join(parts[1..], sep), seps);
    }
  }

  /** Joining undoes splitting on a single separator. */
  lemma {:induction false} JoinSplit(s: string, sep: char)
    ensures Join(Split(s, {sep}), sep) == s
  {
    if s != [] {
      JoinSplit(s[1..], sep);
      var rest := Split(s[1..], {sep});
      if s[0] != sep && |rest| > 1 {
        assert ([s[0]] + rest[0]) + [sep] + Join(rest[1..], sep) == [s[0]] + (rest[0] + [sep] + Join(rest[1..], sep));
      }
    }
  }

  /** Joining parts that avoid some characters, with a separator outside them, avoids them too. */
  lemma {:induction false} JoinFree(parts: seq<string>, sep: char, chars: set<char>)
    requires sep !in chars
    requires forall k :: 0 <= k < |parts| ==> Free(parts[k], chars)
    ensures Free(Join(parts, sep), chars)
  {
    if |parts| > 1 {
      JoinFree(parts[1..], sep, chars);
      var j := Join(parts[1..], sep);
      assert Free(parts[0], chars);
      forall i | 0 <= i < |parts[0] + [sep] + j| ensures (parts[0] + [sep] + j)[i] !in chars {
        if i > |parts[0]| {
          assert (parts[0] + [sep] + j)[i] == j[i - |parts[0]| - 1];
        }
      }
    }
  }

  /** Where the first two parts of a split sit in the text: a text without
      separator is its only part; otherwise the first part, a separator and
      the second part begin it, followed by its end or another separator. */
  lemma SplitPrefix(s: string, sep: char)
    ensures var parts := Split(s, {sep}); |parts| == 1 ==> s == parts[0]
    ensures var parts := Split(s, {sep}); |parts| >= 2 ==>
      var k := |parts[0]| + 1 + |parts[1]|;
      k <= |s| && s[..k] == parts[0] + [sep] + parts[1] && (k == |s| || s[k] == sep)
  {
    JoinSplit(s, sep);
    var parts := Split(s, {sep});
    if |parts| == 2 {
      assert s == parts[0] + [sep] + parts[1];
    } else if |parts| > 2 {
      assert s == parts[0] + [sep] + parts[1] + [sep] + Join(parts[2..], sep);
    }
  }

  lemma {:induction false} NonEmptyAll(parts: seq<string>)
    requires forall k :: 0 <= k < |parts| ==> parts[k] != []
    ensures NonEmpty(parts) == parts
  {
    if parts != [] {
      NonEmptyAll(parts[1..]);
    }
  }

  lemma {:induction false} NonEmptyAppend(a: seq<string>, b: seq<string>)
    ensures NonEmpty(a + b) == NonEmpty(a) + NonEmpty(b)
  {
    if a == [] {
      assert a + b == b;
    } else {
      var ab := a + b;
      assert ab[0] == a[0] && ab[1..] == a[1..] + b;
      NonEmptyAppend(a[1..], b);
      var x, y := NonEmpty(a[1..]), NonEmpty(b);
      if a[0] != [] {
        assert [a[0]] + (x + y) == ([a[0]] + x) + y;
      }
    }
  }

  // --- Words and Simplified -------------------------------------------------

  /** Words that are non-empty and hold no white space are their own words once spaced. */
  lemma WordsOfJoin(ws: seq<string>)
    requires forall k :: 0 <= k < |ws| ==> ws[k] != [] && Free(ws[k], ByteSpace)
    ensures Words(Join(ws, ' ')) == ws
  {
    if ws != [] {
      SplitJoin(ws, ' ', ByteSpace);
      NonEmptyAll(ws);
    }
  }

  /** QByteArray::simplified is idempotent and keeps the words. */
  lemma SimplifiedWords(s: string)
    ensures Words(Simplified(s)) == Words(s)
    ensures Simplified(Simplified(s)) == Simplified(s)
  {
    WordsOfJoin(Words(s));
  }

  /** Splitting a simplified line on single spaces, skipping empty parts, gives its words. */
  lemma SimplifiedSplit(s: string)
    ensures NonEmpty(Split(Simplified(s), {' '})) == Words(s)
  {
    var ws := Words(s);
    if ws == [] {
    } else {
      forall k | 0 <= k < |ws| ensures Free(ws[k], {' '}) {
      }
      SplitJoin(ws, ' ', {' '});
      NonEmptyAll(ws);
    }
  }

  /** Words are unaffected by one trailing white-space character. */
  lemma WordsEndingWith(s: string, c: char)
    requires c in ByteSpace
    ensures Words(s + [c]) == Words(s)
  {
    SplitEndingWith(s, c, ByteSpace);
    NonEmptyAppend(Split(s, ByteSpace), [[]]);
  }

  /** A white-space free word followed by white space is the first word. */
  lemma WordsAfter(w: string, c: char, rest: string)
    requires w != [] && Free(w, ByteSpace) && c in ByteSpace
    ensures Words(w + [c] + rest) == [w] + Words(rest)
  {
    SplitAfter(w, c, rest, ByteSpace);
    NonEmptyAppend([w], Split(rest, ByteSpace));
  }

  // --- Lines ----------------------------------------------------------------

  /** The line feed at `k`, with none before it, ends the first line. */
  lemma {:induction false} LineLengthAt(s: string, k: nat)
    requires k < |s| && s[k] == '\n' && '\n' !in s[..k]
    ensures LineLength(s) == k + 1
  {
    if k > 0 {
      assert s[0] == s[..k][0];
      assert s[1..][..k - 1] == s[..k][1..];
      LineLengthAt(s[1..], k - 1);
    }
  }

  /** A line ending in its only line feed is read whole, first. */
  lemma LinesAfter(line: string, rest: string)
    requires line != [] && line[|line| - 1] == '\n' && '\n' !in line[..|line| - 1]
    ensures Lines(line + rest) == [line] + Lines(rest)
  {
    var s := line + rest;
    assert s[..|line| - 1] == line[..|line| - 1];
    LineLengthAt(s, |line| - 1);
    assert s[..|line|] == line && s[|line|..] == rest;
  }

  /** Reading lines back from the concatenation of complete lines gives those lines. */
  lemma {:induction false} LinesOfConcat(lines: seq<string>)
    requires forall k :: 0 <= k < |lines| ==>
      lines[k] != [] && lines[k][|lines[k]| - 1] == '\n' && '\n' !in lines[k][..|lines[k]| - 1]
    ensures Lines(Concat(lines)) == lines
  {
    if lines != [] {
      LinesOfConcat(lines[1..]);
      LinesAfter(lines[0], Concat(lines[1..]));
    }
  }

  /** Reading every line covers the whole text. */
  lemma {:induction false} ConcatOfLines(s: string)
    ensures Concat(Lines(s)) == s
    decreases |s|
  {
    if s != [] {
      var n := LineLength(s);
      ConcatOfLines(s[n..]);
      assert s[..n] + s[n..] == s;
    }
  }
}
