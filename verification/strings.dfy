/** String helpers shared by the model: `join`, Python's `str.split()` /
    `str.strip()`, case-insensitive substring search and lexicographic order. */
module Strings {

  /** `xs.join(sep)` in JavaScript, `sep.join(xs)` in Python. */
  function Join(xs: seq<string>, sep: string): string
  {
    if |xs| == 0 then ""
    else if |xs| == 1 then xs[0]
    else xs[0] + sep + Join(xs[1..], sep)
  }

  /** Joining a prefix of the list gives a prefix of the joined text. */
  lemma {:induction false} JoinPrefix(xs: seq<string>, k: nat, sep: string)
    requires k <= |xs|
    ensures Join(xs[..k], sep) <= Join(xs, sep)
  {
    if k == 0 {
    } else if k == 1 {
      assert xs[..k] == [xs[0]];
    } else {
      assert xs[..k][1..] == xs[1..][..k-1];
      JoinPrefix(xs[1..], k - 1, sep);
    }
  }

  /** The six ASCII whitespace characters: space, tab, line feed, carriage
      return, vertical tab and form feed. JavaScript's `trim` counts exactly
      these among ASCII; Python's `str.isspace` also counts the separators
      U+001C to U+001F, which are not whitespace here. */
  predicate IsWhitespace(c: char) {
    c == ' ' || c == '\t' || c == '\n' || c == '\r' || c == '\U{0B}' || c == '\U{0C}'
  }

  predicate NoWhitespace(s: string) {
    forall i :: 0 <= i < |s| ==> !IsWhitespace(s[i])
  }

  /** Length of the leading run of non-whitespace characters. */
  function WordLength(s: string): (n: nat)
    ensures n <= |s|
    ensures NoWhitespace(s[..n])
    ensures n < |s| ==> IsWhitespace(s[n])
  {
    if |s| == 0 || IsWhitespace(s[0]) then 0
    else
      var n := 1 + WordLength(s[1..]);
      assert s[..n] == [s[0]] + s[1..][..n-1];
      n
  }

  /** Python's `s.split()` with no argument: the maximal whitespace-free runs. */
  function Words(s: string): (ws: seq<string>)
    ensures forall i :: 0 <= i < |ws| ==> |ws[i]| > 0 && NoWhitespace(ws[i])
    decreases |s|
  {
    if |s| == 0 then []
    else if IsWhitespace(s[0]) then Words(s[1..])
    else
      var n := WordLength(s);
      [s[..n]] + Words(s[n..])
  }

  /** No leading or trailing whitespace, every whitespace character is a
      plain space, and no two whitespace characters are adjacent. */
  predicate SingleSpaced(r: string) {
    && (|r| > 0 ==> !IsWhitespace(r[0]) && !IsWhitespace(r[|r|-1]))
    && (forall i :: 0 <= i < |r| && IsWhitespace(r[i]) ==> r[i] == ' ')
    && (forall i :: 0 < i < |r| && IsWhitespace(r[i]) ==> !IsWhitespace(r[i-1]))
  }

  predicate AreWords(ws: seq<string>) {
    forall i :: 0 <= i < |ws| ==> |ws[i]| > 0 && NoWhitespace(ws[i])
  }

  lemma AreWordsAppend(a: seq<string>, b: seq<string>)
    requires AreWords(a) && AreWords(b)
    ensures AreWords(a + b)
  {
    forall i | 0 <= i < |a + b| ensures |(a + b)[i]| > 0 && NoWhitespace((a + b)[i]) {
      if i < |a| { assert (a + b)[i] == a[i]; } else { assert (a + b)[i] == b[i - |a|]; }
    }
  }

  /** Words joined by single spaces are single-spaced. */
  lemma {:induction false} JoinWordsSingleSpaced(ws: seq<string>)
    requires AreWords(ws)
    ensures SingleSpaced(Join(ws, " "))
    ensures |ws| > 0 ==> |Join(ws, " ")| > 0
  {
    if |ws| <= 1 {
    } else {
      var w, t := ws[0], Join(ws[1..], " ");
      JoinWordsSingleSpaced(ws[1..]);
      var r := w + " " + t;
      assert r == Join(ws, " ");
      forall i | 0 <= i < |r| && IsWhitespace(r[i])
        ensures r[i] == ' '
      {
        if i > |w| {
          assert r[i] == t[i - |w| - 1];
        }
      }
      forall i | 0 < i < |r| && IsWhitespace(r[i])
        ensures !IsWhitespace(r[i-1])
      {
        if i > |w| + 1 {
          assert r[i] == t[i - |w| - 1] && r[i-1] == t[i - |w| - 2];
        }
      }
    }
  }

  /** `' '.join(s.split())`: whitespace runs collapsed to one space, no
      whitespace at either end. */
  function NormalizeSpace(s: string): (r: string)
    ensures SingleSpaced(r)
    ensures |r| == 0 <==> |Words(s)| == 0
  {
    JoinWordsSingleSpaced(Words(s));
    Join(Words(s), " ")
  }

  lemma {:induction false} WordLengthOfWord(w: string, t: string)
    requires NoWhitespace(w)
    requires |t| == 0 || IsWhitespace(t[0])
    ensures WordLength(w + t) == |w|
  {
    if |w| > 0 {
      assert (w + t)[1..] == w[1..] + t;
      WordLengthOfWord(w[1..], t);
    }
  }

  lemma WordsOfWordThenRest(w: string, t: string)
    requires |w| > 0 && NoWhitespace(w)
    requires |t| == 0 || IsWhitespace(t[0])
    ensures Words(w + t) == [w] + Words(t)
  {
    WordLengthOfWord(w, t);
    assert (w + t)[..|w|] == w;
    assert (w + t)[|w|..] == t;
  }

  /** Splitting single-space-joined words gives the words back. */
  lemma {:induction false} WordsOfJoin(ws: seq<string>)
    requires AreWords(ws)
    ensures Words(Join(ws, " ")) == ws
  {
    if |ws| == 0 {
    } else if |ws| == 1 {
      WordsOfWordThenRest(ws[0], "");
      assert ws[0] + "" == ws[0];
    } else {
      var t := Join(ws[1..], " ");
      WordsOfJoin(ws[1..]);
      assert (" " + t)[1..] == t;
      assert Words(" " + t) == Words(t);
      WordsOfWordThenRest(ws[0], " " + t);
      assert ws[0] + " " + t == ws[0] + (" " + t);
    }
  }

  /** Normalising twice is normalising once. */
  lemma NormalizeSpaceIdempotent(s: string)
    ensures NormalizeSpace(NormalizeSpace(s)) == NormalizeSpace(s)
  {
    WordsOfJoin(Words(s));
  }

  predicate AllWhitespace(s: string) {
    forall k :: 0 <= k < |s| ==> IsWhitespace(s[k])
  }

  /** `r` is `s[i..j]` and everything outside it is whitespace. */
  predicate TrimmedAt(r: string, s: string, i: nat, j: nat) {
    i <= j <= |s| && r == s[i..j] && AllWhitespace(s[..i]) && AllWhitespace(s[j..])
  }

  /** Number of leading whitespace characters. */
  function LeadingSpace(s: string): (n: nat)
    ensures n <= |s| && AllWhitespace(s[..n])
    ensures n < |s| ==> !IsWhitespace(s[n])
  {
    if |s| == 0 || !IsWhitespace(s[0]) then 0
    else
      var n := 1 + LeadingSpace(s[1..]);
      assert s[..n] == [s[0]] + s[1..][..n-1];
      n
  }

  /** Number of trailing whitespace characters. */
  function TrailingSpace(s: string): (n: nat)
    ensures n <= |s| && AllWhitespace(s[|s|-n..])
    ensures n < |s| ==> !IsWhitespace(s[|s|-n-1])
  {
    if |s| == 0 || !IsWhitespace(s[|s|-1]) then 0
    else
      var t := s[..|s|-1];
      var n := 1 + TrailingSpace(t);
      assert s[|s|-n..] == t[|t|-(n-1)..] + [s[|s|-1]];
      n
  }

  /** Python's `s.strip()` with no argument. */
  function Strip(s: string): (r: string)
    ensures |r| > 0 ==> !IsWhitespace(r[0]) && !IsWhitespace(r[|r|-1])
    ensures exists i: nat, j: nat :: TrimmedAt(r, s, i, j)
  {
    var i := LeadingSpace(s);
    if i == |s| then
      assert TrimmedAt([], s, i, i);
      []
    else
      var j := |s| - TrailingSpace(s);
      assert TrimmedAt(s[i..j], s, i, j);
      s[i..j]
  }

  /** ASCII lower-casing, the case folding of a case-insensitive match. */
  function LowerChar(c: char): char {
    if 'A' <= c <= 'Z' then (c as int + 32) as char else c
  }

  function Lower(s: string): (r: string)
    ensures |r| == |s|
    ensures forall i :: 0 <= i < |s| ==> r[i] == LowerChar(s[i])
  {
    seq(|s|, i requires 0 <= i < |s| => LowerChar(s[i]))
  }

  /** `needle` occurs in `hay` at some position. */
  predicate Contains(hay: string, needle: string) {
    exists i: nat | i <= |hay| :: OccursAt(hay, needle, i)
  }

  predicate OccursAt(hay: string, needle: string, i: nat) {
    i + |needle| <= |hay| && hay[i..i + |needle|] == needle
  }

  /** SQL `ILIKE '%needle%'`: substring match after case folding. */
  predicate ContainsInsensitive(hay: string, needle: string) {
    Contains(Lower(hay), Lower(needle))
  }

  /** Lexicographic order on code points, JavaScript's default `sort()`
      order for strings. */
  predicate LexLe(a: string, b: string)
    decreases |a|
  {
    if |a| == 0 then true
    else if |b| == 0 then false
    else if a[0] != b[0] then a[0] < b[0]
    else LexLe(a[1..], b[1..])
  }

  lemma {:induction false} LexLeTotal(a: string, b: string)
    ensures LexLe(a, b) || LexLe(b, a)
    decreases |a|
  {
    if |a| > 0 && |b| > 0 && a[0] == b[0] {
      LexLeTotal(a[1..], b[1..]);
    }
  }

  lemma {:induction false} LexLeAntisymmetric(a: string, b: string)
    requires LexLe(a, b) && LexLe(b, a)
    ensures a == b
    decreases |a|
  {
    if |a| > 0 && |b| > 0 {
      LexLeAntisymmetric(a[1..], b[1..]);
      assert a == [a[0]] + a[1..] && b == [b[0]] + b[1..];
    }
  }
}
