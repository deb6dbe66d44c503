/**
 * The few pieces of Python's `str` behaviour the model relies on:
 * `str.isspace`, `str.strip()`, `sep.join(words)`, `s.split(sep)` and
 * `s.replace(from, to)` for single characters.
 */
module Text {

  /** Python's `str.isspace` on one character: the ASCII whitespace and
      separators (tab, line feed, vertical tab, form feed, carriage return,
      the four information separators, space) and the Unicode spaces. */
  predicate IsWhitespace(c: char) {
    || c == ' '
    || ('\t' <= c <= '\r')
    || ('\U{1C}' <= c <= '\U{1F}')
    || c == '\U{85}' || c == '\U{A0}' || c == '\U{1680}'
    || ('\U{2000}' <= c <= '\U{200A}')
    || c == '\U{2028}' || c == '\U{2029}' || c == '\U{202F}'
    || c == '\U{205F}' || c == '\U{3000}'
  }

  lemma ConcatAssoc(a: string, b: string, c: string)
    ensures (a + b) + c == a + (b + c)
  {
  }

  predicate NoWhitespace(s: string) {
    forall i :: 0 <= i < |s| ==> !IsWhitespace(s[i])
  }

  predicate AllWhitespace(s: string) {
    forall i :: 0 <= i < |s| ==> IsWhitespace(s[i])
  }

  /** `s.lstrip()`: drops the leading whitespace. */
  function TrimLeft(s: string): (r: string)
    ensures |r| <= |s|
  {
    if s != [] && IsWhitespace(s[0]) then TrimLeft(s[1..]) else s
  }

  /** `s.rstrip()`: drops the trailing whitespace. */
  function TrimRight(s: string): (r: string)
    ensures |r| <= |s|
  {
    if s != [] && IsWhitespace(s[|s| - 1]) then TrimRight(s[..|s| - 1]) else s
  }

  /** `s.strip()` with no argument. */
  function Strip(s: string): string {
    TrimRight(TrimLeft(s))
  }

  /** Left-trimming keeps a suffix, drops only whitespace, and stops at the
      first non-whitespace character. */
  lemma {:induction false} TrimLeftSpec(s: string)
    ensures var r := TrimLeft(s);
      && r == s[|s| - |r|..]
      && AllWhitespace(s[..|s| - |r|])
      && (r == [] || !IsWhitespace(r[0]))
  {
    if s != [] && IsWhitespace(s[0]) {
      TrimLeftSpec(s[1..]);
    }
  }

  /** Right-trimming keeps a prefix, drops only whitespace, and stops at the
      last non-whitespace character. */
  lemma {:induction false} TrimRightSpec(s: string)
    ensures var r := TrimRight(s);
      && r == s[..|r|]
      && AllWhitespace(s[|r|..])
      && (r == [] || !IsWhitespace(r[|r| - 1]))
  {
    if s != [] && IsWhitespace(s[|s| - 1]) {
      var t := s[..|s| - 1];
      TrimRightSpec(t);
      var r := TrimRight(t);
      assert s[|r|..] == t[|r|..] + [s[|s| - 1]];
    }
  }

  lemma {:induction false} TrimLeftSkips(ws: string, t: string)
    requires AllWhitespace(ws)
    requires t == [] || !IsWhitespace(t[0])
    ensures TrimLeft(ws + t) == t
  {
    if ws != [] {
      assert (ws + t)[1..] == ws[1..] + t;
      TrimLeftSkips(ws[1..], t);
    }
  }

  lemma {:induction false} TrimRightSkips(t: string, ws: string)
    requires AllWhitespace(ws)
    requires t == [] || !IsWhitespace(t[|t| - 1])
    ensures TrimRight(t + ws) == t
  {
    if ws != [] {
      var n := |ws| - 1;
      assert (t + ws)[..|t + ws| - 1] == t + ws[..n];
      TrimRightSkips(t, ws[..n]);
    } else {
      assert t + ws == t;
    }
  }

  /** `strip` is characterised by what it keeps: whatever lies between a
      whitespace prefix and a whitespace suffix and neither begins nor ends
      with whitespace. */
  lemma StripUnique(ws1: string, m: string, ws2: string)
    requires AllWhitespace(ws1) && AllWhitespace(ws2)
    requires m == [] || (!IsWhitespace(m[0]) && !IsWhitespace(m[|m| - 1]))
    ensures Strip(ws1 + m + ws2) == m
  {
    if m == [] {
      assert ws1 + m + ws2 == (ws1 + ws2) + [];
      TrimLeftSkips(ws1 + ws2, []);
    } else {
      assert ws1 + m + ws2 == ws1 + (m + ws2);
      TrimLeftSkips(ws1, m + ws2);
      TrimRightSkips(m, ws2);
    }
  }

  /** Right-trimming leaves alone a prefix that ends in a non-whitespace
      character. */
  lemma {:induction false} TrimRightKeepsPrefix(p: string, t: string)
    requires p != [] && !IsWhitespace(p[|p| - 1])
    ensures TrimRight(p + t) == p + TrimRight(t)
    decreases |t|
  {
    if t == [] {
      assert p + t == p;
    } else if IsWhitespace(t[|t| - 1]) {
      var n := |t| - 1;
      assert (p + t)[..|p + t| - 1] == p + t[..n];
      TrimRightKeepsPrefix(p, t[..n]);
    }
  }

  /** `sep.join(words)`. */
  function Join(words: seq<string>, sep: char): string
    decreases |words|
  {
    if |words| == 0 then ""
    else if |words| == 1 then words[0]
    else words[0] + [sep] + Join(words[1..], sep)
  }

  /** `s.split(sep)` for a one-character separator: every occurrence of
      `sep` separates two (possibly empty) pieces. */
  function Split(s: string, sep: char): (r: seq<string>)
    ensures |r| >= 1
  {
    if s == [] then [""]
    else if s[0] == sep then [""] + Split(s[1..], sep)
    else var rest := Split(s[1..], sep); [[s[0]] + rest[0]] + rest[1..]
  }

  lemma {:induction false} SplitWord(w: string, sep: char)
    requires sep !in w
    ensures Split(w, sep) == [w]
  {
    if w != [] {
      SplitWord(w[1..], sep);
      assert [w[0]] + w[1..] == w;
    }
  }

  lemma {:induction false} SplitAfterWord(w: string, sep: char, t: string)
    requires sep !in w
    ensures Split(w + [sep] + t, sep) == [w] + Split(t, sep)
  {
    if w == [] {
      assert w + [sep] + t == [sep] + t;
      assert ([sep] + t)[1..] == t;
    } else {
      assert (w + [sep] + t)[1..] == w[1..] + [sep] + t;
      SplitAfterWord(w[1..], sep, t);
      assert [w[0]] + w[1..] == w;
    }
  }

  /** Splitting undoes joining as long as no word holds the separator. */
  lemma {:induction false} SplitJoin(words: seq<string>, sep: char)
    requires |words| >= 1
    requires forall i :: 0 <= i < |words| ==> sep !in words[i]
    ensures Split(Join(words, sep), sep) == words
    decreases |words|
  {
    if |words| == 1 {
      SplitWord(words[0], sep);
    } else {
      SplitAfterWord(words[0], sep, Join(words[1..], sep));
      SplitJoin(words[1..], sep);
    }
  }

  /** Joining two non-empty runs of words is joining each and putting one
      separator between them. */
  lemma {:induction false} JoinAppend(a: seq<string>, b: seq<string>, sep: char)
    requires |a| >= 1 && |b| >= 1
    ensures Join(a + b, sep) == Join(a, sep) + [sep] + Join(b, sep)
    decreases |a|
  {
    if |a| == 1 {
      assert (a + b)[1..] == b;
    } else {
      assert (a + b)[1..] == a[1..] + b;
      JoinAppend(a[1..], b, sep);
    }
  }

  /** A string whose only whitespace is single spaces between words: no
      leading or trailing whitespace and no two spaces in a row. */
  predicate SingleSpaced(s: string) {
    && s != []
    && !IsWhitespace(s[0])
    && !IsWhitespace(s[|s| - 1])
    && (forall i :: 0 <= i < |s| && IsWhitespace(s[i]) ==> s[i] == ' ')
    && (forall i :: 0 <= i < |s| - 1 && s[i] == ' ' ==> s[i + 1] != ' ')
  }

  /** Non-empty words without whitespace, joined by spaces, are single
      spaced. */
  lemma {:induction false} JoinSingleSpaced(words: seq<string>)
    requires |words| >= 1
    requires forall i :: 0 <= i < |words| ==> words[i] != [] && NoWhitespace(words[i])
    ensures SingleSpaced(Join(words, ' '))
    decreases |words|
  {
    if |words| > 1 {
      JoinSingleSpaced(words[1..]);
      var w, rest := words[0], Join(words[1..], ' ');
      var s := w + [' '] + rest;
      assert Join(words, ' ') == s;
      forall i | 0 <= i < |s| && IsWhitespace(s[i]) ensures s[i] == ' ' {
        if i > |w| { assert s[i] == rest[i - |w| - 1]; }
      }
      forall i | 0 <= i < |s| - 1 && s[i] == ' ' ensures s[i + 1] != ' ' {
        if i > |w| { assert s[i] == rest[i - |w| - 1]; }
      }
    }
  }

  /** `s.replace(from, to)` for single characters. */
  function ReplaceChar(s: string, from: char, to: char): (r: string)
    ensures |r| == |s|
    ensures forall i :: 0 <= i < |s| ==> r[i] == if s[i] == from then to else s[i]
  {
    if s == [] then []
    else [if s[0] == from then to else s[0]] + ReplaceChar(s[1..], from, to)
  }
}
