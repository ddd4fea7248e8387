/**
 * The Python string operations the document converter relies on:
 * `str.isspace`, `str.strip()`, `str.split()` with no separator and
 * `' '.join`.
 */
module PyText {

  /** `c.isspace()`: the characters Python's argument-less `strip` and `split` treat as whitespace. */
  predicate IsPySpace(c: char) {
    ('\t' <= c <= '\r') || ('\U{001C}' <= c <= ' ') || c == '\U{0085}' || c == '\U{00A0}' ||
    c == '\U{1680}' || ('\U{2000}' <= c <= '\U{200A}') || c == '\U{2028}' || c == '\U{2029}' ||
    c == '\U{202F}' || c == '\U{205F}' || c == '\U{3000}'
  }

  predicate NoPySpace(s: string) {
    forall k :: 0 <= k < |s| ==> !IsPySpace(s[k])
  }

  predicate AllPySpace(s: string) {
    forall k :: 0 <= k < |s| ==> IsPySpace(s[k])
  }

  /** No whitespace at either end. */
  predicate PyTrimmed(s: string) {
    s == [] || (!IsPySpace(s[0]) && !IsPySpace(s[|s| - 1]))
  }

  /**
   * The normal form of a paragraph's text: no whitespace at either end,
   * single spaces between words and no other whitespace.
   */
  predicate Normalised(s: string) {
    PyTrimmed(s) &&
    (forall k :: 0 <= k < |s| && IsPySpace(s[k]) ==> s[k] == ' ') &&
    (forall k :: 0 <= k < |s| - 1 ==> !(IsPySpace(s[k]) && IsPySpace(s[k + 1])))
  }

  /** `s.strip()`: whitespace taken off one character at a time from either end. */
  function PyStrip(s: string): (r: string)
    ensures PyTrimmed(r)
    ensures |r| <= |s|
    ensures r == [] <==> AllPySpace(s)
    decreases |s|
  {
    if s != [] && IsPySpace(s[0]) then
      assert AllPySpace(s) <==> AllPySpace(s[1..]) by {
        assert forall k :: 1 <= k < |s| ==> s[k] == s[1..][k - 1];
      }
      PyStrip(s[1..])
    else if s != [] && IsPySpace(s[|s| - 1]) then
      assert AllPySpace(s) <==> AllPySpace(s[..|s| - 1]) by {
        assert forall k :: 0 <= k < |s| - 1 ==> s[k] == s[..|s| - 1][k];
      }
      PyStrip(s[..|s| - 1])
    else s
  }

  /** `r` sits in `s` at `i` with nothing but whitespace on either side. */
  predicate PySpaceFramed(s: string, r: string, i: int) {
    0 <= i <= |s| - |r| && s[i..i + |r|] == r && AllPySpace(s[..i]) && AllPySpace(s[i + |r|..])
  }

  /** The strip of `s` is a slice of `s` with only whitespace cut on either side. */
  lemma {:induction false} StripSlice(s: string)
    ensures exists i :: PySpaceFramed(s, PyStrip(s), i)
    decreases |s|
  {
    var r := PyStrip(s);
    if s != [] && IsPySpace(s[0]) {
      var t := s[1..];
      StripSlice(t);
      var i :| PySpaceFramed(t, r, i);
      FramedAfterSpace(s, r, i);
      assert PySpaceFramed(s, r, i + 1);
    } else if s != [] && IsPySpace(s[|s| - 1]) {
      var t := s[..|s| - 1];
      StripSlice(t);
      var i :| PySpaceFramed(t, r, i);
      FramedBeforeSpace(s, r, i);
      assert PySpaceFramed(s, r, i);
    } else {
      assert r == s;
      assert s[0..0 + |r|] == r && s[..0] == [] && s[0 + |r|..] == [];
      assert PySpaceFramed(s, r, 0);
    }
  }

  lemma FramedAfterSpace(s: string, r: string, i: int)
    requires s != [] && IsPySpace(s[0])
    requires 0 <= i <= |s| - 1 - |r| && s[1..][i..i + |r|] == r
    requires AllPySpace(s[1..][..i]) && AllPySpace(s[1..][i + |r|..])
    ensures s[i + 1..i + 1 + |r|] == r && AllPySpace(s[..i + 1]) && AllPySpace(s[i + 1 + |r|..])
  {
    var t := s[1..];
    assert s[i + 1..i + 1 + |r|] == t[i..i + |r|];
    assert s[i + 1 + |r|..] == t[i + |r|..];
    assert s[..i + 1] == [s[0]] + t[..i];
  }

  lemma FramedBeforeSpace(s: string, r: string, i: int)
    requires s != [] && IsPySpace(s[|s| - 1])
    requires 0 <= i <= |s| - 1 - |r| && s[..|s| - 1][i..i + |r|] == r
    requires AllPySpace(s[..|s| - 1][..i]) && AllPySpace(s[..|s| - 1][i + |r|..])
    ensures s[i..i + |r|] == r && AllPySpace(s[..i]) && AllPySpace(s[i + |r|..])
  {
    var t := s[..|s| - 1];
    assert s[i..i + |r|] == t[i..i + |r|];
    assert s[..i] == t[..i];
    assert s[i + |r|..] == t[i + |r|..] + [s[|s| - 1]];
  }

  /** The length of the word that opens `s`. */
  function WordLen(s: string): (n: nat)
    ensures n <= |s|
    ensures NoPySpace(s[..n])
    ensures n < |s| ==> IsPySpace(s[n])
    decreases |s|
  {
    if s == [] || IsPySpace(s[0]) then 0
    else
      var m := WordLen(s[1..]);
      assert s[..1 + m] == [s[0]] + s[1..][..m];
      1 + m
  }

  /** `s.split()`: the maximal runs of non-whitespace characters, in order. */
  function Words(s: string): (ws: seq<string>)
    ensures forall i :: 0 <= i < |ws| ==> ws[i] != [] && NoPySpace(ws[i])
    decreases |s|
  {
    if s == [] then []
    else if IsPySpace(s[0]) then Words(s[1..])
    else
      var n := WordLen(s);
      [s[..n]] + Words(s[n..])
  }

  /** `' '.join(ws)`. */
  function JoinSpace(ws: seq<string>): (r: string)
    decreases |ws|
  {
    if ws == [] then []
    else if |ws| == 1 then ws[0]
    else ws[0] + " " + JoinSpace(ws[1..])
  }

  /** Words are separated by whitespace, so one more whitespace character at the end adds none. */
  lemma {:induction false} WordsSpaceAfter(s: string, c: char)
    requires IsPySpace(c)
    ensures Words(s + [c]) == Words(s)
    decreases |s|
  {
    var t := s + [c];
    if s == [] {
      assert t[1..] == [];
    } else if IsPySpace(s[0]) {
      assert t[1..] == s[1..] + [c];
      WordsSpaceAfter(s[1..], c);
    } else {
      var n := WordLen(s);
      WordLenSpaceAfter(s, c);
      assert t[..n] == s[..n];
      assert t[n..] == s[n..] + [c];
      WordsSpaceAfter(s[n..], c);
    }
  }

  lemma {:induction false} WordLenSpaceAfter(s: string, c: char)
    requires IsPySpace(c)
    ensures WordLen(s + [c]) == WordLen(s)
    decreases |s|
  {
    if s != [] && !IsPySpace(s[0]) {
      assert (s + [c])[1..] == s[1..] + [c];
      WordLenSpaceAfter(s[1..], c);
    }
  }

  lemma {:induction false} WordLenAppend(a: string, t: string)
    requires WordLen(a) < |a|
    ensures WordLen(a + t) == WordLen(a)
    decreases |a|
  {
    if !IsPySpace(a[0]) {
      assert (a + t)[1..] == a[1..] + t;
      WordLenAppend(a[1..], t);
    }
  }

  /** Whitespace before a text adds no word. */
  lemma {:induction false} WordsAfterSpaces(u: string, x: string)
    requires AllPySpace(u)
    ensures Words(u + x) == Words(x)
    decreases |u|
  {
    if u == [] {
      assert u + x == x;
    } else {
      assert (u + x)[1..] == u[1..] + x;
      WordsAfterSpaces(u[1..], x);
    }
  }

  /**
   * Every whitespace character separates words: the words of `a + [c] + b`
   * are those of `a`, then those of `b`.  With `WordsOfWord` this pins
   * `Words` down as the maximal runs of non-whitespace characters.
   */
  lemma {:induction false} WordsSplit(a: string, c: char, b: string)
    requires IsPySpace(c)
    ensures Words(a + [c] + b) == Words(a) + Words(b)
    decreases |a|
  {
    var s := a + [c] + b;
    if a == [] {
      assert s == [c] + b && s[1..] == b;
    } else if IsPySpace(a[0]) {
      assert s[1..] == a[1..] + [c] + b;
      WordsSplit(a[1..], c, b);
    } else if WordLen(a) < |a| {
      WordsSplit(a[WordLen(a)..], c, b);
      WordsSplitInside(a, c, b);
    } else {
      WordsSplitAtEnd(a, c, b);
    }
  }

  /** The first word of `a` ends inside `a`. */
  lemma WordsSplitInside(a: string, c: char, b: string)
    requires a != [] && !IsPySpace(a[0]) && WordLen(a) < |a|
    requires Words(a[WordLen(a)..] + [c] + b) == Words(a[WordLen(a)..]) + Words(b)
    ensures Words(a + [c] + b) == Words(a) + Words(b)
  {
    var s := a + [c] + b;
    var n := WordLen(a);
    WordLenAppend(a, [c] + b);
    assert s == a + ([c] + b);
    assert s[..n] == a[..n];
    assert s[n..] == a[n..] + [c] + b;
  }

  /** `a` is one word, ended by `c`. */
  lemma WordsSplitAtEnd(a: string, c: char, b: string)
    requires IsPySpace(c) && a != [] && !IsPySpace(a[0]) && WordLen(a) == |a|
    ensures Words(a + [c] + b) == Words(a) + Words(b)
  {
    assert a[..WordLen(a)] == a;
    WordsOfWord(a);
    WordThenSpace(a, c, b);
  }

  /** Stripping first changes no word. */
  lemma {:induction false} WordsOfStrip(s: string)
    ensures Words(PyStrip(s)) == Words(s)
    decreases |s|
  {
    if s != [] && IsPySpace(s[0]) {
      WordsOfStrip(s[1..]);
    } else if s != [] && IsPySpace(s[|s| - 1]) {
      var t := s[..|s| - 1];
      WordsOfStrip(t);
      assert s == t + [s[|s| - 1]];
      WordsSpaceAfter(t, s[|s| - 1]);
    }
  }

  /** Splitting the words joined by single spaces gives them back. */
  lemma {:induction false} WordsOfJoin(ws: seq<string>)
    requires forall i :: 0 <= i < |ws| ==> ws[i] != [] && NoPySpace(ws[i])
    ensures Words(JoinSpace(ws)) == ws
    decreases |ws|
  {
    if |ws| == 1 {
      WordsOfWord(ws[0]);
    } else if |ws| > 1 {
      WordsCons(ws[0], JoinSpace(ws[1..]));
      WordsOfJoin(ws[1..]);
    }
  }

  lemma WordsOfWord(w: string)
    requires w != [] && NoPySpace(w)
    ensures Words(w) == [w]
  {
    WordLenOfWord(w, []);
    assert w + [] == w;
    assert w[|w|..] == [];
  }

  lemma WordsCons(w: string, rest: string)
    requires w != [] && NoPySpace(w)
    ensures Words(w + " " + rest) == [w] + Words(rest)
  {
    WordThenSpace(w, ' ', rest);
  }

  /** A word, a whitespace character, then the rest. */
  lemma WordThenSpace(w: string, c: char, rest: string)
    requires w != [] && NoPySpace(w) && IsPySpace(c)
    ensures Words(w + [c] + rest) == [w] + Words(rest)
  {
    var s := w + [c] + rest;
    WordLenOfWord(w, [c] + rest);
    assert s == w + ([c] + rest);
    assert s[..|w|] == w;
    assert s[|w|..] == [c] + rest;
    assert ([c] + rest)[1..] == rest;
  }

  lemma {:induction false} WordLenOfWord(w: string, t: string)
    requires NoPySpace(w) && (t == [] || IsPySpace(t[0]))
    ensures WordLen(w + t) == |w|
    decreases |w|
  {
    if w == [] {
      assert w + t == t;
    } else {
      assert (w + t)[1..] == w[1..] + t;
      WordLenOfWord(w[1..], t);
    }
  }

  /** Joining non-empty words by single spaces gives a normalised text that starts and ends with a word character. */
  lemma {:induction false} JoinNormalised(ws: seq<string>)
    requires forall i :: 0 <= i < |ws| ==> ws[i] != [] && NoPySpace(ws[i])
    ensures Normalised(JoinSpace(ws))
    ensures ws != [] ==> JoinSpace(ws) != [] && JoinSpace(ws)[0] == ws[0][0]
    decreases |ws|
  {
    if |ws| > 1 {
      JoinNormalised(ws[1..]);
      var w := ws[0];
      var rest := JoinSpace(ws[1..]);
      var s := w + " " + rest;
      assert s[0] == w[0];
      assert s[|s| - 1] == rest[|rest| - 1];
      forall k | 0 <= k < |s| && IsPySpace(s[k]) ensures s[k] == ' ' {
        if k > |w| { assert s[k] == rest[k - |w| - 1]; }
      }
      forall k | 0 <= k < |s| - 1 ensures !(IsPySpace(s[k]) && IsPySpace(s[k + 1])) {
        if k > |w| { assert s[k] == rest[k - |w| - 1] && s[k + 1] == rest[k - |w|]; }
        else if k == |w| { assert s[k + 1] == rest[0]; }
        else if k == |w| - 1 { assert s[k] == w[k]; }
        else { assert s[k] == w[k] && s[k + 1] == w[k + 1]; }
      }
    }
  }
}
