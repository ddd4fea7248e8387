/** A small Option type and three sequence facts shared by every module. */
module Opt {
  datatype Option<+T> = None | Some(value: T)

  lemma AppendAssoc<T>(a: seq<T>, b: seq<T>, c: seq<T>)
    ensures a + (b + c) == (a + b) + c
  {
  }

  lemma TakeDrop<T>(xs: seq<T>, n: nat)
    requires n <= |xs|
    ensures xs == xs[..n] + xs[n..]
  {
  }

  lemma AppendNil<T>(xs: seq<T>)
    ensures xs + [] == xs
  {
  }

  lemma LastSplit<T>(xs: seq<T>)
    requires xs != []
    ensures xs == xs[..|xs| - 1] + [xs[|xs| - 1]]
  {
  }
}

/**
 * The string primitives script.js relies on, as ECMAScript defines them:
 * `\s` and `trim()`, `\b` word characters, ASCII case folding of a
 * non-unicode `/i` regular expression, `indexOf`, and `replace` with a
 * string pattern.
 */
module JsText {
  import opened Opt

  /** WhiteSpace and LineTerminator code points: what `\s` matches and `trim()` strips. */
  predicate IsSpace(c: char) {
    c == '\t' || c == '\n' || c == '\U{000B}' || c == '\U{000C}' || c == '\r' || c == ' ' ||
    c == '\U{00A0}' || c == '\U{1680}' || ('\U{2000}' <= c <= '\U{200A}') ||
    c == '\U{2028}' || c == '\U{2029}' || c == '\U{202F}' || c == '\U{205F}' ||
    c == '\U{3000}' || c == '\U{FEFF}'
  }

  predicate IsDigit(c: char) { '0' <= c <= '9' }

  predicate IsAsciiLetter(c: char) { 'A' <= c <= 'Z' || 'a' <= c <= 'z' }

  /** The characters `\w` matches, and so the ones `\b` separates. */
  predicate IsWordChar(c: char) { IsAsciiLetter(c) || IsDigit(c) || c == '_' }

  predicate AllSpace(s: string) {
    forall k :: 0 <= k < |s| ==> IsSpace(s[k])
  }

  predicate NoSpace(s: string) {
    forall k :: 0 <= k < |s| ==> !IsSpace(s[k])
  }

  /** No leading and no trailing whitespace. */
  predicate IsTrimmed(s: string) {
    s == [] || (!IsSpace(s[0]) && !IsSpace(s[|s| - 1]))
  }

  /** Length of the whitespace run that starts `s`. */
  function LeadingSpaces(s: string): (n: nat)
    ensures n <= |s|
    ensures AllSpace(s[..n])
    ensures n == |s| || !IsSpace(s[n])
  {
    if s != [] && IsSpace(s[0]) then 1 + LeadingSpaces(s[1..]) else 0
  }

  /** Length of the whitespace run that ends `s`. */
  function TrailingSpaces(s: string): (n: nat)
    ensures n <= |s|
    ensures AllSpace(s[|s| - n..])
    ensures n == |s| || !IsSpace(s[|s| - n - 1])
  {
    if s != [] && IsSpace(s[|s| - 1]) then 1 + TrailingSpaces(s[..|s| - 1]) else 0
  }

  /**
   * `String.prototype.trim`: `s` without its leading and trailing
   * whitespace, taken off one character at a time from either end.
   */
  function Trim(s: string): (r: string)
    ensures IsTrimmed(r)
    ensures |r| <= |s|
    ensures r == [] <==> AllSpace(s)
    decreases |s|
  {
    if s != [] && IsSpace(s[0]) then
      assert AllSpace(s) <==> AllSpace(s[1..]) by {
        assert forall k :: 1 <= k < |s| ==> s[k] == s[1..][k - 1];
      }
      Trim(s[1..])
    else if s != [] && IsSpace(s[|s| - 1]) then
      assert AllSpace(s) <==> AllSpace(s[..|s| - 1]) by {
        assert forall k :: 0 <= k < |s| - 1 ==> s[k] == s[..|s| - 1][k];
      }
      Trim(s[..|s| - 1])
    else s
  }

  /** `r` sits in `s` at `i` with nothing but whitespace on either side. */
  predicate SpaceFramed(s: string, r: string, i: int) {
    0 <= i <= |s| - |r| && s[i..i + |r|] == r && AllSpace(s[..i]) && AllSpace(s[i + |r|..])
  }

  /** The trim of `s` is a slice of `s` with only whitespace cut on either side. */
  lemma {:induction false} TrimSlice(s: string)
    ensures exists i :: SpaceFramed(s, Trim(s), i)
    decreases |s|
  {
    var r := Trim(s);
    if s != [] && IsSpace(s[0]) {
      var t := s[1..];
      TrimSlice(t);
      var i :| SpaceFramed(t, r, i);
      SliceAfterSpace(s, r, i);
      assert SpaceFramed(s, r, i + 1);
    } else if s != [] && IsSpace(s[|s| - 1]) {
      var t := s[..|s| - 1];
      TrimSlice(t);
      var i :| SpaceFramed(t, r, i);
      SliceBeforeSpace(s, r, i);
      assert SpaceFramed(s, r, i);
    } else {
      assert r == s;
      assert s[0..0 + |r|] == r && s[..0] == [] && s[0 + |r|..] == [];
      assert SpaceFramed(s, r, 0);
    }
  }

  lemma SliceAfterSpace(s: string, r: string, i: int)
    requires s != [] && IsSpace(s[0])
    requires 0 <= i <= |s| - 1 - |r| && s[1..][i..i + |r|] == r
    requires AllSpace(s[1..][..i]) && AllSpace(s[1..][i + |r|..])
    ensures s[i + 1..i + 1 + |r|] == r && AllSpace(s[..i + 1]) && AllSpace(s[i + 1 + |r|..])
  {
    var t := s[1..];
    assert s[i + 1..i + 1 + |r|] == t[i..i + |r|];
    assert s[i + 1 + |r|..] == t[i + |r|..];
    assert s[..i + 1] == [s[0]] + t[..i];
  }

  lemma SliceBeforeSpace(s: string, r: string, i: int)
    requires s != [] && IsSpace(s[|s| - 1])
    requires 0 <= i <= |s| - 1 - |r| && s[..|s| - 1][i..i + |r|] == r
    requires AllSpace(s[..|s| - 1][..i]) && AllSpace(s[..|s| - 1][i + |r|..])
    ensures s[i..i + |r|] == r && AllSpace(s[..i]) && AllSpace(s[i + |r|..])
  {
    var t := s[..|s| - 1];
    assert s[i..i + |r|] == t[i..i + |r|];
    assert s[..i] == t[..i];
    assert s[i + |r|..] == t[i + |r|..] + [s[|s| - 1]];
  }

  /** A trimmed string is its own trim. */
  lemma TrimOfTrimmed(s: string)
    requires IsTrimmed(s)
    ensures Trim(s) == s
  {
  }

  /** Trimming keeps a last character that is not whitespace. */
  lemma {:induction false} TrimKeepsLast(s: string)
    requires s != [] && !IsSpace(s[|s| - 1])
    ensures Trim(s) != [] && Trim(s)[|Trim(s)| - 1] == s[|s| - 1]
    decreases |s|
  {
    if IsSpace(s[0]) {
      TrimKeepsLast(s[1..]);
    }
  }

  function LowerChar(c: char): char {
    if 'A' <= c <= 'Z' then (c as int + 32) as char else c
  }

  /**
   * ASCII lower-casing. A non-unicode `/i` regular expression folds case
   * through `toUpperCase` but never maps a non-ASCII character onto an
   * ASCII one, so for ASCII patterns it matches exactly where this
   * lower-casing of the subject equals the lower-cased pattern.
   */
  function AsciiLower(s: string): (r: string)
    ensures |r| == |s|
    ensures forall k :: 0 <= k < |s| ==> r[k] == LowerChar(s[k])
  {
    seq(|s|, k requires 0 <= k < |s| => LowerChar(s[k]))
  }

  lemma AsciiLowerSlice(s: string, i: nat, j: nat)
    requires i <= j <= |s|
    ensures AsciiLower(s[i..j]) == AsciiLower(s)[i..j]
  {
  }

  /** Case-insensitive occurrence of the lower-case ASCII `word` at `p`. */
  predicate CiAt(s: string, word: string, p: nat) {
    p + |word| <= |s| && AsciiLower(s[p..p + |word|]) == word
  }

  predicate OccursAt(s: string, pat: string, i: nat) {
    i + |pat| <= |s| && s[i..i + |pat|] == pat
  }

  predicate Contains(s: string, pat: string) {
    exists i :: 0 <= i <= |s| && OccursAt(s, pat, i)
  }

  /** The first index at or after `from` where `pat` occurs. */
  function IndexOfFrom(s: string, pat: string, from: nat): (r: Option<nat>)
    requires from <= |s|
    ensures r.Some? ==> from <= r.value && OccursAt(s, pat, r.value)
    ensures r.Some? ==> forall j :: from <= j < r.value ==> !OccursAt(s, pat, j)
    ensures r.None? ==> forall j :: from <= j <= |s| ==> !OccursAt(s, pat, j)
    decreases |s| - from
  {
    if OccursAt(s, pat, from) then Some(from)
    else if from == |s| then None
    else IndexOfFrom(s, pat, from + 1)
  }

  /** `s.indexOf(pat)`, with None for -1. */
  function IndexOf(s: string, pat: string): (r: Option<nat>)
    ensures r.Some? <==> Contains(s, pat)
    ensures r.Some? ==> OccursAt(s, pat, r.value) && forall j :: 0 <= j < r.value ==> !OccursAt(s, pat, j)
  {
    IndexOfFrom(s, pat, 0)
  }

  /** `s.replace(pat, '')` with a string pattern: the first occurrence of `pat` is cut out. */
  function RemoveFirst(s: string, pat: string): (r: string)
    ensures !Contains(s, pat) ==> r == s
    ensures Contains(s, pat) ==> |r| == |s| - |pat|
    ensures Contains(s, pat) ==> exists i: nat :: OccursAt(s, pat, i) && r == s[..i] + s[i + |pat|..] &&
                                           forall j :: 0 <= j < i ==> !OccursAt(s, pat, j)
  {
    match IndexOf(s, pat)
    case None => s
    case Some(i) => s[..i] + s[i + |pat|..]
  }

  predicate IsDash(c: char) { c == '-' || c == '\U{2013}' }

  /** `s.replace(/[–-]/g, ' ')`: every hyphen and en dash becomes a space. */
  function DashesToSpaces(s: string): (r: string)
    ensures |r| == |s|
    ensures NoDash(r)
    ensures forall k :: 0 <= k < |s| && !IsDash(s[k]) ==> r[k] == s[k]
  {
    seq(|s|, k requires 0 <= k < |s| => if IsDash(s[k]) then ' ' else s[k])
  }

  predicate NoDash(s: string) {
    forall k :: 0 <= k < |s| ==> !IsDash(s[k])
  }

  /** The characters of `s` that are not whitespace, in order. */
  function NonSpace(s: string): string {
    if s == [] then [] else (if IsSpace(s[0]) then [] else [s[0]]) + NonSpace(s[1..])
  }

  lemma {:induction false} NonSpaceAppend(a: string, b: string)
    ensures NonSpace(a + b) == NonSpace(a) + NonSpace(b)
  {
    if a != [] {
      var h: string := if IsSpace(a[0]) then [] else [a[0]];
      assert (a + b)[0] == a[0];
      assert (a + b)[1..] == a[1..] + b;
      NonSpaceAppend(a[1..], b);
      calc {
        NonSpace(a + b);
        h + NonSpace(a[1..] + b);
        h + (NonSpace(a[1..]) + NonSpace(b));
        (h + NonSpace(a[1..])) + NonSpace(b);
        NonSpace(a) + NonSpace(b);
      }
    } else {
      assert a + b == b;
    }
  }

  lemma {:induction false} NonSpaceOfSpaces(s: string)
    requires AllSpace(s)
    ensures NonSpace(s) == []
  {
    if s != [] { NonSpaceOfSpaces(s[1..]); }
  }

  /** No two neighbouring characters are both whitespace. */
  predicate NoDoubleSpace(s: string) {
    forall k :: 0 <= k < |s| - 1 ==> !(IsSpace(s[k]) && IsSpace(s[k + 1]))
  }

  /**
   * `s.replace(/\s{2,}/g, ' ')`: every maximal whitespace run of two or
   * more characters becomes one space; a lone whitespace character is kept
   * as it is.
   */
  function CollapseSpaces(s: string): (r: string)
    ensures NoDoubleSpace(r)
    ensures NonSpace(r) == NonSpace(s)
    ensures s != [] ==> r != [] && (IsSpace(r[0]) <==> IsSpace(s[0]))
    ensures s == [] ==> r == []
    ensures NoDoubleSpace(s) ==> r == s
    decreases |s|
  {
    if s == [] then []
    else if IsSpace(s[0]) then
      var n := LeadingSpaces(s);
      var rest := CollapseSpaces(s[n..]);
      CollapseRun(s, n, rest);
      (if n >= 2 then " " else [s[0]]) + rest
    else
      var rest := CollapseSpaces(s[1..]);
      CollapseWord(s, rest);
      [s[0]] + rest
  }

  /** What `CollapseSpaces` promises of its result `r` for `s`. */
  predicate Collapsed(s: string, r: string) {
    NoDoubleSpace(r) && NonSpace(r) == NonSpace(s) &&
    (s != [] ==> r != [] && (IsSpace(r[0]) <==> IsSpace(s[0]))) &&
    (s == [] ==> r == []) && (NoDoubleSpace(s) ==> r == s)
  }

  lemma CollapseRun(s: string, n: nat, rest: string)
    requires 0 < n <= |s| && AllSpace(s[..n]) && (n == |s| || !IsSpace(s[n]))
    requires Collapsed(s[n..], rest)
    ensures Collapsed(s, (if n >= 2 then " " else [s[0]]) + rest)
  {
    var head := if n >= 2 then " " else [s[0]];
    CollapseRunWords(s, n, head, rest);
    CollapseRunShape(s, n, head, rest);
  }

  lemma CollapseRunWords(s: string, n: nat, head: string, rest: string)
    requires 0 < n <= |s| && AllSpace(s[..n]) && head == (if n >= 2 then " " else [s[0]])
    requires NonSpace(rest) == NonSpace(s[n..])
    ensures NonSpace(head + rest) == NonSpace(s)
  {
    TakeDrop(s, n);
    NonSpaceAppend(s[..n], s[n..]);
    NonSpaceOfSpaces(s[..n]);
    NonSpaceAppend(head, rest);
  }

  lemma CollapseRunShape(s: string, n: nat, head: string, rest: string)
    requires 0 < n <= |s| && AllSpace(s[..n]) && (n == |s| || !IsSpace(s[n])) && head == (if n >= 2 then " " else [s[0]])
    requires NoDoubleSpace(rest) && (s[n..] != [] ==> rest != [] && (IsSpace(rest[0]) <==> IsSpace(s[n..][0])))
    requires s[n..] == [] ==> rest == []
    requires NoDoubleSpace(s[n..]) ==> rest == s[n..]
    ensures NoDoubleSpace(head + rest) && IsSpace((head + rest)[0])
    ensures NoDoubleSpace(s) ==> head + rest == s
  {
    NoDoubleCons(head[0], rest);
    SpaceRunBreaks(s, n);
    if NoDoubleSpace(s) {
      NoDoubleTail(s);
      assert s == [s[0]] + s[1..];
    }
  }

  lemma CollapseWord(s: string, rest: string)
    requires s != [] && !IsSpace(s[0])
    requires Collapsed(s[1..], rest)
    ensures Collapsed(s, [s[0]] + rest)
  {
    assert s == [s[0]] + s[1..];
    NonSpaceAppend([s[0]], s[1..]);
    NonSpaceAppend([s[0]], rest);
    NoDoubleCons(s[0], rest);
    if NoDoubleSpace(s) {
      NoDoubleTail(s);
    }
  }

  lemma SpaceRunBreaks(s: string, n: nat)
    requires n <= |s| && AllSpace(s[..n])
    ensures n >= 2 ==> !NoDoubleSpace(s)
  {
    if n >= 2 {
      assert s[..n][0] == s[0] && s[..n][1] == s[1];
    }
  }

  lemma NoDoubleCons(c: char, t: string)
    requires NoDoubleSpace(t) && (!IsSpace(c) || t == [] || !IsSpace(t[0]))
    ensures NoDoubleSpace([c] + t)
  {
    assert forall k :: 1 <= k < |t| + 1 ==> ([c] + t)[k] == t[k - 1];
  }

  lemma NoDoubleTail(s: string)
    requires s != [] && NoDoubleSpace(s)
    ensures NoDoubleSpace(s[1..])
  {
    assert forall k :: 0 <= k < |s| - 1 ==> s[1..][k] == s[k + 1];
  }



  lemma {:induction false} CollapseKeepsNoDash(s: string)
    requires NoDash(s)
    ensures NoDash(CollapseSpaces(s))
    decreases |s|
  {
    if s != [] {
      if IsSpace(s[0]) {
        var n := LeadingSpaces(s);
        assert NoDash(s[n..]);
        CollapseKeepsNoDash(s[n..]);
        var head: string := if n >= 2 then " " else [s[0]];
        assert CollapseSpaces(s) == head + CollapseSpaces(s[n..]);
      } else {
        assert NoDash(s[1..]);
        CollapseKeepsNoDash(s[1..]);
        assert CollapseSpaces(s) == [s[0]] + CollapseSpaces(s[1..]);
      }
    }
  }

  /** The length of the word, a run of non-whitespace characters, that opens `s`. */
  function WordLen(s: string): (n: nat)
    ensures n <= |s|
    ensures NoSpace(s[..n])
    ensures n < |s| ==> IsSpace(s[n])
    decreases |s|
  {
    if s == [] || IsSpace(s[0]) then 0
    else
      var m := WordLen(s[1..]);
      assert s[..1 + m] == [s[0]] + s[1..][..m];
      1 + m
  }

  /** The maximal runs of non-whitespace characters of `s`, in order. */
  function Words(s: string): (ws: seq<string>)
    ensures forall i :: 0 <= i < |ws| ==> ws[i] != [] && NoSpace(ws[i])
    decreases |s|
  {
    if s == [] then []
    else if IsSpace(s[0]) then Words(s[1..])
    else
      var n := WordLen(s);
      [s[..n]] + Words(s[n..])
  }

  lemma {:induction false} WordLenAppend(a: string, t: string)
    requires WordLen(a) < |a|
    ensures WordLen(a + t) == WordLen(a)
    decreases |a|
  {
    if !IsSpace(a[0]) {
      assert (a + t)[1..] == a[1..] + t;
      WordLenAppend(a[1..], t);
    }
  }

  /** Whitespace before a text adds no word. */
  lemma {:induction false} WordsAfterSpaces(u: string, x: string)
    requires AllSpace(u)
    ensures Words(u + x) == Words(x)
    decreases |u|
  {
    if u == [] {
      assert u + x == x;
    } else {
      assert (u + x)[1..] == u[1..] + x;
      WordsAfterSpaces(u[1..], x);
    }
  }

  /** Every whitespace character separates words: the words of `a + [c] + b` are those of `a`, then those of `b`. */
  lemma {:induction false} WordsSplit(a: string, c: char, b: string)
    requires IsSpace(c)
    ensures Words(a + [c] + b) == Words(a) + Words(b)
    decreases |a|
  {
    var s := a + [c] + b;
    if a == [] {
      assert s == [c] + b && s[1..] == b;
    } else if IsSpace(a[0]) {
      assert s[1..] == a[1..] + [c] + b;
      WordsSplit(a[1..], c, b);
    } else if WordLen(a) < |a| {
      WordsSplit(a[WordLen(a)..], c, b);
      WordsSplitInside(a, c, b);
    } else {
      WordsSplitAtEnd(a, c, b);
    }
  }

  /** The first word of `a` ends inside `a`. */
  lemma WordsSplitInside(a: string, c: char, b: string)
    requires a != [] && !IsSpace(a[0]) && WordLen(a) < |a|
    requires Words(a[WordLen(a)..] + [c] + b) == Words(a[WordLen(a)..]) + Words(b)
    ensures Words(a + [c] + b) == Words(a) + Words(b)
  {
    var s := a + [c] + b;
    var n := WordLen(a);
    WordLenAppend(a, [c] + b);
    assert s == a + ([c] + b);
    assert s[..n] == a[..n];
    assert s[n..] == a[n..] + [c] + b;
  }

  /** `a` is one word, ended by `c`. */
  lemma WordsSplitAtEnd(a: string, c: char, b: string)
    requires IsSpace(c) && a != [] && !IsSpace(a[0]) && WordLen(a) == |a|
    ensures Words(a + [c] + b) == Words(a) + Words(b)
  {
    var s := a + [c] + b;
    var n := WordLen(a);
    assert a[..n] == a && a[n..] == [];
    WordLenOfWord(a, [c] + b);
    assert s == a + ([c] + b);
    assert s[..n] == a && s[n..] == [c] + b;
    assert ([c] + b)[1..] == b;
  }

  lemma {:induction false} WordLenOfWord(w: string, t: string)
    requires NoSpace(w) && (t == [] || IsSpace(t[0]))
    ensures WordLen(w + t) == |w|
    decreases |w|
  {
    if w == [] {
      assert w + t == t;
    } else {
      assert (w + t)[1..] == w[1..] + t;
      WordLenOfWord(w[1..], t);
    }
  }

  /** A non-whitespace character in front of `x` opens a word or joins the one that opens `x`. */
  lemma WordsConsChar(c: char, x: string)
    requires !IsSpace(c)
    ensures x == [] || IsSpace(x[0]) ==> Words([c] + x) == [[c]] + Words(x)
    ensures x != [] && !IsSpace(x[0]) ==> Words(x) != [] && Words([c] + x) == [[c] + Words(x)[0]] + Words(x)[1..]
  {
    var s := [c] + x;
    assert s[1..] == x;
    var m := WordLen(x);
    assert s[..1 + m] == [c] + x[..m];
    assert s[1 + m..] == x[m..];
  }

  /** Collapsing whitespace runs keeps every word: each run of two or more becomes one space, never nothing. */
  lemma {:induction false} CollapseKeepsWords(s: string)
    ensures Words(CollapseSpaces(s)) == Words(s)
    decreases |s|
  {
    if s != [] {
      if IsSpace(s[0]) {
        var n := LeadingSpaces(s);
        CollapseKeepsWords(s[n..]);
        SpaceRunWords(s, n, CollapseSpaces(s[n..]));
      } else {
        CollapseKeepsWords(s[1..]);
        WordCharWords(s, CollapseSpaces(s[1..]));
      }
    }
  }

  lemma SpaceRunWords(s: string, n: nat, rest: string)
    requires 0 < n <= |s| && AllSpace(s[..n])
    requires Words(rest) == Words(s[n..])
    ensures Words((if n >= 2 then " " else [s[0]]) + rest) == Words(s)
  {
    SpaceConsWords(if n >= 2 then ' ' else s[0], rest);
    TakeDrop(s, n);
    WordsAfterSpaces(s[..n], s[n..]);
  }

  /** A whitespace character in front adds no word. */
  lemma SpaceConsWords(c: char, rest: string)
    requires IsSpace(c)
    ensures Words([c] + rest) == Words(rest)
  {
    assert ([c] + rest)[1..] == rest;
  }

  lemma WordCharWords(s: string, rest: string)
    requires s != [] && !IsSpace(s[0])
    requires Words(rest) == Words(s[1..])
    requires s[1..] != [] ==> rest != [] && (IsSpace(rest[0]) <==> IsSpace(s[1..][0]))
    requires s[1..] == [] ==> rest == []
    ensures Words([s[0]] + rest) == Words(s)
  {
    assert s == [s[0]] + s[1..];
    WordsConsChar(s[0], rest);
    WordsConsChar(s[0], s[1..]);
  }

  /** Trimming changes no word. */
  lemma {:induction false} TrimKeepsWords(s: string)
    ensures Words(Trim(s)) == Words(s)
    decreases |s|
  {
    if s != [] && IsSpace(s[0]) {
      TrimKeepsWords(s[1..]);
    } else if s != [] && IsSpace(s[|s| - 1]) {
      var t := s[..|s| - 1];
      TrimKeepsWords(t);
      assert s == t + [s[|s| - 1]] + [];
      WordsSplit(t, s[|s| - 1], []);
    }
  }

  /** `.filter(Boolean)` on strings: the non-empty ones, in order. */
  function NonEmpty(parts: seq<string>): (r: seq<string>)
    ensures forall i :: 0 <= i < |r| ==> r[i] != [] && r[i] in parts
    ensures |r| <= |parts|
  {
    if parts == [] then []
    else (if parts[0] == [] then [] else [parts[0]]) + NonEmpty(parts[1..])
  }

  /** `a` is `b` with some elements left out. */
  predicate Subsequence(a: seq<string>, b: seq<string>)
    decreases |b|
  {
    a == [] || (b != [] && (if a[0] == b[0] then Subsequence(a[1..], b[1..]) else Subsequence(a, b[1..])))
  }

  lemma {:induction false} SubsequenceSkip(a: seq<string>, b: seq<string>)
    requires Subsequence(a, b)
    ensures forall x :: Subsequence(a, [x] + b)
    decreases |b|, 1
  {
    forall x ensures Subsequence(a, [x] + b) {
      var c := [x] + b;
      assert c[1..] == b;
      if a != [] && a[0] == x {
        SubsequenceTail(a, b);
      }
    }
  }

  lemma {:induction false} SubsequenceTail(a: seq<string>, b: seq<string>)
    requires a != [] && Subsequence(a, b)
    ensures Subsequence(a[1..], b)
    decreases |b|, 0
  {
    if a[1..] != [] {
      if a[0] == b[0] {
        SubsequenceSkip(a[1..], b[1..]);
        assert b == [b[0]] + b[1..];
      } else {
        SubsequenceTail(a, b[1..]);
        SubsequenceSkip(a[1..], b[1..]);
        assert b == [b[0]] + b[1..];
      }
    }
  }

  /**
   * The filter keeps exactly the non-empty parts: each as many times as it
   * occurs, none of the empty ones, and in their order.
   */
  lemma {:induction false} NonEmptyIsFilter(parts: seq<string>)
    ensures multiset(NonEmpty(parts)) == multiset(parts)[[] := 0]
    ensures Subsequence(NonEmpty(parts), parts)
    decreases |parts|
  {
    if parts != [] {
      NonEmptyIsFilter(parts[1..]);
      FilterCons(parts[0], parts[1..], NonEmpty(parts[1..]), parts);
    }
  }

  lemma FilterCons(x: string, ps: seq<string>, rest: seq<string>, whole: seq<string>)
    requires whole != [] && x == whole[0] && ps == whole[1..]
    requires multiset(rest) == multiset(ps)[[] := 0] && Subsequence(rest, ps)
    ensures multiset((if x == [] then [] else [x]) + rest) == multiset(whole)[[] := 0]
    ensures Subsequence((if x == [] then [] else [x]) + rest, whole)
  {
    assert whole == [x] + ps;
    assert multiset([x] + ps) == multiset{x} + multiset(ps);
    if x == [] {
      assert [] + rest == rest;
      SubsequenceSkip(rest, ps);
    } else {
      var r := [x] + rest;
      assert r[1..] == rest && ([x] + ps)[1..] == ps;
      assert multiset(r) == multiset{x} + multiset(rest);
    }
  }

  /** Filtering after a last part filters the parts before it and then that part. */
  lemma {:induction false} NonEmptySnoc(parts: seq<string>, x: string)
    ensures NonEmpty(parts + [x]) == NonEmpty(parts) + (if x == [] then [] else [x])
    decreases |parts|
  {
    if parts == [] {
      assert [] + [x] == [x];
      assert [x][1..] == [];
    } else {
      assert (parts + [x])[1..] == parts[1..] + [x];
      NonEmptySnoc(parts[1..], x);
    }
  }

  lemma {:induction false} NonEmptyAppend(a: seq<string>, b: seq<string>)
    ensures NonEmpty(a + b) == NonEmpty(a) + NonEmpty(b)
    decreases |a|
  {
    if a == [] {
      assert a + b == b;
    } else {
      assert (a + b)[0] == a[0] && (a + b)[1..] == a[1..] + b;
      NonEmptyAppend(a[1..], b);
    }
  }

  /** `parts.join(sep)`. */
  function Join(parts: seq<string>, sep: string): (r: string)
    ensures parts == [] ==> r == []
    ensures |parts| == 1 ==> r == parts[0]
    decreases |parts|
  {
    if parts == [] then []
    else if |parts| == 1 then parts[0]
    else parts[0] + sep + Join(parts[1..], sep)
  }
}
