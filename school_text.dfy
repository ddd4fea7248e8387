/**
 * The two text operations of `formatEducationSchools` in script.js: the
 * split of a school line on dotted leaders (the separator `\s*[\.…]+\s*`) and
 * `boldGPA`, which wraps every match of
 * `/(GPA\s*:?[\s\t]*[0-9]+(?:\.[0-9]+)?(?:\s*out of\s*\d+)*)/gi` in
 * `<strong>`.
 */
module SchoolText {
  import opened Opt
  import opened JsText
  import opened Tree

  // ---------------------------------------------------------------------
  // boldGPA
  // ---------------------------------------------------------------------

  /** Length of the run of ASCII digits starting at `q`. */
  function DigitRun(s: string, q: nat): (n: nat)
    requires q <= |s|
    ensures q + n <= |s|
    ensures forall k :: q <= k < q + n ==> IsDigit(s[k])
    ensures q + n == |s| || !IsDigit(s[q + n])
    decreases |s| - q
  {
    if q < |s| && IsDigit(s[q]) then 1 + DigitRun(s, q + 1) else 0
  }

  /** Position after `\s*` at `q`: whitespace quantifiers here must take the whole run. */
  function SkipSpaces(s: string, q: nat): (e: nat)
    requires q <= |s|
    ensures q <= e <= |s|
    ensures e == |s| || !IsSpace(s[e])
    decreases |s| - q
  {
    if q < |s| && IsSpace(s[q]) then SkipSpaces(s, q + 1) else q
  }

  /**
   * `(?:\s*out of\s*\d+)*` from `q`: the end of the last complete
   * repetition. A repetition that fails stops the loop where the previous
   * one ended.
   */
  function OutOfTail(s: string, q: nat): (e: nat)
    requires q <= |s|
    ensures q <= e <= |s|
    decreases |s| - q
  {
    var a := SkipSpaces(s, q);
    if CiAt(s, "out of", a) then
      var b := SkipSpaces(s, a + 6);
      var d := DigitRun(s, b);
      if d > 0 then OutOfTail(s, b + d) else q
    else q
  }

  /**
   * The GPA pattern from the match start `p`: at `q == p` the keyword
   * "GPA" in any case; after it `q` walks the `\s*` that follows, and at
   * its end come the optional colon, `[\s\t]*`, the number with its
   * optional fraction and the "out of" tail.
   */
  function GpaScan(s: string, p: nat, q: nat): (r: Option<nat>)
    requires p <= q <= |s|
    ensures r.Some? ==> p + r.value <= |s| && q < p + r.value
    ensures q == p && r.Some? ==> CiAt(s, "gpa", p) && r.value >= 4
    decreases |s| - q, if q == p then 1 else 0
  {
    if q == p then
      if CiAt(s, "gpa", p) then GpaScan(s, p, p + 3) else None
    else if q < |s| && IsSpace(s[q]) then GpaScan(s, p, q + 1)
    else
      var b := if q < |s| && s[q] == ':' then q + 1 else q;
      var c := SkipSpaces(s, b);
      var d := DigitRun(s, c);
      if d == 0 then None
      else
        var e := c + d;
        var f := if e + 1 < |s| && s[e] == '.' && IsDigit(s[e + 1]) then e + 1 + DigitRun(s, e + 1) else e;
        Some(OutOfTail(s, f) - p)
  }

  /** Length of the GPA match starting at `p`, if one starts there. */
  function GpaAt(s: string, p: nat): (r: Option<nat>)
    requires p <= |s|
    ensures r.Some? ==> p + r.value <= |s| && r.value >= 4 && CiAt(s, "gpa", p)
  {
    GpaScan(s, p, p)
  }

  predicate HasGpa(s: string) {
    exists p :: 0 <= p <= |s| && GpaAt(s, p).Some?
  }

  /** Puts one plain character in front of a run list, joining it to a leading plain run. */
  function ConsPlain(c: char, xs: seq<Inline>): (r: seq<Inline>)
    ensures Flatten(r) == [c] + Flatten(xs)
    ensures SomeStrong(r) <==> SomeStrong(xs)
    ensures StrongRunsStartWithGpa(xs) ==> StrongRunsStartWithGpa(r)
  {
    if xs != [] && xs[0].Plain? then
      var r := [Plain([c] + xs[0].text)] + xs[1..];
      assert r[1..] == xs[1..];
      assert xs == [xs[0]] + xs[1..];
      assert forall i :: 1 <= i < |r| ==> r[i] == xs[i];
      r
    else
      var r := [Plain([c])] + xs;
      assert r[1..] == xs;
      assert forall i :: 1 <= i < |r| ==> r[i] == xs[i - 1];
      r
  }

  lemma CiAtSlice(s: string, w: string, p: nat, n: nat)
    requires CiAt(s, w, p) && |w| <= n && p + n <= |s|
    ensures CiAt(s[p..p + n], w, 0)
  {
    assert s[p..p + n][0..|w|] == s[p..p + |w|];
  }

  /** The runs the global replace produces from position `p` on. */
  function BoldFrom(s: string, p: nat): seq<Inline>
    requires p <= |s|
    decreases |s| - p
  {
    if p == |s| then []
    else
      match GpaAt(s, p)
      case Some(n) => [Strong(s[p..p + n])] + BoldFrom(s, p + n)
      case None => ConsPlain(s[p], BoldFrom(s, p + 1))
  }

  /** One step of the scan: a match at `p` becomes one bold run. */
  lemma BoldFromMatch(s: string, p: nat, n: nat)
    requires p < |s| && GpaAt(s, p) == Some(n)
    ensures BoldFrom(s, p) == [Strong(s[p..p + n])] + BoldFrom(s, p + n)
  {
  }

  /** One step of the scan: without a match at `p` the character there stays plain. */
  lemma BoldFromNoMatch(s: string, p: nat)
    requires p < |s| && GpaAt(s, p).None?
    ensures BoldFrom(s, p) == ConsPlain(s[p], BoldFrom(s, p + 1))
  {
  }

  /** How far one step of the scan moves: past a match, or past one plain character. */
  function Advance(s: string, p: nat): (n: nat)
    requires p < |s|
    ensures 1 <= n && p + n <= |s|
  {
    match GpaAt(s, p)
    case Some(m) => m
    case None => 1
  }

  /** Deleting the inserted tags gives back the text scanned. */
  lemma {:induction false} BoldFromFlatten(s: string, p: nat)
    requires p <= |s|
    ensures Flatten(BoldFrom(s, p)) == s[p..]
    decreases |s| - p
  {
    if p < |s| {
      var n := Advance(s, p);
      BoldFromFlatten(s, p + n);
      FlattenStep(s, p, n);
    }
  }

  lemma FlattenStep(s: string, p: nat, n: nat)
    requires p < |s| && n == Advance(s, p)
    requires Flatten(BoldFrom(s, p + n)) == s[p + n..]
    ensures Flatten(BoldFrom(s, p)) == s[p..]
  {
    if GpaAt(s, p).Some? {
      FlattenMatch(s, p, n);
    } else {
      FlattenNoMatch(s, p);
    }
  }

  lemma FlattenMatch(s: string, p: nat, n: nat)
    requires p < |s| && GpaAt(s, p) == Some(n)
    requires Flatten(BoldFrom(s, p + n)) == s[p + n..]
    ensures Flatten(BoldFrom(s, p)) == s[p..]
  {
    BoldFromMatch(s, p, n);
    FlattenStrongPrefix(s, p, n, BoldFrom(s, p + n));
  }

  lemma FlattenNoMatch(s: string, p: nat)
    requires p < |s| && GpaAt(s, p).None?
    requires Flatten(BoldFrom(s, p + 1)) == s[p + 1..]
    ensures Flatten(BoldFrom(s, p)) == s[p..]
  {
    BoldFromNoMatch(s, p);
    FlattenPlainPrefix(s, p, BoldFrom(s, p + 1));
  }

  lemma FlattenPlainPrefix(s: string, p: nat, xs: seq<Inline>)
    requires p < |s| && Flatten(xs) == s[p + 1..]
    ensures Flatten(ConsPlain(s[p], xs)) == s[p..]
  {
    assert s[p..] == [s[p]] + s[p + 1..];
  }

  lemma FlattenStrongPrefix(s: string, p: nat, n: nat, xs: seq<Inline>)
    requires p + n <= |s| && Flatten(xs) == s[p + n..]
    ensures Flatten([Strong(s[p..p + n])] + xs) == s[p..]
  {
    FlattenCons(Strong(s[p..p + n]), xs);
    assert s[p..] == s[p..p + n] + s[p + n..];
  }

  lemma FlattenCons(x: Inline, xs: seq<Inline>)
    ensures Flatten([x] + xs) == x.text + Flatten(xs)
  {
    assert ([x] + xs)[1..] == xs;
  }

  predicate SomeStrong(r: seq<Inline>) {
    exists i :: 0 <= i < |r| && r[i].Strong?
  }

  predicate StrongRunsStartWithGpa(r: seq<Inline>) {
    forall i :: 0 <= i < |r| && r[i].Strong? ==> CiAt(r[i].text, "gpa", 0)
  }

  predicate GpaFrom(s: string, p: nat) {
    exists q :: p <= q <= |s| && GpaAt(s, q).Some?
  }

  lemma StrongCons(t: string, rest: seq<Inline>)
    requires CiAt(t, "gpa", 0) && StrongRunsStartWithGpa(rest)
    ensures SomeStrong([Strong(t)] + rest)
    ensures StrongRunsStartWithGpa([Strong(t)] + rest)
  {
    var r := [Strong(t)] + rest;
    assert r[0].Strong?;
    assert forall i :: 1 <= i < |r| ==> r[i] == rest[i - 1];
  }

  lemma GpaFromStep(s: string, p: nat)
    requires p < |s| && GpaAt(s, p).None?
    ensures GpaFrom(s, p) <==> GpaFrom(s, p + 1)
  {
    if GpaFrom(s, p) {
      var q :| p <= q <= |s| && GpaAt(s, q).Some?;
      assert q != p;
    }
  }

  /** The scan from `p` emphasises something exactly when a GPA match starts at or after `p`. */
  lemma {:induction false} BoldFromRuns(s: string, p: nat)
    requires p <= |s|
    ensures SomeStrong(BoldFrom(s, p)) <==> GpaFrom(s, p)
    ensures StrongRunsStartWithGpa(BoldFrom(s, p))
    decreases |s| - p
  {
    if p == |s| {
      assert GpaAt(s, p).None?;
    } else {
      var n := Advance(s, p);
      BoldFromRuns(s, p + n);
      if GpaAt(s, p).Some? {
        RunsMatch(s, p, n);
      } else {
        RunsNoMatch(s, p);
      }
    }
  }

  lemma RunsMatch(s: string, p: nat, n: nat)
    requires p < |s| && GpaAt(s, p) == Some(n)
    requires StrongRunsStartWithGpa(BoldFrom(s, p + n))
    ensures SomeStrong(BoldFrom(s, p)) && GpaFrom(s, p)
    ensures StrongRunsStartWithGpa(BoldFrom(s, p))
  {
    BoldFromMatch(s, p, n);
    CiAtSlice(s, "gpa", p, n);
    StrongCons(s[p..p + n], BoldFrom(s, p + n));
    assert p <= p <= |s| && GpaAt(s, p).Some?;
  }

  lemma RunsNoMatch(s: string, p: nat)
    requires p < |s| && GpaAt(s, p).None?
    requires SomeStrong(BoldFrom(s, p + 1)) <==> GpaFrom(s, p + 1)
    requires StrongRunsStartWithGpa(BoldFrom(s, p + 1))
    ensures SomeStrong(BoldFrom(s, p)) <==> GpaFrom(s, p)
    ensures StrongRunsStartWithGpa(BoldFrom(s, p))
  {
    BoldFromNoMatch(s, p);
    GpaFromStep(s, p);
  }

  /**
   * `boldGPA` on a paragraph: the runs of its new content. Deleting the
   * inserted tags gives back the text; a run is bold exactly when the text
   * holds a GPA mention, and every bold run starts with "GPA" in some
   * case; a text with no match is left as it was.
   */
  function BoldGpa(s: string): (r: seq<Inline>)
    ensures Flatten(r) == s
    ensures SomeStrong(r) <==> HasGpa(s)
    ensures StrongRunsStartWithGpa(r)
    ensures !HasGpa(s) ==> r == [Plain(s)]
  {
    GpaOnwardIff(s, 0);
    if GpaOnward(s, 0) then
      BoldFromRuns(s, 0);
      BoldFromFlatten(s, 0);
      assert GpaFrom(s, 0);
      BoldFrom(s, 0)
    else
      var r := [Plain(s)];
      assert Flatten(r) == s + Flatten([]);
      r
  }

  /** The length of the GPA match at every offset of `s`, `None` where none starts. */
  function GpaTable(s: string): (m: seq<Option<nat>>)
    ensures |m| == |s| + 1
    ensures forall q :: 0 <= q <= |s| ==> m[q] == GpaAt(s, q)
  {
    seq(|s| + 1, q requires 0 <= q <= |s| => GpaAt(s, q))
  }

  /** No match starts in `[a, b)` according to the table `m`. */
  predicate NoGpaIn(m: seq<Option<nat>>, a: nat, b: nat)
    requires a <= b <= |m|
  {
    forall q :: a <= q < b ==> m[q].None?
  }

  /**
   * Reading the runs `r` against `s` from `p`, with `m` the match table of
   * `s`: each run spells the next characters of `s`, a bold run is exactly
   * the match that starts where it sits, no match starts inside a plain
   * run, and the runs end with the text.
   */
  predicate MarksIn(s: string, m: seq<Option<nat>>, p: nat, r: seq<Inline>)
    requires p <= |s| && |m| == |s| + 1
    decreases |r|
  {
    if r == [] then p == |s|
    else
      var t := r[0].text;
      p + |t| <= |s| && s[p..p + |t|] == t &&
      (if r[0].Strong? then m[p] == Some(|t|) else NoGpaIn(m, p, p + |t|)) &&
      MarksIn(s, m, p + |t|, r[1..])
  }

  /** The runs `r` mark the GPA matches of `s` from `p` on. */
  predicate MarksFrom(s: string, p: nat, r: seq<Inline>)
    requires p <= |s|
  {
    MarksIn(s, GpaTable(s), p, r)
  }

  /** The scan from `p` bolds exactly the leftmost, non-overlapping GPA matches from `p` on. */
  lemma {:induction false} BoldFromMarks(s: string, p: nat)
    requires p <= |s|
    ensures MarksFrom(s, p, BoldFrom(s, p))
    decreases |s| - p
  {
    var m := GpaTable(s);
    if p < |s| {
      assert m[p] == GpaAt(s, p);
      match GpaAt(s, p)
      case Some(n) =>
        BoldFromMarks(s, p + n);
        BoldFromMatch(s, p, n);
        MarksStrong(s, m, p, n, BoldFrom(s, p + n));
      case None =>
        BoldFromMarks(s, p + 1);
        BoldFromNoMatch(s, p);
        MarksConsPlain(s, m, p, BoldFrom(s, p + 1));
    }
  }

  lemma MarksStrong(s: string, m: seq<Option<nat>>, p: nat, n: nat, xs: seq<Inline>)
    requires p + n <= |s| && |m| == |s| + 1 && m[p] == Some(n) && MarksIn(s, m, p + n, xs)
    ensures MarksIn(s, m, p, [Strong(s[p..p + n])] + xs)
  {
    assert ([Strong(s[p..p + n])] + xs)[1..] == xs;
  }

  lemma MarksConsPlain(s: string, m: seq<Option<nat>>, p: nat, xs: seq<Inline>)
    requires p < |s| && |m| == |s| + 1 && m[p].None? && MarksIn(s, m, p + 1, xs)
    ensures MarksIn(s, m, p, ConsPlain(s[p], xs))
  {
    if xs != [] && xs[0].Plain? {
      assert xs == [Plain(xs[0].text)] + xs[1..];
      MarksMergePlain(s, m, p, xs[0].text, xs[1..]);
    } else {
      assert [s[p]] + [] == [s[p]];
      MarksPlain(s, m, p, [], xs);
    }
  }

  /** A plain character joins the plain run after it. */
  lemma MarksMergePlain(s: string, m: seq<Option<nat>>, p: nat, t: string, rest: seq<Inline>)
    requires p < |s| && |m| == |s| + 1 && m[p].None? && MarksIn(s, m, p + 1, [Plain(t)] + rest)
    ensures MarksIn(s, m, p, [Plain([s[p]] + t)] + rest)
  {
    assert ([Plain(t)] + rest)[1..] == rest;
    MarksPlain(s, m, p, t, rest);
  }

  /** A plain character, then a plain run, then the rest of a marking. */
  lemma MarksPlain(s: string, m: seq<Option<nat>>, p: nat, t: string, rest: seq<Inline>)
    requires p < |s| && |m| == |s| + 1 && m[p].None?
    requires p + 1 + |t| <= |s| && s[p + 1..p + 1 + |t|] == t && NoGpaIn(m, p + 1, p + 1 + |t|)
    requires MarksIn(s, m, p + 1 + |t|, rest)
    ensures MarksIn(s, m, p, [Plain([s[p]] + t)] + rest)
  {
    assert s[p..p + 1 + |t|] == [s[p]] + s[p + 1..p + 1 + |t|];
    assert ([Plain([s[p]] + t)] + rest)[1..] == rest;
  }

  /**
   * `boldGPA` wraps exactly the matches of the global regular expression:
   * every bold run is the whole match starting at its offset, and no match
   * starts at a character left plain.
   */
  lemma BoldGpaMarksMatches(s: string)
    ensures MarksFrom(s, 0, BoldGpa(s))
  {
    if HasGpa(s) {
      GpaOnwardIff(s, 0);
      BoldFromMarks(s, 0);
    } else {
      assert NoGpaIn(GpaTable(s), 0, |s|);
      assert s[0..|s|] == s;
      assert [Plain(s)][1..] == [];
    }
  }

  /** Some GPA match starts at or after `p`, found by scanning forward. */
  predicate GpaOnward(s: string, p: nat)
    requires p <= |s|
    decreases |s| - p
  {
    GpaAt(s, p).Some? || (p < |s| && GpaOnward(s, p + 1))
  }

  lemma {:induction false} GpaOnwardIff(s: string, p: nat)
    requires p <= |s|
    ensures GpaOnward(s, p) <==> GpaFrom(s, p)
    decreases |s| - p
  {
    if p < |s| {
      GpaOnwardIff(s, p + 1);
      if GpaAt(s, p).None? {
        GpaFromStep(s, p);
      }
    }
  }


  /**
   * The "out of" tail takes whole digits only, so in "GPA: 3.8 out of 4.0"
   * the bold run stops before the fraction of the scale.
   */
  lemma GpaOutOfStopsAtInteger()
    ensures BoldGpa("GPA: 3.8 out of 4.0") == [Strong("GPA: 3.8 out of 4"), Plain(".0")]
  {
    var s := "GPA: 3.8 out of 4.0";
    ExampleMatch(s);
    ExampleTail(s);
    BoldFromMatch(s, 0, 17);
    assert HasGpa(s) by { assert GpaAt(s, 0).Some?; }
    assert s[0..17] == "GPA: 3.8 out of 4";
  }

  lemma ExampleMatch(s: string)
    requires s == "GPA: 3.8 out of 4.0"
    ensures GpaAt(s, 0) == Some(17)
  {
    ExampleKeyword(s);
    ExampleKey(s);
    ExampleOutOf(s);
  }

  lemma ExampleKeyword(s: string)
    requires s == "GPA: 3.8 out of 4.0"
    ensures CiAt(s, "gpa", 0)
  {
    var w := AsciiLower(s[0..3]);
    assert w[0] == 'g' && w[1] == 'p' && w[2] == 'a';
    assert w == "gpa";
  }

  lemma ExampleKey(s: string)
    requires s == "GPA: 3.8 out of 4.0"
    ensures GpaScan(s, 0, 3) == Some(OutOfTail(s, 8))
  {
    assert s[3] == ':' && s[4] == ' ' && s[5] == '3' && s[6] == '.' && s[7] == '8' && s[8] == ' ';
    assert SkipSpaces(s, 4) == 5 && DigitRun(s, 5) == 1 && DigitRun(s, 7) == 1;
  }

  lemma ExampleOutOf(s: string)
    requires s == "GPA: 3.8 out of 4.0"
    ensures OutOfTail(s, 8) == 17
  {
    assert s[8] == ' ' && s[15] == ' ' && s[16] == '4' && s[17] == '.';
    assert s[9] == 'o' && s[10] == 'u' && s[11] == 't' && s[12] == ' ' && s[13] == 'o' && s[14] == 'f';
    assert SkipSpaces(s, 8) == 9 && SkipSpaces(s, 15) == 16 && DigitRun(s, 16) == 1;
    OutOfAt(s, 9);
    assert OutOfTail(s, 8) == OutOfTail(s, 17);
    assert OutOfTail(s, 17) == 17 by { assert SkipSpaces(s, 17) == 17; }
  }

  lemma ExampleTail(s: string)
    requires s == "GPA: 3.8 out of 4.0"
    ensures BoldFrom(s, 17) == [Plain(".0")]
  {
    assert s[17] == '.' && s[18] == '0';
    assert BoldFrom(s, 18) == [Plain("0")] by {
      assert GpaAt(s, 18) == None;
      assert BoldFrom(s, 19) == [];
    }
    assert GpaAt(s, 17) == None;
    assert [s[17]] + "0" == ".0";
  }

  lemma OutOfAt(s: string, p: nat)
    requires p + 6 <= |s|
    requires s[p] == 'o' && s[p + 1] == 'u' && s[p + 2] == 't' && s[p + 3] == ' ' && s[p + 4] == 'o' && s[p + 5] == 'f'
    ensures CiAt(s, "out of", p)
  {
    var w := AsciiLower(s[p..p + 6]);
    assert w[0] == 'o' && w[1] == 'u' && w[2] == 't' && w[3] == ' ' && w[4] == 'o' && w[5] == 'f';
    assert w == "out of";
  }

  // ---------------------------------------------------------------------
  // Splitting the school line on dotted leaders
  // ---------------------------------------------------------------------

  /** `[\.…]` */
  predicate IsLeader(c: char) { c == '.' || c == '\U{2026}' }

  predicate NoLeader(s: string) {
    forall k :: 0 <= k < |s| ==> !IsLeader(s[k])
  }

  function LeaderRun(s: string, q: nat): (n: nat)
    requires q <= |s|
    ensures q + n <= |s|
    ensures forall k :: q <= k < q + n ==> IsLeader(s[k])
    ensures q + n == |s| || !IsLeader(s[q + n])
    decreases |s| - q
  {
    if q < |s| && IsLeader(s[q]) then 1 + LeaderRun(s, q + 1) else 0
  }

  /** End of the separator `\s*[\.…]+\s*` when one starts exactly at `q`. */
  function SeparatorAt(s: string, q: nat): (r: Option<nat>)
    requires q <= |s|
    ensures r.Some? ==> q < r.value <= |s|
    ensures q < |s| && IsLeader(s[q]) ==> r.Some?
  {
    var a := SkipSpaces(s, q);
    var d := LeaderRun(s, a);
    if d == 0 then None else Some(SkipSpaces(s, a + d))
  }

  lemma {:induction false} SkipSpacesAllSpace(s: string, q: nat)
    requires q <= |s|
    ensures forall k :: q <= k < SkipSpaces(s, q) ==> IsSpace(s[k])
    decreases |s| - q
  {
    if q < |s| && IsSpace(s[q]) {
      SkipSpacesAllSpace(s, q + 1);
    }
  }

  /**
   * `String.prototype.split` with the separator regex: the piece that
   * started at `p`, still being scanned at `q`, and the pieces after it.
   */
  function SplitFrom(s: string, p: nat, q: nat): (r: seq<string>)
    requires p <= q <= |s|
    requires NoLeader(s[p..q])
    ensures |r| > 0
    ensures forall i :: 0 <= i < |r| ==> NoLeader(r[i])
    decreases |s| - q
  {
    if q == |s| then [s[p..]]
    else
      match SeparatorAt(s, q)
      case Some(e) =>
        var rest := SplitFrom(s, e, e);
        assert forall i :: 1 <= i < |[s[p..q]] + rest| ==> ([s[p..q]] + rest)[i] == rest[i - 1];
        [s[p..q]] + rest
      case None =>
        assert s[p..q + 1] == s[p..q] + [s[q]];
        SplitFrom(s, p, q + 1)
  }

  /** `headerText.split` on the leader separator: no piece holds a leader character. */
  function SplitLeaders(s: string): (r: seq<string>)
    ensures |r| > 0
    ensures forall i :: 0 <= i < |r| ==> NoLeader(r[i])
  {
    SplitFrom(s, 0, 0)
  }

  /** The first position at or after `q` where a separator starts, or the end of the text. */
  function NextSeparator(s: string, q: nat): (i: nat)
    requires q <= |s|
    ensures q <= i <= |s|
    ensures forall j :: q <= j < i ==> SeparatorAt(s, j).None?
    ensures i < |s| ==> SeparatorAt(s, i).Some?
    decreases |s| - q
  {
    if q == |s| || SeparatorAt(s, q).Some? then q else NextSeparator(s, q + 1)
  }

  /** The scan of a piece runs on to the next separator. */
  lemma {:induction false} SplitSkips(s: string, p: nat, q: nat)
    requires p <= q <= |s| && NoLeader(s[p..q])
    ensures NoLeader(s[p..NextSeparator(s, q)])
    ensures SplitFrom(s, p, q) == SplitFrom(s, p, NextSeparator(s, q))
    decreases |s| - q
  {
    if q < |s| && SeparatorAt(s, q).None? {
      assert s[p..q + 1] == s[p..q] + [s[q]];
      SplitSkips(s, p, q + 1);
    }
  }

  /** The piece starting at `p`: up to the next separator, and then the pieces after that separator. */
  lemma SplitPiece(s: string, p: nat)
    requires p <= |s|
    ensures NoLeader(s[p..NextSeparator(s, p)])
    ensures NextSeparator(s, p) == |s| ==> SplitFrom(s, p, p) == [s[p..]]
    ensures NextSeparator(s, p) < |s| ==>
              SplitFrom(s, p, p) == [s[p..NextSeparator(s, p)]] + SplitFrom(s, SeparatorAt(s, NextSeparator(s, p)).value, SeparatorAt(s, NextSeparator(s, p)).value)
  {
    assert s[p..p] == [];
    SplitSkips(s, p, p);
  }

  /** The texts the separator matched between the pieces of the split from `p`. */
  function SeparatorsFrom(s: string, p: nat): seq<string>
    requires p <= |s|
    decreases |s| - p
  {
    var i := NextSeparator(s, p);
    if i == |s| then [] else
      var e := SeparatorAt(s, i).value;
      [s[i..e]] + SeparatorsFrom(s, e)
  }

  /** The pieces with the separators put back between them. */
  function Rejoin(pieces: seq<string>, seps: seq<string>): string
    requires |pieces| == |seps| + 1
    decreases |seps|
  {
    if seps == [] then pieces[0] else pieces[0] + seps[0] + Rejoin(pieces[1..], seps[1..])
  }

  predicate AllLeaders(t: string) {
    forall k :: 0 <= k < |t| ==> IsLeader(t[k])
  }

  /** `t` matches `\s*[\.…]+\s*` as a whole. */
  predicate IsSeparator(t: string) {
    exists a: nat, b: nat :: a < b <= |t| && AllSpace(t[..a]) && AllLeaders(t[a..b]) && AllSpace(t[b..])
  }

  lemma SeparatorShape(s: string, q: nat)
    requires q <= |s| && SeparatorAt(s, q).Some?
    ensures IsSeparator(s[q..SeparatorAt(s, q).value])
  {
    var a := SkipSpaces(s, q);
    var d := LeaderRun(s, a);
    SkipSpacesAllSpace(s, q);
    SkipSpacesAllSpace(s, a + d);
    SeparatorFromParts(s, q, a, a + d, SkipSpaces(s, a + d));
  }

  /** Spaces, then at least one leader, then spaces: a separator. */
  lemma SeparatorFromParts(s: string, q: nat, a: nat, b: nat, e: nat)
    requires q <= a < b <= e <= |s|
    requires forall k :: q <= k < a ==> IsSpace(s[k])
    requires forall k :: a <= k < b ==> IsLeader(s[k])
    requires forall k :: b <= k < e ==> IsSpace(s[k])
    ensures IsSeparator(s[q..e])
  {
    var t := s[q..e];
    assert forall k :: 0 <= k < |t| ==> t[k] == s[q + k];
    assert AllSpace(t[..a - q]);
    assert AllLeaders(t[a - q..b - q]);
    assert AllSpace(t[b - q..]);
  }

  /**
   * The split loses nothing: its pieces with the matched separators put
   * back between them give the text again, and every separator is a match
   * of the separator pattern.
   */
  lemma {:induction false} SplitRejoin(s: string, p: nat)
    requires p <= |s|
    ensures |SplitFrom(s, p, p)| == |SeparatorsFrom(s, p)| + 1
    ensures Rejoin(SplitFrom(s, p, p), SeparatorsFrom(s, p)) == s[p..]
    ensures forall k :: 0 <= k < |SeparatorsFrom(s, p)| ==> IsSeparator(SeparatorsFrom(s, p)[k])
    decreases |s| - p
  {
    SplitPiece(s, p);
    var i := NextSeparator(s, p);
    if i < |s| {
      var e := SeparatorAt(s, i).value;
      SplitRejoin(s, e);
      SeparatorShape(s, i);
      RejoinCons(s, p, i, e, SplitFrom(s, e, e), SeparatorsFrom(s, e));
      SeparatorsCons(s[i..e], SeparatorsFrom(s, e));
    }
  }

  lemma RejoinCons(s: string, p: nat, i: nat, e: nat, pieces: seq<string>, seps: seq<string>)
    requires p <= i < e <= |s| && |pieces| == |seps| + 1 && Rejoin(pieces, seps) == s[e..]
    ensures Rejoin([s[p..i]] + pieces, [s[i..e]] + seps) == s[p..]
  {
    var ps := [s[p..i]] + pieces;
    var ss := [s[i..e]] + seps;
    assert ps[1..] == pieces && ss[1..] == seps;
    assert s[p..] == s[p..i] + s[i..e] + s[e..];
  }

  lemma SeparatorsCons(x: string, seps: seq<string>)
    requires IsSeparator(x) && forall k :: 0 <= k < |seps| ==> IsSeparator(seps[k])
    ensures forall k :: 0 <= k < |[x] + seps| ==> IsSeparator(([x] + seps)[k])
  {
    var ss := [x] + seps;
    assert forall k :: 1 <= k < |ss| ==> ss[k] == seps[k - 1];
  }

  /** A separator starting at a space also starts just after it: the match is the same. */
  lemma SeparatorAfterSpace(s: string, j: nat)
    requires j < |s|
    ensures IsSpace(s[j]) ==> SeparatorAt(s, j) == SeparatorAt(s, j + 1)
  {
  }

  /** A piece followed by a separator does not end in whitespace, or the separator would have started there. */
  lemma PieceEndsTight(s: string, p: nat)
    requires p <= |s| && NextSeparator(s, p) < |s|
    ensures var x := s[p..NextSeparator(s, p)]; x == [] || !IsSpace(x[|x| - 1])
  {
    var i := NextSeparator(s, p);
    if p < i {
      SeparatorAfterSpace(s, i - 1);
      assert s[p..i][i - p - 1] == s[i - 1];
    }
  }

  /**
   * The split is the leftmost-longest one: a piece followed by a separator
   * does not end in whitespace (the separator would have started there),
   * and a piece after a separator does not start with whitespace (the
   * separator's `\s*` takes it).
   */
  lemma {:induction false} SplitTight(s: string, p: nat)
    requires p <= |s|
    ensures EndsTight(SplitFrom(s, p, p))
    ensures (p == |s| || !IsSpace(s[p])) ==> StartsTight(SplitFrom(s, p, p), 0)
    ensures StartsTight(SplitFrom(s, p, p), 1)
    decreases |s| - p
  {
    SplitPiece(s, p);
    var i := NextSeparator(s, p);
    if i < |s| {
      var e := SeparatorAt(s, i).value;
      var rest := SplitFrom(s, e, e);
      SeparatorEnd(s, i);
      SplitTight(s, e);
      PieceEndsTight(s, p);
      PieceStartsTight(s, p, i);
      TightCons(s[p..i], rest, p == |s| || !IsSpace(s[p]));
    } else {
      PieceStartsTight(s, p, |s|);
    }
  }

  /** Every piece but the last is empty or ends in a non-space character. */
  predicate EndsTight(r: seq<string>) {
    forall k :: 0 <= k < |r| - 1 ==> r[k] == [] || !IsSpace(r[k][|r[k]| - 1])
  }

  /** Every piece from index `from` on is empty or starts with a non-space character. */
  predicate StartsTight(r: seq<string>, from: nat) {
    forall k :: from <= k < |r| ==> r[k] == [] || !IsSpace(r[k][0])
  }

  lemma PieceStartsTight(s: string, p: nat, i: nat)
    requires p <= i <= |s|
    ensures (p == |s| || !IsSpace(s[p])) ==> var x := s[p..i]; x == [] || !IsSpace(x[0])
  {
    if p < i { assert s[p..i][0] == s[p]; }
  }

  lemma SeparatorEnd(s: string, q: nat)
    requires q <= |s| && SeparatorAt(s, q).Some?
    ensures SeparatorAt(s, q).value == |s| || !IsSpace(s[SeparatorAt(s, q).value])
  {
  }

  lemma TightCons(x: string, rest: seq<string>, after: bool)
    requires rest != []
    requires after ==> x == [] || !IsSpace(x[0])
    requires x == [] || !IsSpace(x[|x| - 1])
    requires EndsTight(rest) && StartsTight(rest, 0)
    ensures EndsTight([x] + rest)
    ensures after ==> StartsTight([x] + rest, 0)
    ensures StartsTight([x] + rest, 1)
  {
    var r := [x] + rest;
    assert forall k :: 1 <= k < |r| ==> r[k] == rest[k - 1];
  }

  datatype SchoolHeader = SchoolHeader(name: string, trailing: string)

  /**
   * The school name is the first non-empty piece of the line, and the
   * trailing text the other pieces joined by spaces; a line with no
   * non-empty piece is its own name.
   */
  function ParseSchoolHeader(headerText: string): (r: SchoolHeader)
    ensures NoLeader(r.name) || r.name == headerText
    ensures IsTrimmed(r.trailing)
  {
    var parts := NonEmpty(SplitLeaders(headerText));
    var name := if |parts| > 0 then Trim(parts[0]) else headerText;
    var trailing := if |parts| > 1 then Trim(Join(parts[1..], " ")) else [];
    if |parts| > 0 then
      TrimKeepsNoLeader(parts[0]);
      SchoolHeader(name, trailing)
    else SchoolHeader(name, trailing)
  }

  lemma TrimKeepsNoLeader(s: string)
    requires NoLeader(s)
    ensures NoLeader(Trim(s))
  {
    var r := Trim(s);
    TrimSlice(s);
    var i :| SpaceFramed(s, r, i);
    forall k | 0 <= k < |r| ensures r[k] == s[i + k] { }
  }

  /**
   * When the line does not start with a separator, the school name is the
   * text before the first separator, trimmed, and the trailing text is the
   * other non-empty pieces joined by single spaces, trimmed.
   */
  lemma SchoolNameBeforeLeader(s: string)
    requires NextSeparator(s, 0) > 0
    ensures ParseSchoolHeader(s).name == Trim(s[..NextSeparator(s, 0)])
    ensures ParseSchoolHeader(s).trailing == Trim(Join(NonEmpty(SplitLeaders(s)[1..]), " "))
  {
    var i := NextSeparator(s, 0);
    SplitPiece(s, 0);
    var pieces := SplitLeaders(s);
    assert pieces[0] == s[..i];
    assert pieces == [pieces[0]] + pieces[1..];
    assert NonEmpty(pieces) == [pieces[0]] + NonEmpty(pieces[1..]);
  }

  /**
   * When the line starts with a separator, the piece before it is empty and
   * filtered out: the name is the first non-empty later piece, trimmed, or
   * the whole line when there is none, and the trailing text is made of the
   * pieces after that one.
   */
  lemma SchoolNameAfterLeadingLeader(s: string)
    requires NextSeparator(s, 0) == 0
    ensures var rest := NonEmpty(SplitLeaders(s)[1..]);
            ParseSchoolHeader(s).name == (if rest == [] then s else Trim(rest[0])) &&
            ParseSchoolHeader(s).trailing == (if |rest| > 1 then Trim(Join(rest[1..], " ")) else [])
  {
    SplitPiece(s, 0);
    var pieces := SplitLeaders(s);
    assert pieces[0] == [];
    assert pieces == [pieces[0]] + pieces[1..];
    assert NonEmpty(pieces) == NonEmpty(pieces[1..]);
  }

  /** "State College ..... Springfield" names the school "State College", with "Springfield" trailing. */
  lemma StateCollegeExample()
    ensures ParseSchoolHeader("State College ..... Springfield") == SchoolHeader("State College", "Springfield")
  {
    ExampleHeader("State College ..... Springfield");
  }

  lemma ExampleHeader(s: string)
    requires s == "State College ..... Springfield"
    ensures ParseSchoolHeader(s).name == "State College"
    ensures ParseSchoolHeader(s).trailing == "Springfield"
  {
    ExamplePieces(s);
    SchoolNameBeforeLeader(s);
    ExampleName(s[..13]);
    ExampleTrailing(SplitLeaders(s)[1..]);
  }

  lemma ExampleName(name: string)
    requires name == "State College"
    ensures Trim(name) == name
  {
    assert IsTrimmed(name) by { assert name[0] == 'S' && name[12] == 'e'; }
    TrimOfTrimmed(name);
  }

  lemma ExampleTrailing(rest: seq<string>)
    requires rest == ["Springfield"]
    ensures Trim(Join(NonEmpty(rest), " ")) == "Springfield"
  {
    var tail := "Springfield";
    assert NonEmpty(rest) == [tail];
    assert IsTrimmed(tail) by { assert tail[0] == 'S' && tail[10] == 'd'; }
    TrimOfTrimmed(tail);
  }

  lemma ExamplePieces(s: string)
    requires s == "State College ..... Springfield"
    ensures NextSeparator(s, 0) == 13 && s[..13] == "State College"
    ensures SplitLeaders(s)[1..] == ["Springfield"]
  {
    ExampleFirstSeparator(s);
    SplitPiece(s, 0);
    ExampleSecondPiece(s);
    assert SplitLeaders(s) == [s[..13]] + ["Springfield"];
  }

  lemma ExampleFirstSeparator(s: string)
    requires s == "State College ..... Springfield"
    ensures NextSeparator(s, 0) == 13 && SeparatorAt(s, 13) == Some(20)
  {
    ExampleSeparator(s);
    ExampleNameNoSeparator(s);
    NextSeparatorAt(s, 0, 13);
  }

  lemma ExampleNameNoSeparator(s: string)
    requires s == "State College ..... Springfield"
    ensures forall j :: 0 <= j < 13 ==> SeparatorAt(s, j).None?
  {
    forall j | 0 <= j < 13 ensures SeparatorAt(s, j).None? {
      if j == 5 {
        SpaceBeforeWordNoSeparator(s, 5);
      } else {
        assert !IsLeader(s[j]) && !IsSpace(s[j]);
        WordCharNoSeparator(s, j);
      }
    }
  }

  /** No separator starts at a character that is neither a space nor a leader. */
  lemma WordCharNoSeparator(s: string, j: nat)
    requires j < |s| && !IsLeader(s[j]) && !IsSpace(s[j])
    ensures SeparatorAt(s, j).None?
  {
    assert SkipSpaces(s, j) == j;
  }

  /** No separator starts at a space followed by a character that is neither a space nor a leader. */
  lemma SpaceBeforeWordNoSeparator(s: string, j: nat)
    requires j + 1 < |s| && IsSpace(s[j]) && !IsLeader(s[j + 1]) && !IsSpace(s[j + 1])
    ensures SeparatorAt(s, j).None?
  {
    assert SkipSpaces(s, j + 1) == j + 1;
    assert SkipSpaces(s, j) == j + 1;
  }

  lemma ExampleSeparator(s: string)
    requires s == "State College ..... Springfield"
    ensures SeparatorAt(s, 13) == Some(20)
  {
    assert s[13] == ' ' && s[14] == '.' && s[15] == '.' && s[16] == '.' && s[17] == '.' && s[18] == '.';
    assert s[19] == ' ' && s[20] == 'S';
    assert SkipSpaces(s, 14) == 14;
    assert SkipSpaces(s, 13) == 14;
    assert LeaderRun(s, 19) == 0;
    assert LeaderRun(s, 18) == 1;
    assert LeaderRun(s, 17) == 2;
    assert LeaderRun(s, 16) == 3;
    assert LeaderRun(s, 15) == 4;
    assert LeaderRun(s, 14) == 5;
    assert SkipSpaces(s, 20) == 20;
    assert SkipSpaces(s, 19) == 20;
  }

  lemma ExampleSecondPiece(s: string)
    requires s == "State College ..... Springfield"
    ensures SplitFrom(s, 20, 20) == ["Springfield"]
  {
    forall j | 20 <= j < |s| ensures SeparatorAt(s, j).None? {
      assert !IsLeader(s[j]) && !IsSpace(s[j]);
      WordCharNoSeparator(s, j);
    }
    NextSeparatorAt(s, 20, |s|);
    SplitPiece(s, 20);
    assert s[20..] == "Springfield";
  }

  /** The next separator is `i` when none starts before it and one starts there, or `i` is the end. */
  lemma {:induction false} NextSeparatorAt(s: string, q: nat, i: nat)
    requires q <= i <= |s|
    requires forall j :: q <= j < i ==> SeparatorAt(s, j).None?
    requires i == |s| || SeparatorAt(s, i).Some?
    ensures NextSeparator(s, q) == i
    decreases i - q
  {
    if q < i {
      NextSeparatorAt(s, q + 1, i);
    }
  }
}
