/**
 * `buildEducationByColon` in script.js: the container's paragraphs and
 * list items become segments; a segment whose text before the first colon
 * is title-like opens an entry (its date taken from the text after the
 * colon), the others are details of the open entry; entries are rendered
 * with consecutive list-item details grouped into one list.
 */
module Colon {
  import opened Opt
  import opened JsText
  import opened Patterns
  import opened Tree
  import Entries

  /** A non-empty trimmed text and whether it came from an `<li>` (else a `<p>`). */
  datatype Segment = Segment(text: string, bullet: bool)

  datatype ColonEntry = ColonEntry(title: string, meta: string, body: seq<Segment>)

  /** The texts of a child: a paragraph's text, or the texts of a list's items. */
  function RawTexts(b: Block): seq<string> {
    match b
    case UL(raw) => raw
    case P(text) => [text]
  }

  /** The texts of the segments, in order. */
  function SegTexts(segs: seq<Segment>): (r: seq<string>)
    ensures |r| == |segs| && forall i :: 0 <= i < |segs| ==> r[i] == segs[i].text
  {
    seq(|segs|, i requires 0 <= i < |segs| => segs[i].text)
  }

  /**
   * The segments of one child: its texts trimmed, the empty ones dropped,
   * in order, each marked as a list item exactly when the child is a list.
   */
  function BlockSegments(b: Block): (r: seq<Segment>)
    ensures forall i :: 0 <= i < |r| ==> r[i].text != [] && IsTrimmed(r[i].text)
    ensures forall i :: 0 <= i < |r| ==> (r[i].bullet <==> b.UL?)
    ensures SegTexts(r) == NonEmpty(Entries.TrimAll(RawTexts(b)))
  {
    match b
    case UL(raw) =>
      var items := Entries.TrimmedItems(raw);
      Entries.TrimmedItemsFilter(raw);
      var r := ItemSegments(items);
      assert SegTexts(r) == items;
      r
    case P(text) =>
      var t := Trim(text);
      assert Entries.TrimAll([text]) == [t];
      assert [t][1..] == [];
      if t == [] then [] else [Segment(t, false)]
  }

  /** List items as segments, one each, in order. */
  function ItemSegments(items: seq<string>): (r: seq<Segment>)
    ensures |r| == |items|
    ensures forall i :: 0 <= i < |r| ==> r[i] == Segment(items[i], true)
  {
    seq(|items|, i requires 0 <= i < |items| => Segment(items[i], true))
  }

  lemma ItemSegmentsSnoc(items: seq<string>, x: string)
    ensures ItemSegments(items + [x]) == ItemSegments(items) + [Segment(x, true)]
  {
  }

  /** The segments of the container's children, in document order. */
  function Segments(bs: seq<Block>): seq<Segment>
    decreases |bs|
  {
    if bs == [] then [] else Segments(bs[..|bs| - 1]) + BlockSegments(bs[|bs| - 1])
  }

  /** The texts of the children, in document order. */
  function AllRawTexts(bs: seq<Block>): seq<string>
    decreases |bs|
  {
    if bs == [] then [] else AllRawTexts(bs[..|bs| - 1]) + RawTexts(bs[|bs| - 1])
  }

  lemma TrimAllAppend(a: seq<string>, b: seq<string>)
    ensures Entries.TrimAll(a + b) == Entries.TrimAll(a) + Entries.TrimAll(b)
  {
  }

  lemma SegTextsAppend(a: seq<Segment>, b: seq<Segment>)
    ensures SegTexts(a + b) == SegTexts(a) + SegTexts(b)
  {
  }

  /** The segments hold every text of the children, trimmed, with the empty ones dropped, in document order. */
  lemma {:induction false} SegmentsTexts(bs: seq<Block>)
    ensures SegTexts(Segments(bs)) == NonEmpty(Entries.TrimAll(AllRawTexts(bs)))
    decreases |bs|
  {
    if bs != [] {
      var init := bs[..|bs| - 1];
      var last := bs[|bs| - 1];
      SegmentsTexts(init);
      SegTextsAppend(Segments(init), BlockSegments(last));
      TrimAllAppend(AllRawTexts(init), RawTexts(last));
      NonEmptyAppend(Entries.TrimAll(AllRawTexts(init)), Entries.TrimAll(RawTexts(last)));
    }
  }

  predicate WellFormed(segs: seq<Segment>) {
    forall i :: 0 <= i < |segs| ==> segs[i].text != [] && IsTrimmed(segs[i].text)
  }

  lemma WellFormedAppend(a: seq<Segment>, b: seq<Segment>)
    requires WellFormed(a) && WellFormed(b)
    ensures WellFormed(a + b)
  {
    assert forall i :: |a| <= i < |a + b| ==> (a + b)[i] == b[i - |a|];
  }

  /** Every segment holds a non-empty trimmed text. */
  lemma {:induction false} SegmentsWellFormed(bs: seq<Block>)
    ensures WellFormed(Segments(bs))
    decreases |bs|
  {
    if bs != [] {
      SegmentsWellFormed(bs[..|bs| - 1]);
      WellFormedAppend(Segments(bs[..|bs| - 1]), BlockSegments(bs[|bs| - 1]));
    }
  }

  /** The first colon of `t` and the trimmed texts on either side of it. */
  datatype Sides = Sides(lhs: string, rhs: string)

  /** `t.indexOf(':')`, with None for -1. */
  function FirstColon(t: string, from: nat): (r: Option<nat>)
    requires from <= |t|
    ensures r.Some? ==> from <= r.value < |t| && t[r.value] == ':' && forall j :: from <= j < r.value ==> t[j] != ':'
    ensures r.None? ==> forall j :: from <= j < |t| ==> t[j] != ':'
    decreases |t| - from
  {
    if from == |t| then None
    else if t[from] == ':' then Some(from)
    else FirstColon(t, from + 1)
  }

  function SplitColon(t: string): (r: Option<Sides>)
    ensures r.None? <==> forall j :: 0 <= j < |t| ==> t[j] != ':'
    ensures r.Some? ==> exists c: nat :: c < |t| && t[c] == ':' && (forall j :: 0 <= j < c ==> t[j] != ':') &&
                                        r.value == Sides(Trim(t[..c]), Trim(t[c + 1..]))
  {
    match FirstColon(t, 0)
    case None => None
    case Some(c) =>
      SidesAtColon(t, c);
      Some(Sides(Trim(t[..c]), Trim(t[c + 1..])))
  }

  /** The sides split at the first colon `c`, as `SplitColon` promises them. */
  lemma SidesAtColon(t: string, c: nat)
    requires c < |t| && t[c] == ':' && forall j :: 0 <= j < c ==> t[j] != ':'
    ensures exists c': nat :: c' < |t| && t[c'] == ':' && (forall j :: 0 <= j < c' ==> t[j] != ':') &&
                             Sides(Trim(t[..c]), Trim(t[c + 1..])) == Sides(Trim(t[..c']), Trim(t[c' + 1..]))
  {
  }

  /** A segment that opens an entry: it has a colon and the text before it is title-like. */
  predicate IsColonHeading(seg: Segment) {
    var s := SplitColon(seg.text);
    s.Some? && IsTitleCandidate(s.value.lhs)
  }

  /**
   * The entry a heading segment opens: titled by the text before the colon,
   * with the date DATE_RE finds in the text after it, and that text, less
   * the date, as the first detail, of the segment's own kind.
   */
  function OpenColonEntry(seg: Segment): (e: ColonEntry)
    requires IsColonHeading(seg)
    ensures e.title == SplitColon(seg.text).value.lhs && IsTitleCandidate(e.title)
    ensures e.meta == (var m := MatchDate(SplitColon(seg.text).value.rhs); if m.Some? then m.value else [])
    ensures var rhs := SplitColon(seg.text).value.rhs;
            var rest := if e.meta != [] then DateResidual(rhs, e.meta) else rhs;
            e.body == if rest != [] then [Segment(rest, seg.bullet)] else []
  {
    var sides := SplitColon(seg.text).value;
    var m := MatchDate(sides.rhs);
    var rhsText := if m.Some? then DateResidual(sides.rhs, m.value) else sides.rhs;
    ColonEntry(sides.lhs, if m.Some? then m.value else [], if rhsText != [] then [Segment(rhsText, seg.bullet)] else [])
  }

  datatype ColonAcc = ColonAcc(done: seq<ColonEntry>, open: Option<ColonEntry>)

  /** `flushEntry`: the open entry, if any, is committed. */
  function Flush(acc: ColonAcc): seq<ColonEntry> {
    acc.done + (if acc.open.Some? then [acc.open.value] else [])
  }

  /** One segment: a heading flushes and opens, a detail goes to the open entry or is dropped. */
  function ColonStep(acc: ColonAcc, seg: Segment): ColonAcc
  {
    if IsColonHeading(seg) then ColonAcc(Flush(acc), Some(OpenColonEntry(seg)))
    else if acc.open.Some? then
      ColonAcc(acc.done, Some(acc.open.value.(body := acc.open.value.body + [seg])))
    else acc
  }

  function ColonRun(acc: ColonAcc, segs: seq<Segment>): ColonAcc
    decreases |segs|
  {
    if segs == [] then acc else ColonStep(ColonRun(acc, segs[..|segs| - 1]), segs[|segs| - 1])
  }

  function ColonEntries(segs: seq<Segment>): seq<ColonEntry>
  {
    Flush(ColonRun(ColonAcc([], None), segs))
  }

  function HeadingCount(segs: seq<Segment>): nat
    decreases |segs|
  {
    if segs == [] then 0 else HeadingCount(segs[..|segs| - 1]) + (if IsColonHeading(segs[|segs| - 1]) then 1 else 0)
  }

  predicate TitledEntries(es: seq<ColonEntry>) {
    forall i :: 0 <= i < |es| ==> IsTitleCandidate(es[i].title)
  }

  lemma ColonStepFacts(acc: ColonAcc, seg: Segment)
    requires TitledEntries(Flush(acc))
    ensures TitledEntries(Flush(ColonStep(acc, seg)))
    ensures |Flush(ColonStep(acc, seg))| == |Flush(acc)| + (if IsColonHeading(seg) then 1 else 0)
    ensures ColonStep(acc, seg).open.None? ==> ColonStep(acc, seg) == acc
  {
    var f := Flush(acc);
    if IsColonHeading(seg) {
      var e := OpenColonEntry(seg);
      assert ColonStep(acc, seg) == ColonAcc(f, Some(e));
      TitledSnoc(f, e);
    } else if acc.open.Some? {
      var o := acc.open.value;
      var o2 := o.(body := o.body + [seg]);
      assert ColonStep(acc, seg) == ColonAcc(acc.done, Some(o2));
      TitledReplaceLast(acc.done, o, o2);
    }
  }

  lemma TitledSnoc(es: seq<ColonEntry>, e: ColonEntry)
    requires TitledEntries(es) && IsTitleCandidate(e.title)
    ensures TitledEntries(es + [e])
  {
    assert forall i :: 0 <= i < |es| ==> (es + [e])[i] == es[i];
  }

  lemma TitledReplaceLast(done: seq<ColonEntry>, o: ColonEntry, o2: ColonEntry)
    requires TitledEntries(done + [o]) && o2.title == o.title
    ensures TitledEntries(done + [o2])
  {
    assert forall i :: 0 <= i < |done| ==> (done + [o2])[i] == (done + [o])[i];
    assert (done + [o])[|done|] == o;
  }

  /**
   * Exactly one entry per heading segment, each titled by a title-like
   * text; so no heading segment means no entry.
   */
  lemma {:induction false} ColonEntriesCount(segs: seq<Segment>)
    ensures |ColonEntries(segs)| == HeadingCount(segs)
    ensures TitledEntries(ColonEntries(segs))
    decreases |segs|
  {
    if segs != [] {
      var init := segs[..|segs| - 1];
      ColonEntriesCount(init);
      ColonStepFacts(ColonRun(ColonAcc([], None), init), segs[|segs| - 1]);
    }
  }

  /**
   * `ColonRun` from an empty state: details before the first heading are
   * dropped without a trace, so the state stays empty until a heading.
   */
  lemma {:induction false} NoHeadingNoEntry(segs: seq<Segment>)
    requires HeadingCount(segs) == 0
    ensures ColonRun(ColonAcc([], None), segs) == ColonAcc([], None)
    decreases |segs|
  {
    if segs != [] {
      var init := segs[..|segs| - 1];
      NoHeadingNoEntry(init);
      assert !IsColonHeading(segs[|segs| - 1]);
    }
  }

  /** No segment of `segs` is a heading. */
  predicate NoHeading(segs: seq<Segment>) {
    forall i :: 0 <= i < |segs| ==> !IsColonHeading(segs[i])
  }

  /** The entry a heading opens, with the details that follow it attached. */
  function Attach(h: Segment, ds: seq<Segment>): ColonEntry
    requires IsColonHeading(h)
  {
    var e := OpenColonEntry(h);
    e.(body := e.body + ds)
  }

  /** A heading with the details up to the next heading. */
  datatype Group = Group(heading: Segment, details: seq<Segment>)

  predicate WellSplit(groups: seq<Group>) {
    forall k :: 0 <= k < |groups| ==> IsColonHeading(groups[k].heading) && NoHeading(groups[k].details)
  }

  /** The segments a sequence of groups stands for, in order. */
  function Concat(groups: seq<Group>): seq<Segment>
    decreases |groups|
  {
    if groups == [] then [] else Concat(groups[..|groups| - 1]) + ([groups[|groups| - 1].heading] + groups[|groups| - 1].details)
  }

  /** The entries made of the groups, in order. */
  function Attached(groups: seq<Group>): (r: seq<ColonEntry>)
    requires WellSplit(groups)
    ensures |r| == |groups|
    decreases |groups|
  {
    if groups == [] then []
    else
      var g := groups[|groups| - 1];
      assert WellSplit(groups[..|groups| - 1]);
      Attached(groups[..|groups| - 1]) + [Attach(g.heading, g.details)]
  }

  lemma WellSplitPrefix(groups: seq<Group>, n: nat)
    requires WellSplit(groups) && n <= |groups|
    ensures WellSplit(groups[..n])
  {
    forall k | 0 <= k < n ensures groups[..n][k] == groups[k] {}
  }

  /** Entry `k` is group `k`'s heading with its details attached. */
  lemma {:induction false} AttachedAt(groups: seq<Group>, k: nat)
    requires WellSplit(groups) && k < |groups|
    ensures Attached(groups)[k] == Attach(groups[k].heading, groups[k].details)
    decreases |groups|
  {
    var init := groups[..|groups| - 1];
    var g := groups[|groups| - 1];
    WellSplitPrefix(groups, |groups| - 1);
    assert Attached(groups) == Attached(init) + [Attach(g.heading, g.details)];
    if k < |init| {
      AttachedAt(init, k);
      assert init[k] == groups[k];
      assert Attached(groups)[k] == Attached(init)[k];
    } else {
      assert k == |init|;
      assert Attached(groups)[k] == Attach(g.heading, g.details);
    }
  }

  lemma {:induction false} ColonRunAppend(acc: ColonAcc, a: seq<Segment>, b: seq<Segment>)
    ensures ColonRun(acc, a + b) == ColonRun(ColonRun(acc, a), b)
    decreases |b|
  {
    if b == [] {
      assert a + b == a;
    } else {
      var init := b[..|b| - 1];
      assert (a + b)[..|a + b| - 1] == a + init;
      assert (a + b)[|a + b| - 1] == b[|b| - 1];
      ColonRunAppend(acc, a, init);
    }
  }

  lemma ColonRunSnocAll(acc: ColonAcc, init: seq<Segment>, seg: Segment)
    ensures ColonRun(acc, init + [seg]) == ColonStep(ColonRun(acc, init), seg)
  {
    assert (init + [seg])[..|init|] == init;
  }

  lemma DetailStep(acc: ColonAcc, seg: Segment)
    requires acc.open.Some? && !IsColonHeading(seg)
    ensures ColonStep(acc, seg) == ColonAcc(acc.done, Some(acc.open.value.(body := acc.open.value.body + [seg])))
  {
  }

  lemma HeadingStep(acc: ColonAcc, seg: Segment)
    requires IsColonHeading(seg)
    ensures ColonStep(acc, seg) == ColonAcc(Flush(acc), Some(OpenColonEntry(seg)))
  {
  }

  /** Details reaching an open entry are appended to its body, in order. */
  lemma {:induction false} DetailsAttach(acc: ColonAcc, ds: seq<Segment>)
    requires acc.open.Some? && NoHeading(ds)
    ensures ColonRun(acc, ds) == ColonAcc(acc.done, Some(acc.open.value.(body := acc.open.value.body + ds)))
    decreases |ds|
  {
    var o := acc.open.value;
    if ds == [] {
      assert o.body + ds == o.body;
    } else {
      var init := ds[..|ds| - 1];
      var d := ds[|ds| - 1];
      assert NoHeading(init);
      DetailsAttach(acc, init);
      LastSplit(ds);
      ColonRunSnocAll(acc, init, d);
      DetailStep(ColonAcc(acc.done, Some(o.(body := o.body + init))), d);
      assert o.body + init + [d] == o.body + ds;
    }
  }

  /** Segments before the first heading leave the empty state empty. */
  lemma {:induction false} DetailsDropped(ds: seq<Segment>)
    requires NoHeading(ds)
    ensures ColonRun(ColonAcc([], None), ds) == ColonAcc([], None)
    decreases |ds|
  {
    if ds != [] {
      var init := ds[..|ds| - 1];
      assert NoHeading(init);
      DetailsDropped(init);
      assert !IsColonHeading(ds[|ds| - 1]);
    }
  }

  /** A heading flushes the open entry and opens its own, which collects the details after it. */
  lemma HeadingAttach(acc: ColonAcc, h: Segment, ds: seq<Segment>)
    requires IsColonHeading(h) && NoHeading(ds)
    ensures ColonRun(acc, [h] + ds) == ColonAcc(Flush(acc), Some(Attach(h, ds)))
  {
    assert [h] == [] + [h];
    ColonRunSnocAll(acc, [], h);
    HeadingStep(acc, h);
    ColonRunAppend(acc, [h], ds);
    DetailsAttach(ColonAcc(Flush(acc), Some(OpenColonEntry(h))), ds);
  }

  lemma {:induction false} GroupsRun(pre: seq<Segment>, groups: seq<Group>)
    requires NoHeading(pre) && WellSplit(groups)
    ensures Flush(ColonRun(ColonAcc([], None), pre + Concat(groups))) == Attached(groups)
    decreases |groups|
  {
    if groups == [] {
      assert pre + Concat(groups) == pre;
      DetailsDropped(pre);
    } else {
      WellSplitPrefix(groups, |groups| - 1);
      GroupsRun(pre, groups[..|groups| - 1]);
      GroupsRunSnoc(pre, groups);
    }
  }

  lemma GroupsRunSnoc(pre: seq<Segment>, groups: seq<Group>)
    requires groups != [] && WellSplit(groups) && WellSplit(groups[..|groups| - 1])
    requires Flush(ColonRun(ColonAcc([], None), pre + Concat(groups[..|groups| - 1]))) == Attached(groups[..|groups| - 1])
    ensures Flush(ColonRun(ColonAcc([], None), pre + Concat(groups))) == Attached(groups)
  {
    var init := groups[..|groups| - 1];
    var g := groups[|groups| - 1];
    ConcatSnoc(pre, groups);
    ColonRunAppend(ColonAcc([], None), pre + Concat(init), [g.heading] + g.details);
    GroupStep(ColonRun(ColonAcc([], None), pre + Concat(init)), groups);
  }

  lemma ConcatSnoc(pre: seq<Segment>, groups: seq<Group>)
    requires groups != []
    ensures var g := groups[|groups| - 1];
            pre + Concat(groups) == (pre + Concat(groups[..|groups| - 1])) + ([g.heading] + g.details)
  {
    var g := groups[|groups| - 1];
    var c := Concat(groups[..|groups| - 1]);
    assert Concat(groups) == c + ([g.heading] + g.details);
    AppendAssoc(pre, c, [g.heading] + g.details);
  }

  /** The last group, run from a state whose flush holds the entries of the groups before it. */
  lemma GroupStep(st: ColonAcc, groups: seq<Group>)
    requires groups != [] && WellSplit(groups)
    requires WellSplit(groups[..|groups| - 1]) && Flush(st) == Attached(groups[..|groups| - 1])
    ensures var g := groups[|groups| - 1];
            Flush(ColonRun(st, [g.heading] + g.details)) == Attached(groups)
  {
    var g := groups[|groups| - 1];
    HeadingAttach(st, g.heading, g.details);
  }

  /**
   * The entries of segments made of lead-in details and groups, each group
   * a heading with the non-heading segments up to the next one: one entry
   * per group, holding the text after the heading's colon less the date,
   * then the group's details; the lead-in is dropped.
   */
  lemma ColonEntriesByGroup(pre: seq<Segment>, groups: seq<Group>)
    requires NoHeading(pre) && WellSplit(groups)
    ensures ColonEntries(pre + Concat(groups)) == Attached(groups)
  {
    GroupsRun(pre, groups);
  }

  // ---------------------------------------------------------------------
  // The loops of buildEducationByColon
  // ---------------------------------------------------------------------

  /** The `forEach` over the children, pushing one segment per non-empty `<p>` and per non-empty `<li>`. */
  method CollectSegments(bs: seq<Block>) returns (segs: seq<Segment>)
    ensures segs == Segments(bs)
  {
    segs := [];
    for n := 0 to |bs|
      invariant segs == Segments(bs[..n])
    {
      SegmentsSnoc(bs, n);
      match bs[n]
      case UL(raw) =>
        var more := ListSegments(raw);
        segs := segs + more;
      case P(text) =>
        var t := Trim(text);
        if t != [] {
          segs := segs + [Segment(t, false)];
        }
    }
    assert bs[..|bs|] == bs;
  }

  lemma SegmentsSnoc(bs: seq<Block>, n: nat)
    requires n < |bs|
    ensures Segments(bs[..n + 1]) == Segments(bs[..n]) + BlockSegments(bs[n])
    ensures bs[n].P? ==> BlockSegments(bs[n]) == if Trim(bs[n].text) == [] then [] else [Segment(Trim(bs[n].text), false)]
  {
    assert bs[..n + 1][..n] == bs[..n];
  }

  /** The inner `forEach` over the items of one list. */
  method ListSegments(raw: seq<string>) returns (segs: seq<Segment>)
    ensures segs == BlockSegments(UL(raw))
  {
    segs := [];
    for i := 0 to |raw|
      invariant segs == BlockSegments(UL(raw[..i]))
    {
      ListSegmentsSnoc(raw, i);
      var t := Trim(raw[i]);
      if t != [] {
        segs := segs + [Segment(t, true)];
      }
    }
    assert raw[..|raw|] == raw;
  }

  lemma ListSegmentsSnoc(raw: seq<string>, i: nat)
    requires i < |raw|
    ensures BlockSegments(UL(raw[..i + 1])) ==
            BlockSegments(UL(raw[..i])) + (if Trim(raw[i]) != [] then [Segment(Trim(raw[i]), true)] else [])
  {
    var pre := raw[..i + 1];
    assert pre[..|pre| - 1] == raw[..i];
    assert pre[|pre| - 1] == raw[i];
    var items := Entries.TrimmedItems(raw[..i]);
    if Trim(raw[i]) != [] {
      assert Entries.TrimmedItems(pre) == items + [Trim(raw[i])];
      ItemSegmentsSnoc(items, Trim(raw[i]));
    }
  }

  lemma ColonRunSnoc(acc: ColonAcc, segs: seq<Segment>, n: nat)
    requires n < |segs|
    ensures ColonRun(acc, segs[..n + 1]) == ColonStep(ColonRun(acc, segs[..n]), segs[n])
  {
    assert segs[..n + 1][..n] == segs[..n];
  }

  /** The `segments.forEach` loop with its `entry`, `entries` and `flushEntry`. */
  method CollectColonEntries(segs: seq<Segment>) returns (entries: seq<ColonEntry>)
    ensures entries == ColonEntries(segs)
  {
    entries := [];
    var entry: Option<ColonEntry> := None;
    for n := 0 to |segs|
      invariant ColonAcc(entries, entry) == ColonRun(ColonAcc([], None), segs[..n])
    {
      ColonRunSnoc(ColonAcc([], None), segs, n);
      var seg := segs[n];
      var sides := SplitColon(seg.text);
      if sides.Some? && IsTitleCandidate(sides.value.lhs) {
        if entry.Some? {
          entries := entries + [entry.value];
        }
        entry := Some(OpenColonEntry(seg));
      } else if entry.Some? {
        entry := Some(entry.value.(body := entry.value.body + [seg]));
      }
    }
    assert segs[..|segs|] == segs;
    if entry.Some? {
      entries := entries + [entry.value];
    }
  }

  // ---------------------------------------------------------------------
  // Rendering
  // ---------------------------------------------------------------------

  /**
   * The body of a colon entry: a `<li>` detail joins the list just before
   * it, or starts one; a `<p>` detail is a paragraph and ends the list.
   */
  function GroupDetails(body: seq<Segment>): seq<Node>
    decreases |body|
  {
    if body == [] then []
    else
      var nodes := GroupDetails(body[..|body| - 1]);
      var d := body[|body| - 1];
      if !d.bullet then nodes + [TextPara(d.text)]
      else if nodes != [] && nodes[|nodes| - 1].Bullets? then
        nodes[..|nodes| - 1] + [Bullets(nodes[|nodes| - 1].items + [d.text])]
      else nodes + [Bullets([d.text])]
  }

  /** The details a rendered body holds, read back in order. */
  function Ungroup(nodes: seq<Node>): seq<Segment>
    decreases |nodes|
  {
    if nodes == [] then []
    else
      var last := nodes[|nodes| - 1];
      Ungroup(nodes[..|nodes| - 1]) +
      match last
      case Para(runs) => [Segment(Flatten(runs), false)]
      case Bullets(items) => seq(|items|, i requires 0 <= i < |items| => Segment(items[i], true))
  }

  /** Every list of a grouped body is non-empty, and no two lists are neighbours. */
  predicate WellGrouped(nodes: seq<Node>) {
    (forall i :: 0 <= i < |nodes| && nodes[i].Bullets? ==> nodes[i].items != []) &&
    (forall i :: 0 < i < |nodes| && nodes[i].Bullets? ==> !nodes[i - 1].Bullets?)
  }

  lemma UngroupAppend(nodes: seq<Node>, n: Node)
    ensures Ungroup(nodes + [n]) == Ungroup(nodes) + Ungroup([n])
  {
    assert (nodes + [n])[..|nodes|] == nodes;
    assert [n][..0] == [];
  }

  /** A plain paragraph reads back as one non-bullet segment. */
  lemma UngroupText(x: string)
    ensures Ungroup([TextPara(x)]) == [Segment(x, false)]
  {
    assert [Plain(x)][1..] == [];
    assert Flatten([Plain(x)]) == x;
    assert [TextPara(x)][..0] == [];
  }

  /** One more item at the end of a list reads back as one more bullet segment. */
  lemma UngroupBulletsAppend(items: seq<string>, x: string)
    ensures Ungroup([Bullets(items + [x])]) == Ungroup([Bullets(items)]) + [Segment(x, true)]
  {
    assert [Bullets(items + [x])][..0] == [];
    assert [Bullets(items)][..0] == [];
  }

  /** A list of one item reads back as one bullet segment. */
  lemma UngroupOneBullet(x: string)
    ensures Ungroup([Bullets([x])]) == [Segment(x, true)]
  {
    assert [Bullets([x])][..0] == [];
  }

  /** A paragraph detail appended to a grouped body. */
  lemma ParaStep(nodes: seq<Node>, x: string)
    requires WellGrouped(nodes)
    ensures Ungroup(nodes + [TextPara(x)]) == Ungroup(nodes) + [Segment(x, false)]
    ensures WellGrouped(nodes + [TextPara(x)])
  {
    UngroupAppend(nodes, TextPara(x));
    UngroupText(x);
    var r := nodes + [TextPara(x)];
    assert forall i :: 0 <= i < |nodes| ==> r[i] == nodes[i];
  }

  /** A bullet detail that joins the list ending a grouped body. */
  lemma ExtendStep(nodes: seq<Node>, x: string)
    requires WellGrouped(nodes) && nodes != [] && nodes[|nodes| - 1].Bullets?
    ensures var r := nodes[..|nodes| - 1] + [Bullets(nodes[|nodes| - 1].items + [x])];
            Ungroup(r) == Ungroup(nodes) + [Segment(x, true)] && WellGrouped(r)
  {
    var head := nodes[..|nodes| - 1];
    var items := nodes[|nodes| - 1].items;
    assert nodes == head + [Bullets(items)];
    UngroupAppend(head, Bullets(items));
    UngroupAppend(head, Bullets(items + [x]));
    UngroupBulletsAppend(items, x);
    var r := head + [Bullets(items + [x])];
    assert forall i :: 0 <= i < |head| ==> r[i] == nodes[i];
  }

  /** A bullet detail that starts a new list after a paragraph, or first. */
  lemma OpenStep(nodes: seq<Node>, x: string)
    requires WellGrouped(nodes) && !(nodes != [] && nodes[|nodes| - 1].Bullets?)
    ensures Ungroup(nodes + [Bullets([x])]) == Ungroup(nodes) + [Segment(x, true)]
    ensures WellGrouped(nodes + [Bullets([x])])
  {
    UngroupAppend(nodes, Bullets([x]));
    UngroupOneBullet(x);
    var r := nodes + [Bullets([x])];
    forall i | 0 < i < |r| && r[i].Bullets? ensures !r[i - 1].Bullets? {
      if i < |nodes| {
        assert r[i] == nodes[i] && r[i - 1] == nodes[i - 1];
      } else {
        assert r[i - 1] == nodes[|nodes| - 1];
      }
    }
    forall i | 0 <= i < |r| && r[i].Bullets? ensures r[i].items != [] {
      if i < |nodes| {
        assert r[i] == nodes[i];
      }
    }
  }

  /**
   * Grouping loses nothing and reorders nothing: reading the rendered body
   * back gives the details; and the lists it makes are non-empty and never
   * adjacent.
   */
  lemma {:induction false} GroupDetailsFacts(body: seq<Segment>)
    ensures Ungroup(GroupDetails(body)) == body
    ensures WellGrouped(GroupDetails(body))
    decreases |body|
  {
    if body != [] {
      var init := body[..|body| - 1];
      var d := body[|body| - 1];
      GroupDetailsFacts(init);
      var nodes := GroupDetails(init);
      LastSplit(body);
      if !d.bullet {
        ParaStep(nodes, d.text);
      } else if nodes != [] && nodes[|nodes| - 1].Bullets? {
        ExtendStep(nodes, d.text);
      } else {
        OpenStep(nodes, d.text);
      }
    }
  }

  /** The rendering loop over an entry's details, with its `ul` that a paragraph resets. */
  method RenderDetails(body: seq<Segment>) returns (nodes: seq<Node>)
    ensures nodes == GroupDetails(body)
  {
    nodes := [];
    var ulOpen := false;
    for i := 0 to |body|
      invariant nodes == GroupDetails(body[..i])
      invariant ulOpen <==> nodes != [] && nodes[|nodes| - 1].Bullets?
    {
      assert body[..i + 1][..i] == body[..i];
      var b := body[i];
      if b.bullet {
        if ulOpen {
          var ul := nodes[|nodes| - 1];
          nodes := nodes[..|nodes| - 1] + [Bullets(ul.items + [b.text])];
        } else {
          nodes := nodes + [Bullets([b.text])];
          ulOpen := true;
        }
      } else {
        ulOpen := false;
        nodes := nodes + [TextPara(b.text)];
      }
    }
    assert body[..|body|] == body;
  }

  /** The article of one colon entry: the title in bold, the date as caption when there is one. */
  function ColonArticle(e: ColonEntry): (a: Article)
    ensures a.title == e.title && a.strongTitle
    ensures a.meta.Some? <==> e.meta != []
    ensures a.meta.Some? ==> a.meta.value == e.meta
    ensures Ungroup(a.body) == e.body && WellGrouped(a.body)
  {
    GroupDetailsFacts(e.body);
    Article(e.title, true, if e.meta != [] then Some(e.meta) else None, GroupDetails(e.body))
  }
}
