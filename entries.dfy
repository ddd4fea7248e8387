/**
 * `buildEntries` in script.js for sections other than education: the
 * generic reducer, which gathers the paragraphs after the first title-like
 * one into a single entry, and the industry reducer, which opens an entry
 * at every title-like list item. Each is a specification fold over the
 * container's children together with the method that runs the source's
 * loop, and the rendering of the entries as articles.
 */
module Entries {
  import opened Opt
  import opened JsText
  import opened Patterns
  import opened Tree

  /** An element of an entry's body: a pushed string or a `{ list }` object. */
  datatype BodyItem = Text(text: string) | List(items: seq<string>)

  datatype Entry = Entry(title: string, date: string, location: string, body: seq<BodyItem>)

  /** `items.map(trim).filter(Boolean)` over the `<li>` texts of a list. */
  function TrimmedItems(items: seq<string>): (r: seq<string>)
    ensures |r| <= |items|
    ensures forall i :: 0 <= i < |r| ==> r[i] != [] && IsTrimmed(r[i])
    ensures r == [] <==> forall i :: 0 <= i < |items| ==> AllSpace(items[i])
    decreases |items|
  {
    if items == [] then []
    else
      var init := items[..|items| - 1];
      var rest := TrimmedItems(init);
      var t := Trim(items[|items| - 1]);
      assert (forall i :: 0 <= i < |items| ==> AllSpace(items[i])) <==>
             (forall i :: 0 <= i < |init| ==> AllSpace(init[i])) && AllSpace(items[|items| - 1]) by {
        assert forall i :: 0 <= i < |init| ==> init[i] == items[i];
      }
      if t == [] then rest
      else
        assert forall i :: 0 <= i < |rest| ==> (rest + [t])[i] == rest[i];
        rest + [t]
  }

  lemma {:induction false} TrimmedItemsIdempotent(items: seq<string>)
    ensures TrimmedItems(TrimmedItems(items)) == TrimmedItems(items)
    decreases |items|
  {
    if items != [] {
      var init := items[..|items| - 1];
      TrimmedItemsIdempotent(init);
      var rest := TrimmedItems(init);
      var t := Trim(items[|items| - 1]);
      if t != [] {
        var r := rest + [t];
        assert r[..|r| - 1] == rest;
        TrimOfTrimmed(t);
      }
    }
  }

  /** `items.map(trim)`. */
  function TrimAll(items: seq<string>): (r: seq<string>)
    ensures |r| == |items| && forall i :: 0 <= i < |items| ==> r[i] == Trim(items[i])
  {
    seq(|items|, i requires 0 <= i < |items| => Trim(items[i]))
  }

  /**
   * The items kept are the trimmed items with the empty ones filtered out:
   * with `NonEmptyIsFilter`, each non-empty trimmed item as many times as it
   * occurs, and in the list's order.
   */
  lemma {:induction false} TrimmedItemsFilter(items: seq<string>)
    ensures TrimmedItems(items) == NonEmpty(TrimAll(items))
    decreases |items|
  {
    if items != [] {
      var init := items[..|items| - 1];
      TrimAllSnoc(items);
      TrimmedItemsFilter(init);
      NonEmptySnoc(TrimAll(init), Trim(items[|items| - 1]));
    }
  }

  lemma TrimAllSnoc(items: seq<string>)
    requires items != []
    ensures TrimAll(items) == TrimAll(items[..|items| - 1]) + [Trim(items[|items| - 1])]
  {
  }

  /** A new entry from a title-like text: its title and location, no date, an empty body. */
  function OpenEntry(t: string): (e: Entry)
    ensures e.title == ParseTitleAndLocation(t).title && e.location == ParseTitleAndLocation(t).location
    ensures e.date == [] && e.body == []
  {
    var pl := ParseTitleAndLocation(t);
    Entry(pl.title, [], pl.location, [])
  }

  function AddItem(e: Entry, b: BodyItem): (r: Entry)
    ensures r.title == e.title && r.date == e.date && r.location == e.location
    ensures r.body == e.body + [b]
  {
    e.(body := e.body + [b])
  }

  // ---------------------------------------------------------------------
  // The generic reducer
  // ---------------------------------------------------------------------

  /** The date an open entry without one takes from paragraph `raw`, and what is left of the text. */
  function TakeDate(e: Entry, raw: string): (r: (string, string))
    ensures e.date != [] ==> r == (e.date, raw)
    ensures e.date == [] && MatchDate(raw).None? ==> r == (e.date, raw)
    ensures e.date == [] && MatchDate(raw).Some? ==>
              r == (MatchDate(raw).value, DateResidual(raw, MatchDate(raw).value))
    ensures e.date != [] || MatchDate(raw).Some? ==> r.0 != []
  {
    var dm := MatchDate(raw);
    if e.date == [] && dm.Some? then
      var p: nat :| LeftmostDateAt(raw, p) && dm.value == raw[p..p + DateMatchAt(raw, p).value];
      assert |dm.value| >= 4;
      (dm.value, DateResidual(raw, dm.value))
    else (e.date, raw)
  }

  /**
   * A non-empty trimmed paragraph that reaches an open entry: its date (if
   * the entry has none yet) and then its location (same) are taken from it,
   * and the remaining text, when not empty, is appended to the body.
   */
  function AbsorbParagraph(e: Entry, raw: string): (r: Entry)
    ensures r.title == e.title
    ensures e.date != [] ==> r.date == e.date
    ensures e.date == [] ==> r.date == (if MatchDate(raw).Some? then MatchDate(raw).value else [])
    ensures e.location != [] ==> r.location == e.location
    ensures |e.body| <= |r.body| <= |e.body| + 1 && r.body[..|e.body|] == e.body
    ensures |r.body| == |e.body| + 1 ==> r.body[|e.body|].Text? && r.body[|e.body|].text != []
    ensures var text := LineText(e.date, raw);
            var pl := ParseTitleAndLocation(text);
            var taken := e.location == [] && pl.location != [];
            r.location == (if taken then pl.location else e.location) &&
            r.body == e.body + (var rest := if taken then pl.title else text; if rest == [] then [] else [Text(rest)])
  {
    var (date, text) := TakeDate(e, raw);
    PlaceText(e.(date := date), text)
  }

  /**
   * The second half of a paragraph's handling: an entry without a location
   * takes one from the text, and what remains of the text, when not empty,
   * is appended to the body.
   */
  function PlaceText(e: Entry, text: string): (r: Entry)
    ensures r.title == e.title && r.date == e.date
    ensures e.location != [] ==> r.location == e.location
    ensures |e.body| <= |r.body| <= |e.body| + 1 && r.body[..|e.body|] == e.body
    ensures |r.body| == |e.body| + 1 ==> r.body[|e.body|].Text? && r.body[|e.body|].text != []
    ensures var pl := ParseTitleAndLocation(text);
            var taken := e.location == [] && pl.location != [];
            r.location == (if taken then pl.location else e.location) &&
            r.body == e.body + (var rest := if taken then pl.title else text; if rest == [] then [] else [Text(rest)])
  {
    var pl := ParseTitleAndLocation(text);
    var (location, rest) := if e.location == [] && pl.location != [] then (pl.location, pl.title) else (e.location, text);
    var body := e.body + (if rest == [] then [] else [Text(rest)]);
    assert body[..|e.body|] == e.body;
    Entry(e.title, e.date, location, body)
  }

  /** The generic reducer's handling of one child, given the entry it has open, if any. */
  function GenericStep(st: Option<Entry>, b: Block): Option<Entry>
  {
    match b
    case UL(raw) =>
      var items := TrimmedItems(raw);
      if items == [] || st.None? then st else Some(AddItem(st.value, List(items)))
    case P(text) =>
      var raw := Trim(text);
      if raw == [] then st
      else if st.None? then (if IsTitleCandidate(raw) then Some(OpenEntry(raw)) else None)
      else Some(AbsorbParagraph(st.value, raw))
  }

  /** The generic reducer run over `bs` from state `st`. */
  function GenericRun(st: Option<Entry>, bs: seq<Block>): Option<Entry>
    decreases |bs|
  {
    if bs == [] then st else GenericStep(GenericRun(st, bs[..|bs| - 1]), bs[|bs| - 1])
  }

  /** The entries the generic reducer produces: the open entry at the end, if any. */
  function GenericEntries(bs: seq<Block>): (r: seq<Entry>)
    ensures |r| <= 1
  {
    var st := GenericRun(None, bs);
    if st.Some? then [st.value] else []
  }

  /** A paragraph that opens the generic reducer's entry when none is open. */
  predicate IsOpener(b: Block) {
    b.P? && Trim(b.text) != [] && IsTitleCandidate(Trim(b.text))
  }

  lemma SplitAt<T>(s: seq<T>, i: nat)
    requires i < |s|
    ensures s == s[..i] + ([s[i]] + s[i + 1..])
  {
  }

  lemma {:induction false} GenericRunAppend(st: Option<Entry>, a: seq<Block>, b: seq<Block>)
    ensures GenericRun(st, a + b) == GenericRun(GenericRun(st, a), b)
    decreases |b|
  {
    if b == [] {
      assert a + b == a;
    } else {
      assert (a + b)[..|a + b| - 1] == a + b[..|b| - 1];
      GenericRunAppend(st, a, b[..|b| - 1]);
    }
  }

  lemma StepFromNone(b: Block)
    ensures GenericStep(None, b) == if IsOpener(b) then Some(OpenEntry(Trim(b.text))) else None
  {
  }

  lemma StepFromSome(e: Entry, b: Block)
    ensures GenericStep(Some(e), b).Some?
  {
  }

  predicate NoOpener(bs: seq<Block>) {
    forall i {:trigger IsOpener(bs[i])} :: 0 <= i < |bs| ==> !IsOpener(bs[i])
  }

  lemma NoOpenerSplit(bs: seq<Block>)
    requires bs != []
    ensures NoOpener(bs) <==> NoOpener(bs[..|bs| - 1]) && !IsOpener(bs[|bs| - 1])
  {
    var init := bs[..|bs| - 1];
    assert forall i :: 0 <= i < |init| ==> init[i] == bs[i];
  }

  /** With no entry open, the generic reducer stays without one exactly as long as no opener has come. */
  lemma {:induction false} GenericStaysClosed(bs: seq<Block>)
    ensures GenericRun(None, bs).None? <==> NoOpener(bs)
    decreases |bs|
  {
    if bs != [] {
      var init := bs[..|bs| - 1];
      var last := bs[|bs| - 1];
      GenericStaysClosed(init);
      NoOpenerSplit(bs);
      var mid := GenericRun(None, init);
      assert GenericRun(None, bs) == GenericStep(mid, last);
      if mid.None? {
        StepFromNone(last);
      } else {
        StepFromSome(mid.value, last);
      }
    }
  }

  /**
   * The generic reducer opens its entry at the first opener: everything
   * before it is dropped, and what follows is absorbed into that entry.
   */
  lemma GenericOpensAtFirstOpener(bs: seq<Block>, i: nat)
    requires i < |bs| && IsOpener(bs[i])
    requires NoOpener(bs[..i])
    ensures GenericRun(None, bs) == GenericRun(Some(OpenEntry(Trim(bs[i].text))), bs[i + 1..])
  {
    var before := bs[..i];
    var rest := [bs[i]] + bs[i + 1..];
    GenericStaysClosed(before);
    var s0 := GenericRun(None, before);
    assert s0 == None;
    SplitAt(bs, i);
    GenericRunAppend(None, before, rest);
    GenericRunAppend(s0, [bs[i]], bs[i + 1..]);
    var s1 := GenericRun(s0, [bs[i]]);
    assert s1 == GenericStep(GenericRun(s0, []), bs[i]);
    StepFromNone(bs[i]);
    assert s1 == Some(OpenEntry(Trim(bs[i].text)));
  }

  /**
   * Children never close the generic reducer's entry: later children keep
   * its title, never replace a date or a location it has, and only append
   * to its body.
   */
  lemma {:induction false} GenericKeepsEntry(st: Option<Entry>, bs: seq<Block>)
    requires st.Some?
    ensures GenericRun(st, bs).Some?
    ensures GenericRun(st, bs).value.title == st.value.title
    ensures st.value.date != [] ==> GenericRun(st, bs).value.date == st.value.date
    ensures st.value.location != [] ==> GenericRun(st, bs).value.location == st.value.location
    ensures |st.value.body| <= |GenericRun(st, bs).value.body|
    ensures GenericRun(st, bs).value.body[..|st.value.body|] == st.value.body
    decreases |bs|
  {
    if bs != [] {
      var init := bs[..|bs| - 1];
      GenericKeepsEntry(st, init);
      var mid := GenericRun(st, init).value;
      var e := GenericRun(st, bs).value;
      assert e.body[..|mid.body|] == mid.body;
      assert mid.body[..|st.value.body|] == st.value.body;
      assert e.body[..|st.value.body|] == e.body[..|mid.body|][..|st.value.body|];
    }
  }

  /**
   * What a child adds to the body of an entry whose date and location are
   * both set: a non-blank paragraph its trimmed text, a list with a
   * non-blank item its trimmed items, anything else nothing.
   */
  function Contribution(b: Block): seq<BodyItem> {
    match b
    case P(text) => if Trim(text) == [] then [] else [Text(Trim(text))]
    case UL(raw) => if TrimmedItems(raw) == [] then [] else [List(TrimmedItems(raw))]
  }

  /** The contributions of `bs`, in order. */
  function Contribs(bs: seq<Block>): seq<BodyItem>
    decreases |bs|
  {
    if bs == [] then [] else Contribution(bs[0]) + Contribs(bs[1..])
  }

  lemma {:induction false} ContribsSnoc(bs: seq<Block>, b: Block)
    ensures Contribs(bs + [b]) == Contribs(bs) + Contribution(b)
    decreases |bs|
  {
    if bs == [] {
      assert [] + [b] == [b] && [b][1..] == [];
    } else {
      assert (bs + [b])[1..] == bs[1..] + [b];
      ContribsSnoc(bs[1..], b);
    }
  }

  /** One child reaching an entry with its date and location set adds its contribution and nothing else. */
  lemma SettledStep(e: Entry, b: Block)
    requires e.date != [] && e.location != []
    ensures GenericStep(Some(e), b) == Some(e.(body := e.body + Contribution(b)))
  {
    match b
    case P(text) =>
      var raw := Trim(text);
      if raw != [] {
        assert TakeDate(e, raw) == (e.date, raw);
        assert e.(date := e.date) == e;
      } else {
        assert e.body + [] == e.body;
      }
    case UL(raw) =>
      if TrimmedItems(raw) == [] {
        assert e.body + [] == e.body;
      }
  }

  /**
   * Once the generic entry has both its date and its location, every later
   * child is appended to its body as it stands, trimmed: each non-blank
   * paragraph as its text, each list with a non-blank item as its items, in
   * order; the title, date and location stay.
   */
  lemma {:induction false} GenericBodySettled(e: Entry, bs: seq<Block>)
    requires e.date != [] && e.location != []
    ensures GenericRun(Some(e), bs) == Some(e.(body := e.body + Contribs(bs)))
    decreases |bs|
  {
    if bs == [] {
      assert e.body + [] == e.body;
    } else {
      var init := bs[..|bs| - 1];
      GenericBodySettled(e, init);
      SettledSnoc(e, init, bs[|bs| - 1]);
      LastSplit(bs);
    }
  }

  lemma SettledSnoc(e: Entry, init: seq<Block>, b: Block)
    requires e.date != [] && e.location != []
    requires GenericRun(Some(e), init) == Some(e.(body := e.body + Contribs(init)))
    ensures GenericRun(Some(e), init + [b]) == Some(e.(body := e.body + Contribs(init + [b])))
  {
    var mid := e.(body := e.body + Contribs(init));
    GenericRunSnoc(Some(e), init, b);
    assert GenericRun(Some(e), init + [b]) == GenericStep(Some(mid), b);
    SettledStep(mid, b);
    var c := Contribution(b);
    assert GenericStep(Some(mid), b) == Some(mid.(body := mid.body + c));
    ContribsSnoc(init, b);
    assert e.body + Contribs(init + [b]) == mid.body + c;
    assert mid.(body := mid.body + c) == Entry(e.title, e.date, e.location, e.body + Contribs(init + [b]));
  }

  lemma GenericRunSnoc(st: Option<Entry>, init: seq<Block>, b: Block)
    ensures GenericRun(st, init + [b]) == GenericStep(GenericRun(st, init), b)
  {
    var bs := init + [b];
    assert bs[..|bs| - 1] == init && bs[|bs| - 1] == b;
  }

  /** The date of the first paragraph whose trimmed text DATE_RE matches, or none. */
  function FirstDate(bs: seq<Block>): string
    decreases |bs|
  {
    if bs == [] then []
    else if bs[0].P? && MatchDate(Trim(bs[0].text)).Some? then MatchDate(Trim(bs[0].text)).value
    else FirstDate(bs[1..])
  }

  /** The first date of `[b]`. */
  function DateOf(b: Block): string {
    if b.P? && MatchDate(Trim(b.text)).Some? then MatchDate(Trim(b.text)).value else []
  }

  lemma {:induction false} FirstDateSnoc(bs: seq<Block>, b: Block)
    ensures FirstDate(bs + [b]) == if FirstDate(bs) != [] then FirstDate(bs) else DateOf(b)
    decreases |bs|
  {
    if bs == [] {
      assert [] + [b] == [b] && [b][1..] == [];
    } else {
      assert (bs + [b])[1..] == bs[1..] + [b];
      FirstDateSnoc(bs[1..], b);
    }
  }

  lemma DateStep(e: Entry, b: Block)
    ensures e.date != [] ==> GenericStep(Some(e), b).value.date == e.date
    ensures e.date == [] ==> GenericStep(Some(e), b).value.date == DateOf(b)
  {
    match b
    case P(text) =>
      if Trim(text) == [] {
        assert MatchDate([]).None?;
      }
    case UL(_) =>
  }

  /**
   * An open generic entry without a date takes the date of the first later
   * paragraph that has one, and keeps it: the date found in later
   * paragraphs never replaces it.
   */
  lemma {:induction false} GenericTakesFirstDate(e: Entry, bs: seq<Block>)
    requires e.date == []
    ensures GenericRun(Some(e), bs).Some?
    ensures GenericRun(Some(e), bs).value.date == FirstDate(bs)
    decreases |bs|
  {
    if bs != [] {
      var init, b := bs[..|bs| - 1], bs[|bs| - 1];
      GenericTakesFirstDate(e, init);
      FirstDateSnocRun(e, init, b);
      LastSplit(bs);
    }
  }

  lemma FirstDateSnocRun(e: Entry, init: seq<Block>, b: Block)
    requires GenericRun(Some(e), init).Some? && GenericRun(Some(e), init).value.date == FirstDate(init)
    ensures GenericRun(Some(e), init + [b]).Some?
    ensures GenericRun(Some(e), init + [b]).value.date == FirstDate(init + [b])
  {
    var mid := GenericRun(Some(e), init).value;
    GenericRunSnoc(Some(e), init, b);
    DateStep(mid, b);
    FirstDateSnoc(init, b);
  }

  /** What is left of paragraph `raw` for the location test, when the entry's date was `d` before it. */
  function LineText(d: string, raw: string): string {
    if d == [] && MatchDate(raw).Some? then DateResidual(raw, MatchDate(raw).value) else raw
  }

  /** The entry's date after child `b`, when it was `d` before. */
  function DateAfter(d: string, b: Block): string {
    if d == [] then DateOf(b) else d
  }

  /** The location child `b` offers an entry without one whose date was `d`: none unless it is a non-blank paragraph. */
  function LocationOf(d: string, b: Block): string {
    if b.P? && Trim(b.text) != [] then ParseTitleAndLocation(LineText(d, Trim(b.text))).location else []
  }

  /** The location of the first child that offers one, the date running along from `d`. */
  function FirstLocation(d: string, bs: seq<Block>): string
    decreases |bs|
  {
    if bs == [] then []
    else if LocationOf(d, bs[0]) != [] then LocationOf(d, bs[0])
    else FirstLocation(DateAfter(d, bs[0]), bs[1..])
  }

  /** One child reaching an open entry without a location: the location and date it leaves. */
  lemma LocationStep(e: Entry, b: Block)
    requires e.location == []
    ensures GenericStep(Some(e), b).Some?
    ensures GenericStep(Some(e), b).value.location == LocationOf(e.date, b)
    ensures GenericStep(Some(e), b).value.date == DateAfter(e.date, b)
  {
    DateStep(e, b);
  }

  lemma GenericRunCons(st: Option<Entry>, bs: seq<Block>)
    requires bs != []
    ensures GenericRun(st, bs) == GenericRun(GenericStep(st, bs[0]), bs[1..])
  {
    GenericRunAppend(st, [bs[0]], bs[1..]);
    assert [bs[0]] + bs[1..] == bs;
    GenericRunSnoc(st, [], bs[0]);
    assert [] + [bs[0]] == [bs[0]];
  }

  /**
   * An open generic entry without a location takes the location of the
   * first later paragraph that ends in one (after its date, if it gives the
   * entry its date, is cut out), and keeps it.
   */
  lemma {:induction false} GenericTakesFirstLocation(e: Entry, bs: seq<Block>)
    requires e.location == []
    ensures GenericRun(Some(e), bs).Some?
    ensures GenericRun(Some(e), bs).value.location == FirstLocation(e.date, bs)
    decreases |bs|
  {
    if bs != [] {
      var s1 := GenericStep(Some(e), bs[0]);
      GenericRunCons(Some(e), bs);
      LocationStep(e, bs[0]);
      if s1.value.location != [] {
        GenericKeepsEntry(s1, bs[1..]);
      } else {
        GenericTakesFirstLocation(s1.value, bs[1..]);
      }
    }
  }

  /**
   * The generic variant on a heading with a location, a line with a date and
   * a list: one entry with the heading's title and location, the line's
   * date, and a body of what is left of the line followed by the list.
   */
  lemma GenericScenario(heading: string, line: string, raw: seq<string>)
    requires IsOpener(P(heading)) && ParseTitleAndLocation(Trim(heading)).location != []
    requires MatchDate(Trim(line)).Some?
    ensures var pl := ParseTitleAndLocation(Trim(heading));
            var date := MatchDate(Trim(line)).value;
            var rest := DateResidual(Trim(line), date);
            GenericEntries([P(heading), P(line), UL(raw)]) ==
            [Entry(pl.title, date, pl.location, Contribution(P(rest)) + Contribution(UL(raw)))]
  {
    var e := OpenEntry(Trim(heading));
    var date := MatchDate(Trim(line)).value;
    GenericRunThree(None, P(heading), P(line), UL(raw));
    StepFromNone(P(heading));
    DatedLine(e, line);
    SettledStep(AbsorbParagraph(e, Trim(line)), UL(raw));
  }

  lemma GenericRunThree(st: Option<Entry>, a: Block, b: Block, c: Block)
    ensures GenericRun(st, [a, b, c]) == GenericStep(GenericStep(GenericStep(st, a), b), c)
  {
    assert [a, b, c] == [a, b] + [c] && [a, b] == [a] + [b] && [a] == [] + [a];
    GenericRunSnoc(st, [], a);
    GenericRunSnoc(st, [a], b);
    GenericRunSnoc(st, [a, b], c);
  }

  /** The dated line reaching a fresh entry with a location: the date is set and the rest of the line is its body. */
  lemma DatedLine(e: Entry, line: string)
    requires e.date == [] && e.location != [] && e.body == []
    requires MatchDate(Trim(line)).Some?
    ensures var date := MatchDate(Trim(line)).value;
            AbsorbParagraph(e, Trim(line)) == Entry(e.title, date, e.location, Contribution(P(DateResidual(Trim(line), date))))
  {
    var date := MatchDate(Trim(line)).value;
    var rest := DateResidual(Trim(line), date);
    TrimOfTrimmed(rest);
  }

  // ---------------------------------------------------------------------
  // The industry reducer
  // ---------------------------------------------------------------------

  /** The entries committed so far and the entry open, if any. */
  datatype Acc = Acc(done: seq<Entry>, open: Option<Entry>)

  /** Inside one list: the entries committed, the entry open and the bullets gathered for it in this list. */
  datatype ItemState = ItemState(done: seq<Entry>, open: Option<Entry>, bullets: seq<string>)

  /**
   * One non-empty trimmed list item. A title-like item opens a new entry;
   * the one open before it is committed, with its bullets, only if it
   * gathered some in this list, and is otherwise dropped. Any other item is
   * a bullet of the open entry, or dropped when there is none.
   */
  function ItemStep(st: ItemState, t: string): ItemState
  {
    if IsTitleCandidate(t) then
      if st.open.Some? && st.bullets != [] then
        ItemState(st.done + [AddItem(st.open.value, List(st.bullets))], Some(OpenEntry(t)), [])
      else ItemState(st.done, Some(OpenEntry(t)), st.bullets)
    else if st.open.None? then st
    else st.(bullets := st.bullets + [t])
  }

  function ItemRun(st: ItemState, items: seq<string>): ItemState
    decreases |items|
  {
    if items == [] then st else ItemStep(ItemRun(st, items[..|items| - 1]), items[|items| - 1])
  }

  /** A whole list: the items run with fresh bullets, and the bullets left at its end go to the open entry, which stays open. */
  function IndustryList(acc: Acc, raw: seq<string>): Acc
  {
    var items := TrimmedItems(raw);
    if items == [] then acc
    else
      var s := ItemRun(ItemState(acc.done, acc.open, []), items);
      Acc(s.done, if s.open.Some? && s.bullets != [] then Some(AddItem(s.open.value, List(s.bullets))) else s.open)
  }

  /** The industry reducer's handling of one child: a non-empty paragraph is appended verbatim to the open entry. */
  function IndustryStep(acc: Acc, b: Block): Acc
  {
    match b
    case UL(raw) => IndustryList(acc, raw)
    case P(text) =>
      var raw := Trim(text);
      if raw == [] || acc.open.None? then acc else Acc(acc.done, Some(AddItem(acc.open.value, Text(raw))))
  }

  function IndustryRun(acc: Acc, bs: seq<Block>): Acc
    decreases |bs|
  {
    if bs == [] then acc else IndustryStep(IndustryRun(acc, bs[..|bs| - 1]), bs[|bs| - 1])
  }

  /** The committed entries followed by the one still open at the end. */
  function Close(acc: Acc): seq<Entry>
  {
    acc.done + (if acc.open.Some? then [acc.open.value] else [])
  }

  function IndustryEntries(bs: seq<Block>): seq<Entry>
  {
    Close(IndustryRun(Acc([], None), bs))
  }

  /** An entry whose body ends with a list. */
  predicate EndsWithList(e: Entry) {
    e.body != [] && e.body[|e.body| - 1].List?
  }

  predicate AllEndWithList(es: seq<Entry>) {
    forall i :: 0 <= i < |es| ==> EndsWithList(es[i])
  }

  function OpenCount(open: Option<Entry>): nat {
    if open.Some? then 1 else 0
  }

  /** How many of `items` are title-like. */
  function TitleCount(items: seq<string>): nat
    decreases |items|
  {
    if items == [] then 0
    else TitleCount(items[..|items| - 1]) + (if IsTitleCandidate(items[|items| - 1]) then 1 else 0)
  }

  /** How many non-empty trimmed list items of `bs` are title-like. */
  function HeadingItems(bs: seq<Block>): nat
    decreases |bs|
  {
    if bs == [] then 0
    else HeadingItems(bs[..|bs| - 1]) + (match bs[|bs| - 1] case UL(raw) => TitleCount(TrimmedItems(raw)) case P(_) => 0)
  }

  lemma AllEndWithListAppend(es: seq<Entry>, e: Entry)
    requires AllEndWithList(es) && EndsWithList(e)
    ensures AllEndWithList(es + [e])
  {
    assert forall i :: 0 <= i < |es| ==> (es + [e])[i] == es[i];
  }

  lemma AddListEndsWithList(e: Entry, items: seq<string>)
    ensures EndsWithList(AddItem(e, List(items)))
  {
  }

  /**
   * Within a list: entries are only ever committed behind those already
   * committed, each committed one ends with its list, and every new entry
   * costs a title-like item.
   */
  lemma {:induction false} ItemRunFacts(st: ItemState, items: seq<string>)
    requires AllEndWithList(st.done)
    ensures AllEndWithList(ItemRun(st, items).done)
    ensures |ItemRun(st, items).done| + OpenCount(ItemRun(st, items).open) <= |st.done| + OpenCount(st.open) + TitleCount(items)
    decreases |items|
  {
    if items != [] {
      var init := items[..|items| - 1];
      var t := items[|items| - 1];
      ItemRunFacts(st, init);
      var mid := ItemRun(st, init);
      assert ItemRun(st, items) == ItemStep(mid, t);
      if IsTitleCandidate(t) && mid.open.Some? && mid.bullets != [] {
        AddListEndsWithList(mid.open.value, mid.bullets);
        AllEndWithListAppend(mid.done, AddItem(mid.open.value, List(mid.bullets)));
      }
    }
  }

  lemma IndustryStepFacts(acc: Acc, b: Block)
    requires AllEndWithList(acc.done)
    ensures AllEndWithList(IndustryStep(acc, b).done)
    ensures |IndustryStep(acc, b).done| + OpenCount(IndustryStep(acc, b).open) <=
            |acc.done| + OpenCount(acc.open) + (match b case UL(raw) => TitleCount(TrimmedItems(raw)) case P(_) => 0)
  {
    match b
    case UL(raw) =>
      var items := TrimmedItems(raw);
      if items != [] {
        ItemRunFacts(ItemState(acc.done, acc.open, []), items);
      }
    case P(_) =>
  }

  /**
   * The industry reducer commits only entries whose body ends with a list,
   * and produces at most one entry per title-like list item; so a section
   * without one yields no entry at all.
   */
  lemma {:induction false} IndustryFacts(bs: seq<Block>)
    ensures AllEndWithList(IndustryRun(Acc([], None), bs).done)
    ensures |IndustryEntries(bs)| <= HeadingItems(bs)
    decreases |bs|
  {
    if bs != [] {
      var init := bs[..|bs| - 1];
      IndustryFacts(init);
      IndustryStepFacts(IndustryRun(Acc([], None), init), bs[|bs| - 1]);
    }
  }

  lemma IndustryRunSnoc(acc: Acc, init: seq<Block>, b: Block)
    ensures IndustryRun(acc, init + [b]) == IndustryStep(IndustryRun(acc, init), b)
  {
    var bs := init + [b];
    assert bs[..|bs| - 1] == init && bs[|bs| - 1] == b;
  }

  predicate AllParagraphs(bs: seq<Block>) {
    forall i :: 0 <= i < |bs| ==> bs[i].P?
  }

  /** An accumulator whose open entry, if any, has `items` appended to its body. */
  function ExtendOpen(acc: Acc, items: seq<BodyItem>): Acc {
    if acc.open.None? then acc else Acc(acc.done, Some(acc.open.value.(body := acc.open.value.body + items)))
  }

  /**
   * In the industry variant paragraphs only ever extend the open entry's
   * body, each non-blank one by its trimmed text, in order; with no entry
   * open they are dropped, and nothing is committed.
   */
  lemma {:induction false} IndustryParagraphs(acc: Acc, bs: seq<Block>)
    requires AllParagraphs(bs)
    ensures IndustryRun(acc, bs) == ExtendOpen(acc, Contribs(bs))
    decreases |bs|
  {
    if bs == [] {
      assert acc.open.Some? ==> acc.open.value.(body := acc.open.value.body + []) == acc.open.value;
    } else {
      var init := bs[..|bs| - 1];
      var b := bs[|bs| - 1];
      assert AllParagraphs(init) by { assert forall i :: 0 <= i < |init| ==> init[i] == bs[i]; }
      IndustryParagraphs(acc, init);
      LastSplit(bs);
      ParagraphSnoc(acc, init, b);
    }
  }

  lemma ParagraphSnoc(acc: Acc, init: seq<Block>, b: Block)
    requires b.P?
    requires IndustryRun(acc, init) == ExtendOpen(acc, Contribs(init))
    ensures IndustryRun(acc, init + [b]) == ExtendOpen(acc, Contribs(init + [b]))
  {
    IndustryRunSnoc(acc, init, b);
    ContribsSnoc(init, b);
    ParagraphStep(IndustryRun(acc, init), b);
    ExtendTwice(acc, Contribs(init), Contribution(b));
  }

  lemma ExtendTwice(acc: Acc, x: seq<BodyItem>, y: seq<BodyItem>)
    ensures ExtendOpen(ExtendOpen(acc, x), y) == ExtendOpen(acc, x + y)
  {
    if acc.open.Some? {
      var o := acc.open.value;
      assert o.body + x + y == o.body + (x + y);
    }
  }

  /** One paragraph in the industry variant adds its contribution to the open entry, if there is one. */
  lemma ParagraphStep(mid: Acc, b: Block)
    requires b.P?
    ensures IndustryStep(mid, b) == ExtendOpen(mid, Contribution(b))
  {
    if mid.open.Some? && Trim(b.text) == [] {
      assert mid.open.value.body + [] == mid.open.value.body;
    }
  }

  predicate NoTitles(items: seq<string>) {
    forall i :: 0 <= i < |items| ==> !IsTitleCandidate(items[i])
  }

  lemma ItemRunSnocItem(st: ItemState, init: seq<string>, t: string)
    ensures ItemRun(st, init + [t]) == ItemStep(ItemRun(st, init), t)
  {
    var items := init + [t];
    assert items[..|items| - 1] == init && items[|items| - 1] == t;
  }

  /**
   * Within a list, items that are not title-like become bullets of the
   * open entry, in order; before any entry is open they are dropped.
   */
  lemma {:induction false} DetailItems(st: ItemState, items: seq<string>)
    requires NoTitles(items)
    ensures ItemRun(st, items) == if st.open.None? then st else st.(bullets := st.bullets + items)
    decreases |items|
  {
    if items == [] {
      assert st.bullets + [] == st.bullets;
    } else {
      var init := items[..|items| - 1];
      var t := items[|items| - 1];
      assert NoTitles(init) by { assert forall i :: 0 <= i < |init| ==> init[i] == items[i]; }
      DetailItems(st, init);
      LastSplit(items);
      ItemRunSnocItem(st, init, t);
    }
  }

  /**
   * A list that opens with a heading and goes on with details replaces
   * whatever entry was open by the heading's entry holding those details,
   * trimmed and in order, as its one list; nothing is committed.
   */
  lemma HeadingWithDetails(acc: Acc, raw: seq<string>, h: string, ds: seq<string>)
    requires TrimmedItems(raw) == [h] + ds && IsTitleCandidate(h) && NoTitles(ds)
    ensures IndustryList(acc, raw) ==
            Acc(acc.done, Some(if ds == [] then OpenEntry(h) else AddItem(OpenEntry(h), List(ds))))
  {
    var s0 := ItemState(acc.done, acc.open, []);
    var items := [h] + ds;
    ItemRunAppendItems(s0, [h], ds);
    assert ItemRun(s0, [h]) == ItemStep(ItemRun(s0, []), h) by { assert [h][..0] == []; }
    DetailItems(ItemState(acc.done, Some(OpenEntry(h)), []), ds);
    assert [] + ds == ds;
  }

  lemma {:induction false} ItemRunAppendItems(st: ItemState, a: seq<string>, b: seq<string>)
    ensures ItemRun(st, a + b) == ItemRun(ItemRun(st, a), b)
    decreases |b|
  {
    if b == [] {
      assert a + b == a;
    } else {
      assert (a + b)[..|a + b| - 1] == a + b[..|b| - 1];
      ItemRunAppendItems(st, a, b[..|b| - 1]);
    }
  }

  lemma TrimmedOfTrimmed(a: string, b: string)
    requires a != [] && IsTrimmed(a) && b != [] && IsTrimmed(b)
    ensures TrimmedItems([a, b]) == [a, b]
  {
    TrimOfTrimmed(a);
    TrimOfTrimmed(b);
    assert [a, b][..1] == [a];
    assert [a][..0] == [];
  }

  lemma ItemRunTwo(st: ItemState, a: string, b: string)
    ensures ItemRun(st, [a, b]) == ItemStep(ItemStep(st, a), b)
  {
    assert [a, b][..1] == [a];
    assert [a][..0] == [];
    assert ItemRun(st, [a]) == ItemStep(ItemRun(st, []), a);
  }

  lemma IndustryRunTwo(acc: Acc, a: Block, b: Block)
    ensures IndustryRun(acc, [a, b]) == IndustryStep(IndustryStep(acc, a), b)
  {
    assert [a, b][..1] == [a];
    assert [a][..0] == [];
    assert IndustryRun(acc, [a]) == IndustryStep(IndustryRun(acc, []), a);
  }

  /**
   * A list made of a heading and one detail replaces whatever entry was
   * open, without committing it: an open entry whose bullets came from an
   * earlier list is dropped.
   */
  lemma HeadingListDropsOpen(acc: Acc, h: string, x: string)
    requires h != [] && IsTrimmed(h) && IsTitleCandidate(h)
    requires x != [] && IsTrimmed(x) && !IsTitleCandidate(x)
    ensures IndustryList(acc, [h, x]) == Acc(acc.done, Some(AddItem(OpenEntry(h), List([x]))))
  {
    TrimmedOfTrimmed(h, x);
    HeadingThenDetail(ItemState(acc.done, acc.open, []), h, x);
    ListOfTrimmed(acc, [h, x]);
  }

  /** A list whose items are already non-empty and trimmed runs them as they are. */
  lemma ListOfTrimmed(acc: Acc, items: seq<string>)
    requires items != [] && TrimmedItems(items) == items
    ensures IndustryList(acc, items) ==
            var s := ItemRun(ItemState(acc.done, acc.open, []), items);
            Acc(s.done, if s.open.Some? && s.bullets != [] then Some(AddItem(s.open.value, List(s.bullets))) else s.open)
  {
  }

  lemma HeadingThenDetail(s0: ItemState, h: string, x: string)
    requires IsTitleCandidate(h) && !IsTitleCandidate(x) && s0.bullets == []
    ensures ItemRun(s0, [h, x]) == ItemState(s0.done, Some(OpenEntry(h)), [x])
  {
    ItemRunTwo(s0, h, x);
    HeadingStep(s0, h);
    DetailStep(ItemState(s0.done, Some(OpenEntry(h)), []), x);
  }

  lemma HeadingStep(st: ItemState, h: string)
    requires IsTitleCandidate(h) && st.bullets == []
    ensures ItemStep(st, h) == ItemState(st.done, Some(OpenEntry(h)), [])
  {
  }

  lemma DetailStep(st: ItemState, x: string)
    requires !IsTitleCandidate(x) && st.open.Some?
    ensures ItemStep(st, x) == st.(bullets := st.bullets + [x])
  {
  }

  /**
   * Of two lists, each a heading and one detail, only the second entry
   * survives: the first is lost although it gathered a bullet.
   */
  lemma LostEntry(h1: string, x: string, h2: string, y: string)
    requires h1 != [] && IsTrimmed(h1) && IsTitleCandidate(h1)
    requires h2 != [] && IsTrimmed(h2) && IsTitleCandidate(h2)
    requires x != [] && IsTrimmed(x) && !IsTitleCandidate(x)
    requires y != [] && IsTrimmed(y) && !IsTitleCandidate(y)
    ensures IndustryEntries([UL([h1, x]), UL([h2, y])]) == [AddItem(OpenEntry(h2), List([y]))]
  {
    IndustryRunTwo(Acc([], None), UL([h1, x]), UL([h2, y]));
    HeadingListDropsOpen(Acc([], None), h1, x);
    HeadingListDropsOpen(Acc([], Some(AddItem(OpenEntry(h1), List([x])))), h2, y);
  }

  /** A run of one list's items that starts at a title-like item: the heading and the details after it. */
  datatype Job = Job(heading: string, details: seq<string>)

  predicate WellJob(j: Job) {
    IsTitleCandidate(j.heading) && NoTitles(j.details)
  }

  predicate WellJobs(jobs: seq<Job>) {
    forall k :: 0 <= k < |jobs| ==> WellJob(jobs[k])
  }

  /** The items of the jobs, written out in order. */
  function JobItems(jobs: seq<Job>): seq<string>
    decreases |jobs|
  {
    if jobs == [] then []
    else JobItems(jobs[..|jobs| - 1]) + ([jobs[|jobs| - 1].heading] + jobs[|jobs| - 1].details)
  }

  /** The entry a job stands for: its heading's entry, with its details as one list when it has any. */
  function JobEntry(j: Job): Entry {
    if j.details == [] then OpenEntry(j.heading) else AddItem(OpenEntry(j.heading), List(j.details))
  }

  /** The entries of the jobs that have details; a job without details leaves none. */
  function Committed(jobs: seq<Job>): seq<Entry>
    decreases |jobs|
  {
    if jobs == [] then []
    else
      var j := jobs[|jobs| - 1];
      Committed(jobs[..|jobs| - 1]) + (if j.details == [] then [] else [JobEntry(j)])
  }

  /** What a title-like item commits from state `st`: the open entry with its bullets, if it has any. */
  function Pending(st: ItemState): seq<Entry> {
    if st.open.Some? && st.bullets != [] then [AddItem(st.open.value, List(st.bullets))] else []
  }

  /** One job's items: the heading commits what was pending and opens its entry, the details become its bullets. */
  lemma JobRun(st: ItemState, j: Job)
    requires WellJob(j) && (st.open.None? ==> st.bullets == [])
    ensures ItemRun(st, [j.heading] + j.details) ==
            ItemState(st.done + Pending(st), Some(OpenEntry(j.heading)), j.details)
  {
    ItemRunAppendItems(st, [j.heading], j.details);
    assert ItemRun(st, [j.heading]) == ItemStep(ItemRun(st, []), j.heading) by { assert [j.heading][..0] == []; }
    var s1 := ItemStep(st, j.heading);
    assert s1 == ItemState(st.done + Pending(st), Some(OpenEntry(j.heading)), []);
    DetailItems(s1, j.details);
    assert [] + j.details == j.details;
  }

  /**
   * A list's jobs run from state `st`: what was pending is committed, every
   * job but the last is committed when it has details and lost when it has
   * none, and the last job's entry stays open with its details as bullets.
   */
  lemma {:induction false} ItemRunJobs(st: ItemState, jobs: seq<Job>)
    requires jobs != [] && WellJobs(jobs) && (st.open.None? ==> st.bullets == [])
    ensures ItemRun(st, JobItems(jobs)) ==
            ItemState(st.done + Pending(st) + Committed(jobs[..|jobs| - 1]),
                      Some(OpenEntry(jobs[|jobs| - 1].heading)), jobs[|jobs| - 1].details)
    decreases |jobs|
  {
    var init := jobs[..|jobs| - 1];
    var j := jobs[|jobs| - 1];
    assert WellJob(j);
    if init == [] {
      assert JobItems(jobs) == [j.heading] + j.details by { assert JobItems(init) == []; }
      JobRun(st, j);
      assert st.done + Pending(st) + [] == st.done + Pending(st);
    } else {
      assert WellJobs(init) by { assert forall k :: 0 <= k < |init| ==> init[k] == jobs[k]; }
      ItemRunJobs(st, init);
      ItemRunAppendItems(st, JobItems(init), [j.heading] + j.details);
      JobsSnoc(st, ItemRun(st, JobItems(init)), init, j);
    }
  }

  /** The step of `ItemRunJobs`: the next job commits the last one when it has details. */
  lemma JobsSnoc(st: ItemState, s1: ItemState, init: seq<Job>, j: Job)
    requires init != [] && WellJob(j)
    requires s1 == ItemState(st.done + Pending(st) + Committed(init[..|init| - 1]),
                             Some(OpenEntry(init[|init| - 1].heading)), init[|init| - 1].details)
    ensures ItemRun(s1, [j.heading] + j.details) ==
            ItemState(st.done + Pending(st) + Committed(init), Some(OpenEntry(j.heading)), j.details)
  {
    JobRun(s1, j);
    CommittedSnoc(init, s1);
    AppendAssoc(st.done + Pending(st), Committed(init[..|init| - 1]), Pending(s1));
  }

  lemma CommittedSnoc(init: seq<Job>, s1: ItemState)
    requires init != []
    requires s1.open == Some(OpenEntry(init[|init| - 1].heading)) && s1.bullets == init[|init| - 1].details
    ensures Committed(init) == Committed(init[..|init| - 1]) + Pending(s1)
  {
  }

  /**
   * A whole list whose kept items are details `pre` followed by jobs: the
   * details extend the entry open before the list, which is committed if
   * they did; then every job but the last is committed as its JobEntry when
   * it has details and lost otherwise; and the last job's entry stays open.
   */
  lemma IndustryListByJobs(acc: Acc, raw: seq<string>, pre: seq<string>, jobs: seq<Job>)
    requires TrimmedItems(raw) == pre + JobItems(jobs) && NoTitles(pre) && WellJobs(jobs)
    ensures jobs == [] ==>
              IndustryList(acc, raw) ==
              Acc(acc.done, if acc.open.Some? && pre != [] then Some(AddItem(acc.open.value, List(pre))) else acc.open)
    ensures jobs != [] ==>
              IndustryList(acc, raw) ==
              Acc(acc.done + (if acc.open.Some? && pre != [] then [AddItem(acc.open.value, List(pre))] else [])
                           + Committed(jobs[..|jobs| - 1]),
                  Some(JobEntry(jobs[|jobs| - 1])))
  {
    var s0 := ItemState(acc.done, acc.open, []);
    ItemRunAppendItems(s0, pre, JobItems(jobs));
    DetailItems(s0, pre);
    var s1 := ItemRun(s0, pre);
    assert s1 == if acc.open.None? then s0 else s0.(bullets := pre) by { assert [] + pre == pre; }
    if jobs == [] {
      assert pre + JobItems(jobs) == pre;
    } else {
      ItemRunJobs(s1, jobs);
      assert |JobItems(jobs)| > 0;
    }
  }

  /** Items that are already non-empty and trimmed are all kept, as they are. */
  lemma {:induction false} TrimmedItemsKeep(items: seq<string>)
    requires forall i :: 0 <= i < |items| ==> items[i] != [] && IsTrimmed(items[i])
    ensures TrimmedItems(items) == items
    decreases |items|
  {
    if items != [] {
      TrimmedItemsKeep(items[..|items| - 1]);
      TrimOfTrimmed(items[|items| - 1]);
      LastSplit(items);
    }
  }

  /**
   * One list `A, a1, B, b1` of two jobs: the first is committed with its
   * detail when the second heading arrives, and the second stays open.
   */
  lemma TwoJobsInOneList(acc: Acc, a: string, a1: string, b: string, b1: string)
    requires a != [] && IsTrimmed(a) && IsTitleCandidate(a)
    requires a1 != [] && IsTrimmed(a1) && !IsTitleCandidate(a1)
    requires b != [] && IsTrimmed(b) && IsTitleCandidate(b)
    requires b1 != [] && IsTrimmed(b1) && !IsTitleCandidate(b1)
    ensures IndustryList(acc, [a, a1, b, b1]) ==
            Acc(acc.done + [AddItem(OpenEntry(a), List([a1]))], Some(AddItem(OpenEntry(b), List([b1]))))
  {
    KeepFour(a, a1, b, b1);
    TwoJobs(a, a1, b, b1);
    ByJobs(acc, [a, a1, b, b1], [Job(a, [a1]), Job(b, [b1])]);
  }

  lemma KeepFour(a: string, a1: string, b: string, b1: string)
    requires a != [] && IsTrimmed(a) && a1 != [] && IsTrimmed(a1)
    requires b != [] && IsTrimmed(b) && b1 != [] && IsTrimmed(b1)
    ensures TrimmedItems([a, a1, b, b1]) == [a, a1, b, b1]
  {
    var raw := [a, a1, b, b1];
    assert forall i :: 0 <= i < |raw| ==> raw[i] in {a, a1, b, b1};
    TrimmedItemsKeep(raw);
  }

  lemma ByJobs(acc: Acc, raw: seq<string>, jobs: seq<Job>)
    requires |jobs| == 2 && TrimmedItems(raw) == raw && JobItems(jobs) == raw && WellJobs(jobs)
    requires Committed(jobs[..1]) == [JobEntry(jobs[0])] && jobs[1].details != []
    ensures IndustryList(acc, raw) == Acc(acc.done + [JobEntry(jobs[0])], Some(JobEntry(jobs[1])))
  {
    assert [] + JobItems(jobs) == raw;
    IndustryListByJobs(acc, raw, [], jobs);
    AppendNil(acc.done);
  }

  lemma TwoJobs(a: string, a1: string, b: string, b1: string)
    requires IsTitleCandidate(a) && !IsTitleCandidate(a1) && IsTitleCandidate(b) && !IsTitleCandidate(b1)
    ensures var jobs := [Job(a, [a1]), Job(b, [b1])];
            JobItems(jobs) == [a, a1, b, b1] && WellJobs(jobs) &&
            Committed(jobs[..1]) == [JobEntry(jobs[0])]
  {
    var jobs := [Job(a, [a1]), Job(b, [b1])];
    assert jobs[..1][..0] == [];
    assert jobs[..1] == [Job(a, [a1])];
    assert JobItems(jobs[..1]) == [a, a1] by { assert JobItems(jobs[..1][..0]) == []; }
    assert JobItems(jobs) == [a, a1] + ([b] + [b1]);
    assert WellJob(jobs[0]) && WellJob(jobs[1]);
  }

  lemma ItemRunSnoc(st: ItemState, items: seq<string>, i: nat)
    requires i < |items|
    ensures ItemRun(st, items[..i + 1]) == ItemStep(ItemRun(st, items[..i]), items[i])
  {
    assert items[..i + 1][..i] == items[..i];
  }

  /**
   * One list in the industry variant: the `for` loop over its items with a
   * fresh `bullets`, then the bullets left over go to the open entry.
   */
  method CollectListItems(entries0: seq<Entry>, entry0: Option<Entry>, items: seq<string>)
    returns (entries: seq<Entry>, entry: Option<Entry>)
    requires items != [] && items == TrimmedItems(items)
    ensures Acc(entries, entry) == IndustryList(Acc(entries0, entry0), items)
  {
    entries, entry := entries0, entry0;
    var bullets: seq<string> := [];
    for i := 0 to |items|
      invariant ItemState(entries, entry, bullets) == ItemRun(ItemState(entries0, entry0, []), items[..i])
    {
      ItemRunSnoc(ItemState(entries0, entry0, []), items, i);
      var t := items[i];
      if IsTitleCandidate(t) {
        if entry.Some? && bullets != [] {
          entry := Some(AddItem(entry.value, List(bullets)));
          bullets := [];
          entries := entries + [entry.value];
          entry := None;
        }
        entry := Some(OpenEntry(t));
      } else if entry.Some? {
        bullets := bullets + [t];
      }
    }
    assert items[..|items|] == items;
    if entry.Some? && bullets != [] {
      entry := Some(AddItem(entry.value, List(bullets)));
    }
  }

  /** A non-empty paragraph reaching the generic variant's open entry: date, then location, then the rest of the line. */
  method AbsorbLine(e0: Entry, raw: string) returns (e: Entry)
    ensures e == AbsorbParagraph(e0, raw)
  {
    e := e0;
    var dateMatch := MatchDate(raw);
    var line := raw;
    if e.date == [] && dateMatch.Some? {
      e := e.(date := dateMatch.value);
      line := DateResidual(line, dateMatch.value);
    }
    assert e == e0.(date := TakeDate(e0, raw).0) && line == TakeDate(e0, raw).1;
    e := PlaceLine(e, line);
  }

  /** The location test and the append that follow the date in `AbsorbLine`. */
  method PlaceLine(e0: Entry, raw: string) returns (e: Entry)
    ensures e == PlaceText(e0, raw)
  {
    e := e0;
    var line := raw;
    if e.location == [] {
      var parsed := ParseTitleAndLocation(line);
      if parsed.location != [] {
        e := e.(location := parsed.location);
        line := parsed.title;
      }
    }
    if line != [] {
      e := AddItem(e, Text(line));
    }
  }


  /**
   * The `nodes.forEach` loop of `buildEntries` with its mutable `entry`,
   * `entries` and (per list, in the industry variant) `bullets`, followed by
   * the commit of the entry left open.
   */
  method CollectEntries(blocks: seq<Block>, isIndustry: bool) returns (entries: seq<Entry>)
    ensures entries == if isIndustry then IndustryEntries(blocks) else GenericEntries(blocks)
  {
    var entry: Option<Entry> := None;
    entries := [];
    for n := 0 to |blocks|
      invariant isIndustry ==> Acc(entries, entry) == IndustryRun(Acc([], None), blocks[..n])
      invariant !isIndustry ==> entries == [] && entry == GenericRun(None, blocks[..n])
    {
      assert blocks[..n + 1][..n] == blocks[..n];
      match blocks[n]
      case UL(raw) =>
        var items := TrimmedItems(raw);
        if items != [] {
          if isIndustry {
            TrimmedItemsIdempotent(raw);
            entries, entry := CollectListItems(entries, entry, items);
          } else if entry.Some? {
            entry := Some(AddItem(entry.value, List(items)));
          }
        }
      case P(text) =>
        var raw := Trim(text);
        if raw != [] {
          if isIndustry {
            if entry.Some? {
              entry := Some(AddItem(entry.value, Text(raw)));
            }
          } else if entry.None? {
            if IsTitleCandidate(raw) {
              entry := Some(OpenEntry(raw));
            }
          } else {
            var e := AbsorbLine(entry.value, raw);
            entry := Some(e);
          }
        }
    }
    assert blocks[..|blocks|] == blocks;
    if entry.Some? {
      entries := entries + [entry.value];
    }
  }

  // ---------------------------------------------------------------------
  // Rendering
  // ---------------------------------------------------------------------

  /** The caption separator, an em dash between spaces. */
  const CaptionSeparator: string := " \U{2014} "

  /**
   * The `span.entry__meta` text: location then date, whichever are set,
   * joined by the separator; none in an industry section or when both are
   * empty.
   */
  function Caption(e: Entry, sectionName: string): (r: Option<string>)
    ensures r.None? <==> Contains(sectionName, "industry") || (e.location == [] && e.date == [])
    ensures r.Some? && e.location != [] && e.date != [] ==> r.value == e.location + CaptionSeparator + e.date
    ensures r.Some? && e.location == [] ==> r.value == e.date
    ensures r.Some? && e.date == [] ==> r.value == e.location
  {
    if Contains(sectionName, "industry") then None
    else
      var parts := (if e.location != [] then [e.location] else []) + (if e.date != [] then [e.date] else []);
      if parts == [] then None else Some(Join(parts, CaptionSeparator))
  }

  /** A string of the body becomes a paragraph, a list a `<ul>` of its items. */
  function RenderItem(b: BodyItem): Node {
    match b
    case Text(t) => TextPara(t)
    case List(items) => Bullets(items)
  }

  /** What a rendered body node holds, read back as a body item. */
  function ReadNode(n: Node): BodyItem {
    match n
    case Para(runs) => Text(Flatten(runs))
    case Bullets(items) => List(items)
  }

  /** The article `buildEntries` builds for one entry: the title as plain heading text, the caption, one node per body item. */
  function RenderEntry(e: Entry, sectionName: string): (a: Article)
    ensures a.title == e.title && !a.strongTitle && a.meta == Caption(e, sectionName)
    ensures |a.body| == |e.body|
  {
    Article(e.title, false, Caption(e, sectionName), seq(|e.body|, i requires 0 <= i < |e.body| => RenderItem(e.body[i])))
  }

  /** Reading the rendered body back gives the entry's body, item for item and in order. */
  lemma RenderEntryReadsBack(e: Entry, sectionName: string)
    ensures var a := RenderEntry(e, sectionName);
            seq(|a.body|, i requires 0 <= i < |a.body| => ReadNode(a.body[i])) == e.body
  {
    var a := RenderEntry(e, sectionName);
    forall i | 0 <= i < |e.body|
      ensures ReadNode(a.body[i]) == e.body[i]
    {
      match e.body[i]
      case Text(t) =>
        assert Flatten([Plain(t)]) == t + Flatten([]);
      case List(_) =>
    }
  }

  function RenderEntries(es: seq<Entry>, sectionName: string): (r: seq<Article>)
    ensures |r| == |es|
    ensures forall i :: 0 <= i < |es| ==> r[i] == RenderEntry(es[i], sectionName)
  {
    seq(|es|, i requires 0 <= i < |es| => RenderEntry(es[i], sectionName))
  }

  /** `buildEntries` dispatches to the industry variant when the section name mentions one of these. */
  predicate IsIndustrySection(sectionName: string) {
    Contains(sectionName, "industry") || Contains(sectionName, "work") || Contains(sectionName, "professional")
  }
}
