/**
 * The document converter of tools/docx_to_sections.py after the XML has
 * been parsed: the text and style of a paragraph, the grouping of the
 * paragraphs into titled sections of paragraphs and lists, and the HTML
 * those sections are written as.
 */
module DocxSections {
  import opened Opt
  import opened PyText
  import JsText

  // ---------------------------------------------------------------------
  // One paragraph
  // ---------------------------------------------------------------------

  /** The WordprocessingML namespace as ElementTree writes it in front of a qualified name. */
  const WNs: string := "{http://schemas.openxmlformats.org/wordprocessingml/2006/main}"

  /** A `w:pPr` element: the attributes of its `w:pStyle` child, if it has one, and whether it has a `w:numPr` child. */
  datatype ParaProps = ParaProps(pStyle: Option<map<string, string>>, numbered: bool)

  /** A `w:p` element: the texts of its `w:t` descendants (`None` for an element without text) and its `w:pPr`. */
  datatype Paragraph = Paragraph(runs: seq<Option<string>>, props: Option<ParaProps>)

  /**
   * `get_paragraph_style`: a style only when `w:pStyle` has an attribute
   * keyed by the bare name `val`; then the namespaced `val` wins over the
   * bare one.
   */
  function GetParagraphStyle(p: Paragraph): (r: Option<string>)
    ensures r.Some? <==> p.props.Some? && p.props.value.pStyle.Some? && "val" in p.props.value.pStyle.value
    ensures r.Some? && WNs + "val" in p.props.value.pStyle.value ==> r.value == p.props.value.pStyle.value[WNs + "val"]
    ensures r.Some? && WNs + "val" !in p.props.value.pStyle.value ==> r.value == p.props.value.pStyle.value["val"]
  {
    if p.props.None? then None
    else
      var pStyle := p.props.value.pStyle;
      if pStyle.Some? && "val" in pStyle.value then
        var attrs := pStyle.value;
        Some(if WNs + "val" in attrs then attrs[WNs + "val"] else attrs["val"])
      else None
  }

  /** A key as ElementTree writes a namespaced attribute name. */
  predicate Qualified(key: string) {
    |key| > 0 && key[0] == '{'
  }

  /**
   * ElementTree keys every attribute of a `w:pStyle` element from a Word
   * document by its namespaced name, so the bare `val` the lookup demands is
   * never there and no paragraph of such a document has a style.
   */
  lemma QualifiedKeysHaveNoStyle(p: Paragraph)
    requires p.props.Some? && p.props.value.pStyle.Some?
    requires forall key :: key in p.props.value.pStyle.value ==> Qualified(key)
    ensures GetParagraphStyle(p).None?
  {
    assert !Qualified("val");
  }

  /** With both keys present the namespaced value is the style. */
  lemma NamespacedValueWins(p: Paragraph)
    requires p.props.Some? && p.props.value.pStyle.Some?
    requires "val" in p.props.value.pStyle.value && WNs + "val" in p.props.value.pStyle.value
    ensures GetParagraphStyle(p) == Some(p.props.value.pStyle.value[WNs + "val"])
  {
  }

  /** `r.text or ''` for each run, concatenated. */
  function RunsText(runs: seq<Option<string>>): string
    decreases |runs|
  {
    if runs == [] then [] else (if runs[0].Some? then runs[0].value else []) + RunsText(runs[1..])
  }

  /** `.replace(' ', ' ')`. */
  function NbspToSpace(s: string): (r: string)
    ensures |r| == |s|
    ensures forall k :: 0 <= k < |s| ==> r[k] == (if s[k] == '\U{00A0}' then ' ' else s[k])
  {
    seq(|s|, k requires 0 <= k < |s| => if s[k] == '\U{00A0}' then ' ' else s[k])
  }

  /**
   * `extract_paragraph_text`: the runs joined, non-breaking spaces made
   * spaces, stripped, and the words joined by single spaces.  The result is
   * normalised and holds the same words, in the same order, as the runs.
   */
  function ExtractParagraphText(runs: seq<Option<string>>): (r: string)
    ensures Normalised(r)
    ensures Words(r) == Words(NbspToSpace(RunsText(runs)))
  {
    var t := PyStrip(NbspToSpace(RunsText(runs)));
    var ws := Words(t);
    JoinNormalised(ws);
    WordsOfJoin(ws);
    WordsOfStrip(NbspToSpace(RunsText(runs)));
    JoinSpace(ws)
  }

  lemma StripOfTrimmed(s: string)
    requires PyTrimmed(s)
    ensures PyStrip(s) == s
  {
  }

  /** Extracting the text of a paragraph that holds an extracted text gives that text back. */
  lemma ExtractIdempotent(runs: seq<Option<string>>)
    ensures var r := ExtractParagraphText(runs);
            ExtractParagraphText([Some(r)]) == r
  {
    var r := ExtractParagraphText(runs);
    assert [Some(r)][1..] == [];
    assert RunsText([Some(r)]) == r;
    forall k | 0 <= k < |r| ensures r[k] != '\U{00A0}' {
      assert IsPySpace('\U{00A0}');
    }
    assert NbspToSpace(r) == r;
    StripOfTrimmed(r);
    var ws := Words(r);
    var ws0 := Words(PyStrip(NbspToSpace(RunsText(runs))));
    assert r == JoinSpace(ws0);
    WordsOfJoin(ws0);
  }

  /** `is_heading`: a non-empty style whose lower-case form contains `heading` or is `title`. */
  predicate IsHeading(style: Option<string>) {
    style.Some? && style.value != [] &&
    (JsText.Contains(JsText.AsciiLower(style.value), "heading") || JsText.AsciiLower(style.value) == "title")
  }

  /** Word's built-in heading styles are headings; `Subtitle` merely contains `title` and is not. */
  lemma HeadingStyles()
    ensures IsHeading(Some("Heading1")) && IsHeading(Some("Title")) && IsHeading(Some("TITLE"))
    ensures !IsHeading(Some("Subtitle")) && !IsHeading(Some("")) && !IsHeading(None)
  {
    assert JsText.OccursAt(JsText.AsciiLower("Heading1"), "heading", 0);
    assert JsText.AsciiLower("Title") == "title";
    assert JsText.AsciiLower("TITLE") == "title";
    var s := JsText.AsciiLower("Subtitle");
    assert s == "subtitle";
    forall i: nat | i <= |s| ensures !JsText.OccursAt(s, "heading", i) {
      if i + 7 <= |s| {
        assert s[i..i + 7][0] == s[i] != 'h';
      }
    }
  }

  /** `is_list_paragraph`: the paragraph is numbered. */
  predicate IsListParagraph(p: Paragraph) {
    p.props.Some? && p.props.value.numbered
  }

  // ---------------------------------------------------------------------
  // Grouping paragraphs into sections
  // ---------------------------------------------------------------------

  datatype DocBlock = PBlock(text: string) | ULBlock(items: seq<string>)

  datatype Section = Section(title: string, blocks: seq<DocBlock>)

  /**
   * The converter's state: the sections so far, the last of which is the
   * `current` one, and the list items not yet placed.  `pending_list` is
   * never an empty list, so `[]` stands for its `None`.
   */
  datatype ConvState = ConvState(sections: seq<Section>, pending: seq<string>)

  /** `flush_list_into_current`: the pending items become a list of the current section, if there is one. */
  function Flush(st: ConvState): (r: ConvState)
    ensures r.pending == [] && |r.sections| == |st.sections|
    ensures forall k :: 0 <= k < |st.sections| - 1 ==> r.sections[k] == st.sections[k]
    ensures st.sections != [] ==>
              var cur := st.sections[|st.sections| - 1];
              r.sections[|st.sections| - 1] ==
              Section(cur.title, cur.blocks + (if st.pending != [] then [ULBlock(st.pending)] else []))
  {
    if st.pending != [] && st.sections != [] then
      var cur := st.sections[|st.sections| - 1];
      ConvState(st.sections[..|st.sections| - 1] + [Section(cur.title, cur.blocks + [ULBlock(st.pending)])], [])
    else ConvState(st.sections, [])
  }

  /** What the loop makes of a paragraph: nothing, a section title, a list item or a paragraph of text. */
  datatype ParaKind = Blank | Heading(text: string) | Item(text: string) | Plain(text: string)

  /**
   * The tests of the loop in their order: empty text first, then the
   * heading style, then numbering.
   */
  function Classify(p: Paragraph): (k: ParaKind)
    ensures k.Blank? <==> ExtractParagraphText(p.runs) == []
    ensures !k.Blank? ==> k.text == ExtractParagraphText(p.runs) && k.text != [] && Normalised(k.text)
    ensures k.Heading? <==> !k.Blank? && IsHeading(GetParagraphStyle(p))
    ensures k.Item? <==> !k.Blank? && !IsHeading(GetParagraphStyle(p)) && IsListParagraph(p)
  {
    var text := ExtractParagraphText(p.runs);
    if text == [] then Blank
    else if IsHeading(GetParagraphStyle(p)) then Heading(text)
    else if IsListParagraph(p) then Item(text)
    else Plain(text)
  }

  /** The handling of one classified paragraph in the converter's loop. */
  function StepKind(st: ConvState, k: ParaKind): ConvState {
    match k
    case Blank => st
    case Heading(text) => ConvState(Flush(st).sections + [Section(text, [])], [])
    case Item(text) => ConvState(st.sections, st.pending + [text])
    case Plain(text) =>
      var secs := if Flush(st).sections == [] then [Section("Summary", [])] else Flush(st).sections;
      var cur := secs[|secs| - 1];
      ConvState(secs[..|secs| - 1] + [Section(cur.title, cur.blocks + [PBlock(text)])], [])
  }

  /** The classification of every paragraph, in order. */
  function Kinds(ps: seq<Paragraph>): (ks: seq<ParaKind>)
    ensures |ks| == |ps|
    decreases |ps|
  {
    if ps == [] then [] else [Classify(ps[0])] + Kinds(ps[1..])
  }

  function Run(st: ConvState, ks: seq<ParaKind>): ConvState
    decreases |ks|
  {
    if ks == [] then st else Run(StepKind(st, ks[0]), ks[1..])
  }

  /** `convert_docx_to_sections` on the parsed paragraphs. */
  function Convert(ps: seq<Paragraph>): seq<Section> {
    Flush(Run(ConvState([], []), Kinds(ps))).sections
  }

  lemma KindsSuffix(ps: seq<Paragraph>, i: nat)
    requires i < |ps|
    ensures Kinds(ps[i..]) == [Classify(ps[i])] + Kinds(ps[i + 1..])
  {
    assert ps[i..][1..] == ps[i + 1..];
  }

  /** The loop of `convert_docx_to_sections`, with `current` held as the last section. */
  method ConvertSections(ps: seq<Paragraph>) returns (sections: seq<Section>)
    ensures sections == Convert(ps)
  {
    sections := [];
    var pending: seq<string> := [];
    for i := 0 to |ps|
      invariant Flush(Run(ConvState(sections, pending), Kinds(ps[i..]))).sections == Convert(ps)
    {
      KindsSuffix(ps, i);
      ghost var st := ConvState(sections, pending);
      ghost var k := Classify(ps[i]);
      sections, pending := Absorb(sections, pending, ps[i]);
      assert ConvState(sections, pending) == StepKind(st, k);
    }
    sections, pending := FlushList(sections, pending);
  }

  /** One turn of the loop. */
  method Absorb(sections0: seq<Section>, pending0: seq<string>, p: Paragraph) returns (sections: seq<Section>, pending: seq<string>)
    ensures ConvState(sections, pending) == StepKind(ConvState(sections0, pending0), Classify(p))
  {
    sections, pending := sections0, pending0;
    var text := ExtractParagraphText(p.runs);
    if text == [] {
      return;
    }
    var style := GetParagraphStyle(p);
    if IsHeading(style) {
      sections, pending := FlushList(sections, pending);
      sections := sections + [Section(text, [])];
      return;
    }
    if IsListParagraph(p) {
      pending := pending + [text];
      return;
    } else {
      sections, pending := FlushList(sections, pending);
      if sections == [] {
        sections := sections + [Section("Summary", [])];
      }
      var cur := sections[|sections| - 1];
      sections := sections[..|sections| - 1] + [Section(cur.title, cur.blocks + [PBlock(text)])];
    }
  }

  method FlushList(sections0: seq<Section>, pending0: seq<string>) returns (sections: seq<Section>, pending: seq<string>)
    ensures ConvState(sections, pending) == Flush(ConvState(sections0, pending0))
  {
    sections, pending := sections0, pending0;
    if pending != [] && sections != [] {
      var cur := sections[|sections| - 1];
      sections := sections[..|sections| - 1] + [Section(cur.title, cur.blocks + [ULBlock(pending)])];
    }
    pending := [];
  }

  /** The paragraphs with some text, classified. */
  function NonBlank(ks: seq<ParaKind>): seq<ParaKind>
    decreases |ks|
  {
    if ks == [] then [] else (if !ks[0].Blank? then [ks[0]] else []) + NonBlank(ks[1..])
  }

  /**
   * Paragraphs whose text is empty are skipped entirely: dropping them
   * first gives the same state, so they neither end a list nor open a
   * section.
   */
  lemma {:induction false} BlanksIgnored(st: ConvState, ks: seq<ParaKind>)
    ensures Run(st, NonBlank(ks)) == Run(st, ks)
    decreases |ks|
  {
    if ks != [] {
      if ks[0].Blank? {
        BlanksIgnored(st, ks[1..]);
        assert NonBlank(ks) == [] + NonBlank(ks[1..]) == NonBlank(ks[1..]);
        assert StepKind(st, ks[0]) == st;
      } else {
        BlanksIgnored(StepKind(st, ks[0]), ks[1..]);
        var q := [ks[0]] + NonBlank(ks[1..]);
        assert q[0] == ks[0] && q[1..] == NonBlank(ks[1..]);
      }
    }
  }

  // --- which sections there are -----------------------------------------

  function Titles(ss: seq<Section>): seq<string>
    decreases |ss|
  {
    if ss == [] then [] else [ss[0].title] + Titles(ss[1..])
  }

  /** The texts of the heading paragraphs, in order. */
  function HeadingTitles(ks: seq<ParaKind>): seq<string>
    decreases |ks|
  {
    if ks == [] then [] else (if ks[0].Heading? then [ks[0].text] else []) + HeadingTitles(ks[1..])
  }

  /** Some plain paragraph comes before every heading. */
  predicate PlainFirst(ks: seq<ParaKind>)
    decreases |ks|
  {
    ks != [] && !ks[0].Heading? && (ks[0].Plain? || PlainFirst(ks[1..]))
  }

  lemma {:induction false} TitlesAppend(a: seq<Section>, b: seq<Section>)
    ensures Titles(a + b) == Titles(a) + Titles(b)
    decreases |a|
  {
    if a == [] {
      assert a + b == b;
    } else {
      assert (a + b)[0] == a[0];
      assert (a + b)[1..] == a[1..] + b;
      TitlesAppend(a[1..], b);
    }
  }

  /** Replacing the last section by one of the same title keeps the titles. */
  lemma TitlesReplaceLast(ss: seq<Section>, s: Section)
    requires ss != [] && s.title == ss[|ss| - 1].title
    ensures Titles(ss[..|ss| - 1] + [s]) == Titles(ss)
  {
    var init := ss[..|ss| - 1];
    LastSplit(ss);
    TitlesAppend(init, [s]);
    TitlesAppend(init, [ss[|ss| - 1]]);
  }

  lemma FlushTitles(st: ConvState)
    ensures Titles(Flush(st).sections) == Titles(st.sections)
  {
    if st.pending != [] && st.sections != [] {
      var cur := st.sections[|st.sections| - 1];
      TitlesReplaceLast(st.sections, Section(cur.title, cur.blocks + [ULBlock(st.pending)]));
    }
  }

  /** The titles one paragraph adds. */
  lemma StepTitles(st: ConvState, k: ParaKind)
    ensures Titles(StepKind(st, k).sections) ==
              Titles(st.sections) +
              (if st.sections == [] && k.Plain? then ["Summary"] else []) +
              (if k.Heading? then [k.text] else [])
  {
    FlushTitles(st);
    match k
    case Blank =>
    case Item(_) =>
    case Heading(text) =>
      StepTitlesHeading(st, text);
    case Plain(text) =>
      StepTitlesPlain(st, text);
  }

  lemma StepTitlesHeading(st: ConvState, text: string)
    ensures Titles(StepKind(st, Heading(text)).sections) == Titles(Flush(st).sections) + [text]
  {
    TitlesAppend(Flush(st).sections, [Section(text, [])]);
    assert Titles([Section(text, [])]) == [text];
  }

  lemma StepTitlesPlain(st: ConvState, text: string)
    ensures Titles(StepKind(st, Plain(text)).sections) ==
              (if Flush(st).sections == [] then ["Summary"] else Titles(Flush(st).sections))
  {
    var secs := if Flush(st).sections == [] then [Section("Summary", [])] else Flush(st).sections;
    var cur := secs[|secs| - 1];
    TitlesReplaceLast(secs, Section(cur.title, cur.blocks + [PBlock(text)]));
    assert Titles([Section("Summary", [])]) == ["Summary"];
  }

  lemma StepKeepsSections(st: ConvState, k: ParaKind)
    ensures st.sections != [] ==> StepKind(st, k).sections != []
    ensures StepKind(st, k).sections == [] <==> st.sections == [] && !k.Heading? && !k.Plain?
  {
  }

  /**
   * The sections are one per heading paragraph, in order, preceded by a
   * `Summary` section exactly when a plain paragraph comes before every
   * heading.
   */
  lemma {:induction false} RunTitles(st: ConvState, ks: seq<ParaKind>)
    ensures Titles(Run(st, ks).sections) ==
              Titles(st.sections) + (if st.sections == [] && PlainFirst(ks) then ["Summary"] else []) + HeadingTitles(ks)
    decreases |ks|
  {
    if ks != [] {
      StepTitles(st, ks[0]);
      StepKeepsSections(st, ks[0]);
      RunTitles(StepKind(st, ks[0]), ks[1..]);
    }
  }

  lemma ConvertTitles(ps: seq<Paragraph>)
    ensures Titles(Convert(ps)) == (if PlainFirst(Kinds(ps)) then ["Summary"] else []) + HeadingTitles(Kinds(ps))
  {
    RunTitles(ConvState([], []), Kinds(ps));
    FlushTitles(Run(ConvState([], []), Kinds(ps)));
  }

  lemma TitlesLength(ss: seq<Section>)
    ensures |Titles(ss)| == |ss|
  {
    if ss != [] { TitlesLength(ss[1..]); }
  }

  /** Every paragraph is blank or a list item. */
  predicate OnlyItems(ks: seq<ParaKind>) {
    forall i :: 0 <= i < |ks| ==> ks[i].Blank? || ks[i].Item?
  }

  lemma OnlyItemsCons(ks: seq<ParaKind>)
    requires ks != []
    ensures OnlyItems(ks) <==> (ks[0].Blank? || ks[0].Item?) && OnlyItems(ks[1..])
  {
    assert forall i :: 1 <= i < |ks| ==> ks[1..][i - 1] == ks[i];
  }

  /** The run ends without a section exactly when it started without one and met only blanks and list items. */
  lemma {:induction false} RunSectionsEmpty(st: ConvState, ks: seq<ParaKind>)
    ensures Run(st, ks).sections == [] <==> st.sections == [] && OnlyItems(ks)
    decreases |ks|
  {
    if ks != [] {
      StepKeepsSections(st, ks[0]);
      RunSectionsEmpty(StepKind(st, ks[0]), ks[1..]);
      OnlyItemsCons(ks);
    }
  }

  /**
   * A document gives no section at all exactly when it has no heading and
   * no plain paragraph: list items with no section to go to are dropped.
   */
  lemma OnlyListItemsGiveNothing(ps: seq<Paragraph>)
    ensures Convert(ps) == [] <==> OnlyItems(Kinds(ps))
  {
    RunSectionsEmpty(ConvState([], []), Kinds(ps));
  }

  /**
   * Since no paragraph of a Word document has a style (see
   * QualifiedKeysHaveNoStyle), a converted document is at most one section,
   * titled `Summary`.
   */
  lemma UnstyledDocument(ps: seq<Paragraph>)
    requires forall i :: 0 <= i < |ps| ==> GetParagraphStyle(ps[i]).None?
    ensures |Convert(ps)| <= 1
    ensures Convert(ps) != [] ==> Convert(ps)[0].title == "Summary"
  {
    NoHeadings(ps);
    ConvertTitles(ps);
    TitlesLength(Convert(ps));
    if Convert(ps) != [] {
      assert Titles(Convert(ps))[0] == Convert(ps)[0].title;
    }
  }

  lemma {:induction false} NoHeadings(ps: seq<Paragraph>)
    requires forall i :: 0 <= i < |ps| ==> GetParagraphStyle(ps[i]).None?
    ensures HeadingTitles(Kinds(ps)) == []
    decreases |ps|
  {
    if ps != [] {
      assert !IsHeading(GetParagraphStyle(ps[0]));
      var ks := Kinds(ps);
      assert ks[0] == Classify(ps[0]) && ks[1..] == Kinds(ps[1..]);
      NoHeadings(ps[1..]);
    }
  }

  // --- what the sections hold -------------------------------------------

  /** The texts a block holds: a paragraph's text, or a list's items. */
  function BlockText(b: DocBlock): seq<string> {
    match b
    case PBlock(t) => [t]
    case ULBlock(items) => items
  }

  function BlocksText(bs: seq<DocBlock>): seq<string>
    decreases |bs|
  {
    if bs == [] then [] else BlocksText(bs[..|bs| - 1]) + BlockText(bs[|bs| - 1])
  }

  /** The texts of every block of every section, in order. */
  function SectionsText(ss: seq<Section>): seq<string>
    decreases |ss|
  {
    if ss == [] then [] else SectionsText(ss[..|ss| - 1]) + BlocksText(ss[|ss| - 1].blocks)
  }

  /** The text a classified paragraph brings to a section's blocks. */
  function BodyText(k: ParaKind): seq<string> {
    if k.Item? || k.Plain? then [k.text] else []
  }

  /** The texts of the list items and plain paragraphs, in order. */
  function BodyTexts(ks: seq<ParaKind>): seq<string>
    decreases |ks|
  {
    if ks == [] then [] else BodyText(ks[0]) + BodyTexts(ks[1..])
  }

  /** The paragraphs from the first heading or plain paragraph on. */
  function DropLead(ks: seq<ParaKind>): (r: seq<ParaKind>)
    ensures |r| <= |ks| && r == ks[|ks| - |r|..]
    ensures r == [] || r[0].Heading? || r[0].Plain?
    ensures OnlyItems(ks[..|ks| - |r|])
    decreases |ks|
  {
    if ks == [] || ks[0].Heading? || ks[0].Plain? then ks
    else
      var r := DropLead(ks[1..]);
      DropLeadStep(ks, r);
      r
  }

  /** Dropping one more leading blank or item keeps the dropped prefix made of blanks and items. */
  lemma DropLeadStep(ks: seq<ParaKind>, r: seq<ParaKind>)
    requires ks != [] && (ks[0].Blank? || ks[0].Item?)
    requires |r| <= |ks| - 1 && r == ks[1..][|ks| - 1 - |r|..] && OnlyItems(ks[1..][..|ks| - 1 - |r|])
    ensures r == ks[|ks| - |r|..] && OnlyItems(ks[..|ks| - |r|])
  {
    assert ks[1..][..|ks| - 1 - |r|] == ks[1..|ks| - |r|];
    assert forall i :: 1 <= i < |ks| - |r| ==> ks[i] == ks[1..|ks| - |r|][i - 1];
  }

  /** What the blocks will hold once the state is flushed. */
  function Held(st: ConvState): seq<string> {
    SectionsText(st.sections) + st.pending
  }

  lemma SectionsTextReplaceLast(ss: seq<Section>, b: DocBlock)
    requires ss != []
    ensures var cur := ss[|ss| - 1];
            SectionsText(ss[..|ss| - 1] + [Section(cur.title, cur.blocks + [b])]) == SectionsText(ss) + BlockText(b)
  {
    var cur := ss[|ss| - 1];
    var init := ss[..|ss| - 1];
    LastSplit(ss);
    ReplaceLastText(init, cur, b);
  }

  lemma ReplaceLastText(init: seq<Section>, cur: Section, b: DocBlock)
    ensures SectionsText(init + [Section(cur.title, cur.blocks + [b])]) == SectionsText(init + [cur]) + BlockText(b)
  {
    SectionsTextSnoc(init, Section(cur.title, cur.blocks + [b]));
    SectionsTextSnoc(init, cur);
    BlocksTextSnoc(cur.blocks, b);
    AppendAssoc(SectionsText(init), BlocksText(cur.blocks), BlockText(b));
  }

  lemma BlocksTextSnoc(bs: seq<DocBlock>, b: DocBlock)
    ensures BlocksText(bs + [b]) == BlocksText(bs) + BlockText(b)
  {
    assert (bs + [b])[..|bs|] == bs;
  }

  lemma SectionsTextSnoc(ss: seq<Section>, s: Section)
    ensures SectionsText(ss + [s]) == SectionsText(ss) + BlocksText(s.blocks)
  {
    assert (ss + [s])[..|ss|] == ss;
  }

  /** A flush moves the pending items into the blocks of the current section. */
  lemma FlushHeld(st: ConvState)
    requires st.sections != []
    ensures SectionsText(Flush(st).sections) == Held(st)
  {
    if st.pending != [] {
      SectionsTextReplaceLast(st.sections, ULBlock(st.pending));
    }
  }

  lemma StepHeld(st: ConvState, k: ParaKind)
    requires st.sections != []
    ensures Held(StepKind(st, k)) == Held(st) + BodyText(k)
  {
    match k
    case Blank =>
    case Item(_) =>
    case Heading(text) =>
      FlushHeld(st);
      SectionsTextSnoc(Flush(st).sections, Section(text, []));
    case Plain(text) =>
      FlushHeld(st);
      SectionsTextReplaceLast(Flush(st).sections, PBlock(text));
  }

  lemma {:induction false} RunHeld(st: ConvState, ks: seq<ParaKind>)
    requires st.sections != []
    ensures Run(st, ks).sections != []
    ensures Held(Run(st, ks)) == Held(st) + BodyTexts(ks)
    decreases |ks|
  {
    if ks != [] {
      var st1 := StepKind(st, ks[0]);
      StepHeld(st, ks[0]);
      StepKeepsSections(st, ks[0]);
      RunHeld(st1, ks[1..]);
      AppendAssoc(Held(st), BodyText(ks[0]), BodyTexts(ks[1..]));
    }
  }

  /** The state before any section: the items seen so far are pending, to be dropped. */
  lemma {:induction false} LeadDropped(st: ConvState, ks: seq<ParaKind>)
    requires st.sections == []
    ensures SectionsText(Flush(Run(st, ks)).sections) == BodyTexts(DropLead(ks))
    decreases |ks|
  {
    if ks == [] {
    } else if ks[0].Heading? || ks[0].Plain? {
      var k := ks[0];
      var st1 := StepKind(st, k);
      StepKeepsSections(st, k);
      assert Held(st1) == BodyText(k) by {
        if k.Plain? {
          assert Flush(st).sections == [];
          var secs := [Section("Summary", [])];
          var none: seq<DocBlock> := [];
          assert none + [PBlock(k.text)] == [PBlock(k.text)];
          assert secs[..0] == [];
          assert st1.sections == [Section("Summary", [PBlock(k.text)])];
          assert [PBlock(k.text)][..0] == [];
          assert BlocksText([PBlock(k.text)]) == [k.text];
          assert [Section("Summary", [PBlock(k.text)])][..0] == [];
          assert SectionsText(st1.sections) == [k.text];
          assert st1.pending == [];
        } else {
          assert st1.sections == [Section(k.text, [])];
          assert [Section(k.text, [])][..0] == [];
          assert SectionsText(st1.sections) == [];
          assert st1.pending == [];
        }
      }
      RunHeld(st1, ks[1..]);
      FlushHeld(Run(st1, ks[1..]));
    } else {
      StepKeepsSections(st, ks[0]);
      LeadDropped(StepKind(st, ks[0]), ks[1..]);
    }
  }

  /**
   * The blocks of the sections hold the texts of the list items and plain
   * paragraphs in document order, except the list items before the first
   * heading or plain paragraph, which have no section to go to.
   */
  lemma ConvertKeepsTexts(ps: seq<Paragraph>)
    ensures SectionsText(Convert(ps)) == BodyTexts(DropLead(Kinds(ps)))
  {
    LeadDropped(ConvState([], []), Kinds(ps));
  }

  // --- the shape of every section ----------------------------------------

  /** A paragraph of extracted text, or a non-empty list of extracted texts. */
  predicate GoodBlock(b: DocBlock) {
    match b
    case PBlock(t) => t != [] && Normalised(t)
    case ULBlock(items) => items != [] && forall i :: 0 <= i < |items| ==> items[i] != [] && Normalised(items[i])
  }

  /** Every block is good, and no two lists are neighbours. */
  predicate GoodBlocks(bs: seq<DocBlock>) {
    (forall i :: 0 <= i < |bs| ==> GoodBlock(bs[i])) &&
    (forall i :: 0 < i < |bs| && bs[i].ULBlock? ==> !bs[i - 1].ULBlock?)
  }

  predicate EndsWithUL(s: Section) {
    s.blocks != [] && s.blocks[|s.blocks| - 1].ULBlock?
  }

  /** The invariant of the converter's loop: the current section never ends with a list while the loop runs. */
  predicate Good(st: ConvState) {
    (forall k :: 0 <= k < |st.sections| ==> GoodBlocks(st.sections[k].blocks)) &&
    (forall i :: 0 <= i < |st.pending| ==> st.pending[i] != [] && Normalised(st.pending[i])) &&
    (st.sections != [] ==> !EndsWithUL(st.sections[|st.sections| - 1]))
  }

  /** A block appended to blocks that do not end with a list. */
  lemma AppendBlock(bs: seq<DocBlock>, b: DocBlock)
    requires GoodBlocks(bs) && GoodBlock(b)
    requires b.ULBlock? ==> bs == [] || !bs[|bs| - 1].ULBlock?
    ensures GoodBlocks(bs + [b])
  {
    var r := bs + [b];
    forall i | 0 <= i < |r| ensures GoodBlock(r[i]) {
      if i < |bs| { assert r[i] == bs[i]; }
    }
    forall i | 0 < i < |r| && r[i].ULBlock? ensures !r[i - 1].ULBlock? {
      if i < |bs| { assert r[i] == bs[i] && r[i - 1] == bs[i - 1]; }
      else { assert r[i - 1] == bs[|bs| - 1]; }
    }
  }

  /** Replacing the last section by one with good blocks keeps every section's blocks good. */
  lemma ReplaceLastGood(ss: seq<Section>, s: Section)
    requires ss != [] && forall k :: 0 <= k < |ss| - 1 ==> GoodBlocks(ss[k].blocks)
    requires GoodBlocks(s.blocks)
    ensures var r := ss[..|ss| - 1] + [s];
            forall k :: 0 <= k < |r| ==> GoodBlocks(r[k].blocks)
  {
    var r := ss[..|ss| - 1] + [s];
    forall k | 0 <= k < |r| ensures GoodBlocks(r[k].blocks) {
      if k < |ss| - 1 { assert r[k] == ss[k]; }
    }
  }

  /** A flush leaves every section with good blocks (but the current one may now end with a list). */
  lemma FlushGood(st: ConvState)
    requires Good(st)
    ensures var f := Flush(st);
            (forall k :: 0 <= k < |f.sections| ==> GoodBlocks(f.sections[k].blocks)) && f.pending == []
  {
    if st.pending != [] && st.sections != [] {
      var cur := st.sections[|st.sections| - 1];
      AppendBlock(cur.blocks, ULBlock(st.pending));
      ReplaceLastGood(st.sections, Section(cur.title, cur.blocks + [ULBlock(st.pending)]));
    }
  }

  lemma StepGood(st: ConvState, k: ParaKind)
    requires Good(st)
    requires !k.Blank? ==> k.text != [] && Normalised(k.text)
    ensures Good(StepKind(st, k))
  {
    match k
    case Blank =>
    case Heading(text) =>
      FlushGood(st);
      var f := Flush(st).sections;
      var r := f + [Section(text, [])];
      forall i | 0 <= i < |r| ensures GoodBlocks(r[i].blocks) {
        if i < |f| { assert r[i] == f[i]; }
      }
    case Item(text) =>
      var r := st.pending + [text];
      forall i | 0 <= i < |r| ensures r[i] != [] && Normalised(r[i]) {
        if i < |st.pending| { assert r[i] == st.pending[i]; }
      }
    case Plain(text) =>
      FlushGood(st);
      var secs := if Flush(st).sections == [] then [Section("Summary", [])] else Flush(st).sections;
      var cur := secs[|secs| - 1];
      AppendBlock(cur.blocks, PBlock(text));
      ReplaceLastGood(secs, Section(cur.title, cur.blocks + [PBlock(text)]));
  }

  /** Every classified paragraph with text carries an extracted, hence normalised, text. */
  predicate GoodKinds(ks: seq<ParaKind>) {
    forall i :: 0 <= i < |ks| && !ks[i].Blank? ==> ks[i].text != [] && Normalised(ks[i].text)
  }

  lemma {:induction false} KindsGood(ps: seq<Paragraph>)
    ensures GoodKinds(Kinds(ps))
    decreases |ps|
  {
    if ps != [] {
      KindsGood(ps[1..]);
      GoodKindsCons(Classify(ps[0]), Kinds(ps[1..]));
    }
  }

  lemma GoodKindsCons(k: ParaKind, ks: seq<ParaKind>)
    requires !k.Blank? ==> k.text != [] && Normalised(k.text)
    requires GoodKinds(ks)
    ensures GoodKinds([k] + ks)
  {
    assert forall i :: 1 <= i < |ks| + 1 ==> ([k] + ks)[i] == ks[i - 1];
  }

  lemma {:induction false} RunGood(st: ConvState, ks: seq<ParaKind>)
    requires Good(st) && GoodKinds(ks)
    ensures Good(Run(st, ks))
    decreases |ks|
  {
    if ks != [] {
      StepGood(st, ks[0]);
      assert forall i :: 1 <= i < |ks| ==> ks[1..][i - 1] == ks[i];
      RunGood(StepKind(st, ks[0]), ks[1..]);
    }
  }

  /**
   * Every block of every section holds extracted text; a list has at least
   * one item; and two lists are never neighbours, because consecutive list
   * paragraphs are gathered into one.
   */
  lemma ConvertWellFormed(ps: seq<Paragraph>)
    ensures forall k :: 0 <= k < |Convert(ps)| ==> GoodBlocks(Convert(ps)[k].blocks)
  {
    KindsGood(ps);
    RunGood(ConvState([], []), Kinds(ps));
    FlushGood(Run(ConvState([], []), Kinds(ps)));
  }

  // --- which blocks each section holds ----------------------------------

  /*
   * An independent description of the sections, by cutting the document at
   * its headings rather than by running the loop: each heading starts a
   * section holding the paragraphs up to the next heading, in which every
   * plain paragraph is a paragraph block and every maximal run of list
   * items is one list block.  Text before the first heading goes to a
   * "Summary" section if it holds a plain paragraph; list items before
   * the first heading or plain paragraph are lost.  Blank paragraphs are
   * removed first.
   */

  predicate NoBlanks(ks: seq<ParaKind>) {
    forall i :: 0 <= i < |ks| ==> !ks[i].Blank?
  }

  predicate HeadingFree(ks: seq<ParaKind>) {
    forall i :: 0 <= i < |ks| ==> !ks[i].Heading?
  }

  /** The length of the run of list items `ks` starts with. */
  function ItemSpan(ks: seq<ParaKind>): (n: nat)
    ensures n <= |ks| && (forall i :: 0 <= i < n ==> ks[i].Item?) && (n < |ks| ==> !ks[n].Item?)
    decreases |ks|
  {
    if ks == [] || !ks[0].Item? then 0 else 1 + ItemSpan(ks[1..])
  }

  function ItemTexts(ks: seq<ParaKind>): seq<string>
    decreases |ks|
  {
    if ks == [] then [] else (if ks[0].Item? then [ks[0].text] else []) + ItemTexts(ks[1..])
  }

  /** The blocks of a section's paragraphs: one per plain paragraph, one per run of items. */
  function Group(ks: seq<ParaKind>): seq<DocBlock>
    decreases |ks|
  {
    if ks == [] then []
    else if ks[0].Item? then
      var n := ItemSpan(ks);
      [ULBlock(ItemTexts(ks[..n]))] + Group(ks[n..])
    else if ks[0].Plain? then [PBlock(ks[0].text)] + Group(ks[1..])
    else Group(ks[1..])
  }

  /** The position of the first heading, or the length when there is none. */
  function NextHeading(ks: seq<ParaKind>): (n: nat)
    ensures n <= |ks| && (forall i :: 0 <= i < n ==> !ks[i].Heading?) && (n < |ks| ==> ks[n].Heading?)
    decreases |ks|
  {
    if ks == [] || ks[0].Heading? then 0 else 1 + NextHeading(ks[1..])
  }

  /** One section per heading, holding the blocks of what follows it up to the next heading. */
  function SectionsAt(ks: seq<ParaKind>): seq<Section>
    decreases |ks|
  {
    if ks == [] then []
    else if !ks[0].Heading? then SectionsAt(ks[1..])
    else
      var body := ks[1..];
      var n := NextHeading(body);
      [Section(ks[0].text, Group(body[..n]))] + SectionsAt(body[n..])
  }

  /** The sections of the blank-free paragraphs `ks`, cut at the headings. */
  function Grouped(ks: seq<ParaKind>): seq<Section> {
    var r := DropLead(ks);
    if r == [] then []
    else if r[0].Heading? then SectionsAt(r)
    else
      var n := NextHeading(r);
      [Section("Summary", Group(r[..n]))] + SectionsAt(r[n..])
  }

  /** The list block pending items make, if any. */
  function ListOf(p: seq<string>): seq<DocBlock> {
    if p != [] then [ULBlock(p)] else []
  }

  function ItemKinds(p: seq<string>): (ks: seq<ParaKind>)
    ensures |ks| == |p| && forall i :: 0 <= i < |p| ==> ks[i] == Item(p[i])
  {
    seq(|p|, i requires 0 <= i < |p| => Item(p[i]))
  }

  lemma {:induction false} ItemTextsOfItems(p: seq<string>)
    ensures ItemTexts(ItemKinds(p)) == p
    decreases |p|
  {
    if p != [] {
      assert ItemKinds(p)[1..] == ItemKinds(p[1..]);
      ItemTextsOfItems(p[1..]);
    }
  }

  /** Items followed by something other than an item form one list block. */
  lemma GroupAfterItems(p: seq<string>, ks: seq<ParaKind>)
    requires ks == [] || !ks[0].Item?
    ensures Group(ItemKinds(p) + ks) == ListOf(p) + Group(ks)
  {
    var s := ItemKinds(p) + ks;
    if p == [] {
      assert s == ks;
    } else {
      assert forall i :: 0 <= i < |p| ==> s[i].Item?;
      assert |p| < |s| ==> s[|p|] == ks[0];
      assert ItemSpan(s) == |p|;
      assert s[..|p|] == ItemKinds(p) && s[|p|..] == ks;
      ItemTextsOfItems(p);
    }
  }

  lemma {:induction false} RunAppend(st: ConvState, a: seq<ParaKind>, b: seq<ParaKind>)
    ensures Run(st, a + b) == Run(Run(st, a), b)
    decreases |a|
  {
    if a == [] {
      assert a + b == b;
    } else {
      assert (a + b)[0] == a[0] && (a + b)[1..] == a[1..] + b;
      RunAppend(StepKind(st, a[0]), a[1..], b);
    }
  }

  lemma FlushLast(ss: seq<Section>, t: string, bs: seq<DocBlock>, p: seq<string>)
    ensures Flush(ConvState(ss + [Section(t, bs)], p)) == ConvState(ss + [Section(t, bs + ListOf(p))], [])
  {
    assert (ss + [Section(t, bs)])[..|ss|] == ss;
    assert bs + [] == bs;
  }

  lemma NoBlanksTail(ks: seq<ParaKind>)
    requires ks != [] && NoBlanks(ks)
    ensures NoBlanks(ks[1..])
  {
    assert forall i :: 0 <= i < |ks| - 1 ==> ks[1..][i] == ks[i + 1];
  }

  lemma HeadingFreeTail(ks: seq<ParaKind>)
    requires ks != [] && HeadingFree(ks)
    ensures HeadingFree(ks[1..])
  {
    assert forall i :: 0 <= i < |ks| - 1 ==> ks[1..][i] == ks[i + 1];
  }

  /**
   * Within a section: running heading-free, blank-free paragraphs and
   * flushing adds to the current section the blocks of the pending items
   * followed by those paragraphs.
   */
  lemma {:induction false} BodyRun(ss: seq<Section>, t: string, bs: seq<DocBlock>, p: seq<string>, ks: seq<ParaKind>)
    requires NoBlanks(ks) && HeadingFree(ks)
    ensures Flush(Run(ConvState(ss + [Section(t, bs)], p), ks)).sections ==
            ss + [Section(t, bs + Group(ItemKinds(p) + ks))]
    decreases |ks|
  {
    var st := ConvState(ss + [Section(t, bs)], p);
    FlushLast(ss, t, bs, p);
    if ks == [] {
      GroupAfterItems(p, []);
      assert ListOf(p) + [] == ListOf(p);
    } else {
      NoBlanksTail(ks);
      HeadingFreeTail(ks);
      assert !ks[0].Blank? && !ks[0].Heading?;
      var k := ks[0];
      if k.Item? {
        BodyRun(ss, t, bs, p + [k.text], ks[1..]);
        assert ItemKinds(p + [k.text]) == ItemKinds(p) + [k];
        assert ks == [k] + ks[1..];
        AppendAssoc(ItemKinds(p), [k], ks[1..]);
      } else {
        BodyRun(ss, t, bs + ListOf(p) + [PBlock(k.text)], [], ks[1..]);
        BodyPlain(ss, t, bs, p, ks);
      }
    }
  }

  lemma BodyPlain(ss: seq<Section>, t: string, bs: seq<DocBlock>, p: seq<string>, ks: seq<ParaKind>)
    requires ks != [] && ks[0].Plain? && NoBlanks(ks[1..]) && HeadingFree(ks[1..])
    requires Flush(Run(ConvState(ss + [Section(t, bs + ListOf(p) + [PBlock(ks[0].text)])], []), ks[1..])).sections ==
               ss + [Section(t, bs + ListOf(p) + [PBlock(ks[0].text)] + Group(ItemKinds([]) + ks[1..]))]
    ensures Flush(Run(ConvState(ss + [Section(t, bs)], p), ks)).sections ==
            ss + [Section(t, bs + Group(ItemKinds(p) + ks))]
  {
    var st := ConvState(ss + [Section(t, bs)], p);
    var x := ks[0].text;
    FlushLast(ss, t, bs, p);
    var secs := ss + [Section(t, bs + ListOf(p))];
    assert secs[..|secs| - 1] == ss;
    assert StepKind(st, ks[0]) == ConvState(ss + [Section(t, bs + ListOf(p) + [PBlock(x)])], []);
    assert ItemKinds([]) + ks[1..] == ks[1..];
    GroupAfterItems(p, ks);
    assert Group(ks) == [PBlock(x)] + Group(ks[1..]);
    AppendAssoc(bs + ListOf(p), [PBlock(x)], Group(ks[1..]));
    AppendAssoc(bs, ListOf(p), [PBlock(x)] + Group(ks[1..]));
  }

  /** What lies before the next heading is heading-free, and both sides stay blank-free. */
  lemma CutAtHeading(ks: seq<ParaKind>)
    requires NoBlanks(ks)
    ensures var n := NextHeading(ks);
            NoBlanks(ks[..n]) && HeadingFree(ks[..n]) && NoBlanks(ks[n..]) && ks == ks[..n] + ks[n..]
  {
    var n := NextHeading(ks);
    forall i | 0 <= i < n
      ensures !ks[..n][i].Blank? && !ks[..n][i].Heading?
    {
      assert ks[..n][i] == ks[i];
    }
    DropNoBlanks(ks, n);
    TakeDrop(ks, n);
  }

  lemma DropNoBlanks(ks: seq<ParaKind>, n: nat)
    requires n <= |ks| && NoBlanks(ks)
    ensures NoBlanks(ks[n..])
  {
    forall i | 0 <= i < |ks| - n
      ensures !ks[n..][i].Blank?
    {
      assert ks[n..][i] == ks[n + i];
    }
  }

  /**
   * From a state with a current section: the paragraphs up to the next
   * heading go to the current section, and each later heading starts a
   * section of its own, as `SectionsAt` describes.
   */
  lemma {:induction false} SectionsRun(st: ConvState, ks: seq<ParaKind>)
    requires st.sections != [] && NoBlanks(ks)
    ensures Flush(Run(st, ks)).sections ==
            Flush(Run(st, ks[..NextHeading(ks)])).sections + SectionsAt(ks[NextHeading(ks)..])
    decreases |ks|
  {
    var n := NextHeading(ks);
    var a, b := ks[..n], ks[n..];
    CutAtHeading(ks);
    RunAppend(st, a, b);
    if b == [] {
      AppendNil(Flush(Run(st, a)).sections);
    } else {
      NoBlanksTail(b);
      var s1 := Run(st, a);
      var f1 := Flush(s1).sections;
      var st2 := ConvState(f1 + [Section(b[0].text, [])], []);
      assert Run(s1, b) == Run(st2, b[1..]);
      SectionsRun(st2, b[1..]);
      HeadingSection(f1, b);
    }
  }

  /** A heading and what follows it, run from a fresh section: its section, then the later sections. */
  lemma HeadingSection(f1: seq<Section>, b: seq<ParaKind>)
    requires b != [] && b[0].Heading? && NoBlanks(b[1..])
    requires var st2 := ConvState(f1 + [Section(b[0].text, [])], []);
             var m := NextHeading(b[1..]);
             Flush(Run(st2, b[1..])).sections ==
             Flush(Run(st2, b[1..][..m])).sections + SectionsAt(b[1..][m..])
    ensures Flush(Run(ConvState(f1 + [Section(b[0].text, [])], []), b[1..])).sections == f1 + SectionsAt(b)
  {
    var body := b[1..];
    var m := NextHeading(body);
    CutAtHeading(body);
    FreshBody(f1, b[0].text, [], body[..m]);
    var sec := Section(b[0].text, Group(body[..m]));
    assert SectionsAt(b) == [sec] + SectionsAt(body[m..]);
    assert [] + Group(body[..m]) == Group(body[..m]);
    AppendAssoc(f1, [sec], SectionsAt(body[m..]));
  }

  /**
   * Before any section: list items wait and are dropped by the first
   * heading or plain paragraph, which opens the first section.
   */
  lemma {:induction false} LeadRun(p: seq<string>, ks: seq<ParaKind>)
    requires NoBlanks(ks)
    ensures Flush(Run(ConvState([], p), ks)).sections == Grouped(ks)
    decreases |ks|
  {
    if ks != [] {
      var k := ks[0];
      var st := ConvState([], p);
      NoBlanksTail(ks);
      assert !k.Blank?;
      if k.Item? {
        LeadRun(p + [k.text], ks[1..]);
      } else if k.Heading? {
        LeadHeading(p, ks);
      } else {
        LeadPlain(p, ks);
      }
    }
  }

  lemma LeadHeading(p: seq<string>, ks: seq<ParaKind>)
    requires ks != [] && ks[0].Heading? && NoBlanks(ks[1..])
    ensures Flush(Run(ConvState([], p), ks)).sections == Grouped(ks)
  {
    var st1 := ConvState([] + [Section(ks[0].text, [])], []);
    HeadingOpensSection(p, ks);
    SectionsRun(st1, ks[1..]);
    HeadingSection([], ks);
    GroupedHeading(ks);
  }

  /** A heading before any section opens its section; waiting items are dropped. */
  lemma HeadingOpensSection(p: seq<string>, ks: seq<ParaKind>)
    requires ks != [] && ks[0].Heading?
    ensures Run(ConvState([], p), ks) == Run(ConvState([] + [Section(ks[0].text, [])], []), ks[1..])
  {
    assert StepKind(ConvState([], p), ks[0]) == ConvState([] + [Section(ks[0].text, [])], []);
  }

  /** A heading first: the sections are those `SectionsAt` cuts. */
  lemma GroupedHeading(ks: seq<ParaKind>)
    requires ks != [] && ks[0].Heading?
    ensures [] + SectionsAt(ks) == Grouped(ks)
  {
    assert DropLead(ks) == ks;
  }

  lemma LeadPlain(p: seq<string>, ks: seq<ParaKind>)
    requires ks != [] && ks[0].Plain? && NoBlanks(ks[1..])
    ensures Flush(Run(ConvState([], p), ks)).sections == Grouped(ks)
  {
    var x := ks[0].text;
    var st1 := ConvState([] + [Section("Summary", [PBlock(x)])], []);
    PlainOpensSummary(p, x);
    assert Run(ConvState([], p), ks) == Run(st1, ks[1..]);
    SummaryBody(x, ks[1..]);
    GroupedPlain(ks);
  }

  /** A plain paragraph before any section opens "Summary" holding it; waiting items are dropped. */
  lemma PlainOpensSummary(p: seq<string>, x: string)
    ensures StepKind(ConvState([], p), Plain(x)) == ConvState([] + [Section("Summary", [PBlock(x)])], [])
  {
    var none: seq<DocBlock> := [];
    assert none + [PBlock(x)] == [PBlock(x)];
    assert [Section("Summary", none)][..0] == [];
  }

  lemma SummaryBody(x: string, body: seq<ParaKind>)
    requires NoBlanks(body)
    ensures var m := NextHeading(body);
            Flush(Run(ConvState([] + [Section("Summary", [PBlock(x)])], []), body)).sections ==
            [Section("Summary", [PBlock(x)] + Group(body[..m]))] + SectionsAt(body[m..])
  {
    var m := NextHeading(body);
    SectionsRun(ConvState([] + [Section("Summary", [PBlock(x)])], []), body);
    CutAtHeading(body);
    FreshBody([], "Summary", [PBlock(x)], body[..m]);
    NilAppend([Section("Summary", [PBlock(x)] + Group(body[..m]))]);
  }

  lemma NilAppend<T>(xs: seq<T>)
    ensures [] + xs == xs
  {
  }

  /** A section with nothing pending takes the grouped blocks of the heading-free paragraphs that follow. */
  lemma FreshBody(ss: seq<Section>, t: string, bs: seq<DocBlock>, ks: seq<ParaKind>)
    requires NoBlanks(ks) && HeadingFree(ks)
    ensures Flush(Run(ConvState(ss + [Section(t, bs)], []), ks)).sections == ss + [Section(t, bs + Group(ks))]
  {
    BodyRun(ss, t, bs, [], ks);
    assert ItemKinds([]) == [];
    assert ItemKinds([]) + ks == ks;
  }

  /** Plain text first: a "Summary" section holding it and what follows up to the first heading. */
  lemma GroupedPlain(ks: seq<ParaKind>)
    requires ks != [] && ks[0].Plain?
    ensures var body := ks[1..];
            var m := NextHeading(body);
            Grouped(ks) == [Section("Summary", [PBlock(ks[0].text)] + Group(body[..m]))] + SectionsAt(body[m..])
  {
    var body := ks[1..];
    var m := NextHeading(body);
    assert NextHeading(ks) == 1 + m;
    assert ks[..1 + m] == [ks[0]] + body[..m] && ks[1 + m..] == body[m..];
    assert ([ks[0]] + body[..m])[1..] == body[..m];
  }

  lemma {:induction false} NonBlankHasNone(ks: seq<ParaKind>)
    ensures NoBlanks(NonBlank(ks))
    decreases |ks|
  {
    if ks != [] {
      NonBlankHasNone(ks[1..]);
      var head := if !ks[0].Blank? then [ks[0]] else [];
      assert forall i :: 0 <= i < |head| + |NonBlank(ks[1..])| ==>
               (head + NonBlank(ks[1..]))[i] == if i < |head| then head[i] else NonBlank(ks[1..])[i - |head|];
    }
  }

  /**
   * The converter's sections are those of the independent description:
   * cut at the headings, each section's body grouped into paragraph blocks
   * and one list block per run of consecutive list items.
   */
  lemma ConvertGroups(ps: seq<Paragraph>)
    ensures Convert(ps) == Grouped(NonBlank(Kinds(ps)))
  {
    BlanksIgnored(ConvState([], []), Kinds(ps));
    NonBlankHasNone(Kinds(ps));
    LeadRun([], NonBlank(Kinds(ps)));
  }

  /** The grouping on a short document: a run of two items, then a paragraph, under one heading. */
  lemma GroupedExample()
    ensures Grouped([Heading("Skills"), Item("Go"), Item("Rust"), Plain("Fluent")]) ==
            [Section("Skills", [ULBlock(["Go", "Rust"]), PBlock("Fluent")])]
  {
    var ks := [Heading("Skills"), Item("Go"), Item("Rust"), Plain("Fluent")];
    var body := [Item("Go"), Item("Rust"), Plain("Fluent")];
    assert ks[1..] == body;
    assert body[1..] == [Item("Rust"), Plain("Fluent")];
    assert body[1..][1..] == [Plain("Fluent")];
    assert [Plain("Fluent")][1..] == [];
    assert NextHeading(body) == 3;
    assert body[..3] == body && body[3..] == [];
    assert ItemSpan(body) == 2;
    assert body[..2] == [Item("Go"), Item("Rust")] && body[2..] == [Plain("Fluent")];
    assert [Item("Go"), Item("Rust")][1..] == [Item("Rust")];
    assert [Item("Rust")][1..] == [];
    assert ItemTexts(body[..2]) == ["Go", "Rust"];
    assert Group([Plain("Fluent")]) == [PBlock("Fluent")];
    assert Group(body) == [ULBlock(["Go", "Rust"]), PBlock("Fluent")];
    assert SectionsAt(ks) == [Section("Skills", Group(body))] + SectionsAt([]);
    assert DropLead(ks) == ks;
  }

  // ---------------------------------------------------------------------
  // Writing the sections as HTML
  // ---------------------------------------------------------------------

  /** `html.escape` of one character, with quotes escaped. */
  function EscapeChar(c: char): string {
    if c == '&' then "&amp;"
    else if c == '<' then "&lt;"
    else if c == '>' then "&gt;"
    else if c == '"' then "&quot;"
    else if c == '\'' then "&#x27;"
    else [c]
  }

  /** A character `html.escape` replaces other than the ampersand. */
  predicate IsMarkup(c: char) {
    c == '<' || c == '>' || c == '"' || c == '\''
  }

  predicate NoMarkup(s: string) {
    forall k :: 0 <= k < |s| ==> !IsMarkup(s[k])
  }

  /**
   * `html.escape(s)`: replacing `&` first and then `<`, `>`, `"` and `'`
   * is the same as replacing each character on its own, because no
   * replacement brings in a character a later one replaces.
   */
  function Escape(s: string): (r: string)
    ensures NoMarkup(r)
    decreases |s|
  {
    if s == [] then []
    else
      var rest := Escape(s[1..]);
      var e := EscapeChar(s[0]);
      var r := e + rest;
      assert forall k :: |e| <= k < |r| ==> r[k] == rest[k - |e|];
      r
  }

  function StartsWith(t: string, w: string): bool {
    |w| <= |t| && t[..|w|] == w
  }

  /** The inverse of `Escape`: the five entities it writes are read back as their characters. */
  function Unescape(t: string): string
    decreases |t|
  {
    if t == [] then []
    else if StartsWith(t, "&amp;") then "&" + Unescape(t[5..])
    else if StartsWith(t, "&lt;") then "<" + Unescape(t[4..])
    else if StartsWith(t, "&gt;") then ">" + Unescape(t[4..])
    else if StartsWith(t, "&quot;") then "\"" + Unescape(t[6..])
    else if StartsWith(t, "&#x27;") then "'" + Unescape(t[6..])
    else [t[0]] + Unescape(t[1..])
  }

  /** Unescaping an entity at the front of `u`: each of the five is read back as one character. */
  lemma UnescapeAmp(u: string)
    ensures Unescape("&amp;" + u) == "&" + Unescape(u)
  {
    EntityFront("&amp;", u);
  }

  lemma UnescapeLt(u: string)
    ensures Unescape("&lt;" + u) == "<" + Unescape(u)
  {
    EntityFront("&lt;", u);
    MissesAt("&lt;" + u, "&amp;", 1);
  }

  lemma UnescapeGt(u: string)
    ensures Unescape("&gt;" + u) == ">" + Unescape(u)
  {
    EntityFront("&gt;", u);
    MissesAt("&gt;" + u, "&amp;", 1);
    MissesAt("&gt;" + u, "&lt;", 1);
  }

  lemma UnescapeQuot(u: string)
    ensures Unescape("&quot;" + u) == "\"" + Unescape(u)
  {
    EntityFront("&quot;", u);
    MissesAt("&quot;" + u, "&amp;", 1);
    MissesAt("&quot;" + u, "&lt;", 1);
    MissesAt("&quot;" + u, "&gt;", 1);
  }

  lemma UnescapeApos(u: string)
    ensures Unescape("&#x27;" + u) == "'" + Unescape(u)
  {
    EntityFront("&#x27;", u);
    MissesAt("&#x27;" + u, "&amp;", 1);
    MissesAt("&#x27;" + u, "&lt;", 1);
    MissesAt("&#x27;" + u, "&gt;", 1);
    MissesAt("&#x27;" + u, "&quot;", 1);
  }

  /** A text that differs from `w` at position `i` does not start with `w`. */
  lemma MissesAt(t: string, w: string, i: nat)
    requires i < |t| && i < |w| && t[i] != w[i]
    ensures !StartsWith(t, w)
  {
    if |w| <= |t| {
      assert t[..|w|][i] == t[i];
    }
  }

  lemma EntityFront(e: string, u: string)
    ensures (e + u)[..|e|] == e && (e + u)[|e|..] == u
  {
  }

  lemma UnescapeChar(c: char, u: string)
    ensures Unescape(EscapeChar(c) + u) == [c] + Unescape(u)
  {
    if c == '&' {
      UnescapeAmp(u);
    } else if c == '<' {
      UnescapeLt(u);
    } else if c == '>' {
      UnescapeGt(u);
    } else if c == '"' {
      UnescapeQuot(u);
    } else if c == '\'' {
      UnescapeApos(u);
    } else {
      var t := [c] + u;
      assert t[0] == c && t[1..] == u;
      assert !StartsWith(t, "&amp;") && !StartsWith(t, "&lt;") && !StartsWith(t, "&gt;") by {
        assert |t| > 0 && t[0] != '&';
      }
      assert !StartsWith(t, "&quot;") && !StartsWith(t, "&#x27;") by {
        assert |t| > 0 && t[0] != '&';
      }
    }
  }

  /** Escaping loses nothing: unescaping gives the text back. */
  lemma {:induction false} EscapeRoundTrip(s: string)
    ensures Unescape(Escape(s)) == s
    decreases |s|
  {
    if s != [] {
      UnescapeChar(s[0], Escape(s[1..]));
      EscapeRoundTrip(s[1..]);
      assert s == [s[0]] + s[1..];
    }
  }

  /** The lines of a list's items. */
  function ItemLines(items: seq<string>): (r: seq<string>)
    ensures |r| == |items|
    decreases |items|
  {
    if items == [] then []
    else ItemLines(items[..|items| - 1]) + ["        <li>" + Escape(items[|items| - 1]) + "</li>"]
  }

  /** The lines of one block: a `<p>` line, or a `<ul>` line, its items and a `</ul>` line. */
  function BlockLines(b: DocBlock): (r: seq<string>)
    ensures |r| == if b.PBlock? then 1 else |b.items| + 2
  {
    match b
    case PBlock(t) => ["      <p>" + Escape(t) + "</p>"]
    case ULBlock(items) => ["      <ul>"] + ItemLines(items) + ["      </ul>"]
  }

  function BlocksLines(bs: seq<DocBlock>): seq<string>
    decreases |bs|
  {
    if bs == [] then [] else BlocksLines(bs[..|bs| - 1]) + BlockLines(bs[|bs| - 1])
  }

  lemma BlocksLinesSnoc(bs: seq<DocBlock>, j: nat)
    requires j < |bs|
    ensures BlocksLines(bs[..j + 1]) == BlocksLines(bs[..j]) + BlockLines(bs[j])
  {
    assert bs[..j + 1][..j] == bs[..j];
  }

  /** The three opening lines of a section, with its escaped title. */
  function SectionHead(title: string): seq<string> {
    ["  <section class=\"resume-section\">",
     "    <h2 class=\"resume-title\" tabindex=\"0\">" + Escape(title) + "</h2>",
     "    <div class=\"resume-details\">"]
  }

  const SectionTail: seq<string> := ["    </div>", "  </section>"]

  function SectionLines(s: Section): seq<string> {
    SectionHead(s.title) + BlocksLines(s.blocks) + SectionTail
  }

  function SectionsLines(ss: seq<Section>): seq<string>
    decreases |ss|
  {
    if ss == [] then [] else SectionsLines(ss[..|ss| - 1]) + SectionLines(ss[|ss| - 1])
  }

  const HtmlOpen: string := "<div id=\"generated-resume\">"
  const HtmlClose: string := "</div>"

  /** The lines `sections_to_html` joins. */
  function HtmlLines(ss: seq<Section>): seq<string> {
    [HtmlOpen] + SectionsLines(ss) + [HtmlClose]
  }

  /** The number of lines a block takes. */
  function BlockSize(b: DocBlock): nat {
    if b.PBlock? then 1 else |b.items| + 2
  }

  function BlocksSize(bs: seq<DocBlock>): nat
    decreases |bs|
  {
    if bs == [] then 0 else BlocksSize(bs[..|bs| - 1]) + BlockSize(bs[|bs| - 1])
  }

  function SectionsSize(ss: seq<Section>): nat
    decreases |ss|
  {
    if ss == [] then 0 else SectionsSize(ss[..|ss| - 1]) + 5 + BlocksSize(ss[|ss| - 1].blocks)
  }

  lemma {:induction false} BlocksLineCount(bs: seq<DocBlock>)
    ensures |BlocksLines(bs)| == BlocksSize(bs)
    decreases |bs|
  {
    if bs != [] {
      BlocksLineCount(bs[..|bs| - 1]);
    }
  }

  /**
   * The page has an opening and a closing line, five lines of frame per
   * section, one line per paragraph and two per list plus one per item.
   */
  lemma {:induction false} HtmlLineCount(ss: seq<Section>)
    ensures |HtmlLines(ss)| == 2 + SectionsSize(ss)
    decreases |ss|
  {
    if ss != [] {
      HtmlLineCount(ss[..|ss| - 1]);
      BlocksLineCount(ss[|ss| - 1].blocks);
    }
  }

  /**
   * `sections_to_html`: the lines appended in nested loops, joined by
   * newlines.
   */
  method SectionsToHtml(ss: seq<Section>) returns (html: string)
    ensures html == JsText.Join(HtmlLines(ss), "\n")
  {
    var out := [HtmlOpen];
    for i := 0 to |ss|
      invariant out == [HtmlOpen] + SectionsLines(ss[..i])
    {
      var lines := EmitSection(ss[i]);
      MoreSectionLines([HtmlOpen], ss, i, lines);
      out := out + lines;
    }
    assert ss[..|ss|] == ss;
    out := out + [HtmlClose];
    html := JsText.Join(out, "\n");
  }

  lemma MoreSectionLines(head: seq<string>, ss: seq<Section>, i: nat, lines: seq<string>)
    requires i < |ss| && lines == SectionLines(ss[i])
    ensures head + SectionsLines(ss[..i]) + lines == head + SectionsLines(ss[..i + 1])
  {
    assert ss[..i + 1][..i] == ss[..i];
  }

  /** The lines of one section: its head, the lines of each block in turn, its tail. */
  method EmitSection(sec: Section) returns (out: seq<string>)
    ensures out == SectionLines(sec)
  {
    out := SectionHead(sec.title);
    ghost var head := out;
    for j := 0 to |sec.blocks|
      invariant out == head + BlocksLines(sec.blocks[..j])
    {
      var lines := EmitBlock(sec.blocks[j]);
      MoreBlockLines(head, sec.blocks, j, lines);
      out := out + lines;
    }
    SectionLinesOf(sec, head);
    out := out + SectionTail;
  }

  lemma MoreBlockLines(head: seq<string>, bs: seq<DocBlock>, j: nat, lines: seq<string>)
    requires j < |bs| && lines == BlockLines(bs[j])
    ensures head + BlocksLines(bs[..j]) + lines == head + BlocksLines(bs[..j + 1])
  {
    BlocksLinesSnoc(bs, j);
  }

  lemma SectionLinesOf(sec: Section, head: seq<string>)
    requires head == SectionHead(sec.title)
    ensures head + BlocksLines(sec.blocks[..|sec.blocks|]) + SectionTail == SectionLines(sec)
  {
    assert sec.blocks[..|sec.blocks|] == sec.blocks;
  }

  /** The lines of one block, the items of a list appended one by one. */
  method EmitBlock(b: DocBlock) returns (lines: seq<string>)
    ensures lines == BlockLines(b)
  {
    if b.PBlock? {
      lines := ["      <p>" + Escape(b.text) + "</p>"];
    } else {
      lines := ["      <ul>"];
      for t := 0 to |b.items|
        invariant lines == ["      <ul>"] + ItemLines(b.items[..t])
      {
        assert b.items[..t + 1][..t] == b.items[..t];
        lines := lines + ["        <li>" + Escape(b.items[t]) + "</li>"];
      }
      assert b.items[..|b.items|] == b.items;
      lines := lines + ["      </ul>"];
    }
  }
}
