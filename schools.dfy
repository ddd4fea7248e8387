/**
 * The education layout of `formatEducationSchools` (script.js): every list
 * of the container opens a school whose first item is the header line
 * ("School ..... Place"), and the paragraphs after the list, up to the next
 * list, are that school's details.  GPA figures in the details are bolded.
 */
module Schools {
  import opened Opt
  import opened JsText
  import opened Tree
  import opened SchoolText
  import Patterns

  /** The trimmed text of a list's first item, or nothing for an empty list. */
  function HeaderText(items: seq<string>): (r: string)
    ensures IsTrimmed(r)
    ensures items != [] ==> NonSpace(r) == NonSpace(items[0])
  {
    if items == [] then []
    else
      Patterns.TrimNonSpace(items[0]);
      Trim(items[0])
  }

  /** The details of a school: the paragraphs at the front of `bs`, each with its GPA bolded. */
  function Details(bs: seq<Block>): seq<Node>
    decreases |bs|
  {
    if bs == [] || bs[0].UL? then []
    else [Para(BoldGpa(bs[0].text))] + Details(bs[1..])
  }

  /** The number of paragraphs at the front of `bs`. */
  function LeadingParas(bs: seq<Block>): (n: nat)
    ensures n <= |bs|
    ensures forall t :: 0 <= t < n ==> bs[t].P?
    ensures n < |bs| ==> bs[n].UL?
    decreases |bs|
  {
    if bs == [] || bs[0].UL? then 0 else 1 + LeadingParas(bs[1..])
  }

  /** The article of one school: a bold name, no meta line, the trailing header text, then the details. */
  function SchoolArticle(items: seq<string>, rest: seq<Block>): Article {
    var header := ParseSchoolHeader(HeaderText(items));
    var lead := if header.trailing != [] then [Para(BoldGpa(header.trailing))] else [];
    Article(header.name, true, None, lead + Details(rest))
  }

  /** One article per list of the container; paragraphs before the first list belong to no school. */
  function SchoolArticles(bs: seq<Block>): seq<Article>
    decreases |bs|
  {
    if bs == [] then []
    else if bs[0].UL? then [SchoolArticle(bs[0].items, bs[1..])] + SchoolArticles(bs[1..])
    else SchoolArticles(bs[1..])
  }

  /** The lists of the container, in order. */
  function Lists(bs: seq<Block>): seq<seq<string>>
    decreases |bs|
  {
    if bs == [] then []
    else if bs[0].UL? then [bs[0].items] + Lists(bs[1..])
    else Lists(bs[1..])
  }

  /** The paragraphs that open `bs` add no school. */
  lemma {:induction false} SkipParas(bs: seq<Block>, k: nat)
    requires k <= |bs|
    requires forall t :: 0 <= t < k ==> bs[t].P?
    ensures SchoolArticles(bs[k..]) == SchoolArticles(bs)
    decreases k
  {
    if k > 0 {
      assert bs[1..][k - 1..] == bs[k..];
      SkipParas(bs[1..], k - 1);
    }
  }

  /**
   * There is one school per list, named after that list's header line, with
   * a bold title and no meta line.
   */
  lemma SchoolPerList(bs: seq<Block>)
    ensures |SchoolArticles(bs)| == |Lists(bs)|
    ensures forall k :: 0 <= k < |Lists(bs)| ==>
              SchoolArticles(bs)[k].title == ParseSchoolHeader(HeaderText(Lists(bs)[k])).name
    ensures forall k :: 0 <= k < |SchoolArticles(bs)| ==>
              SchoolArticles(bs)[k].strongTitle && SchoolArticles(bs)[k].meta.None?
  {
    SchoolCount(bs);
    forall k | 0 <= k < |Lists(bs)|
      ensures SchoolArticles(bs)[k].title == ParseSchoolHeader(HeaderText(Lists(bs)[k])).name
    {
      SchoolTitleAt(bs, k);
    }
    forall k | 0 <= k < |SchoolArticles(bs)|
      ensures SchoolArticles(bs)[k].strongTitle && SchoolArticles(bs)[k].meta.None?
    {
      SchoolStrongAt(bs, k);
    }
  }

  lemma {:induction false} SchoolCount(bs: seq<Block>)
    ensures |SchoolArticles(bs)| == |Lists(bs)|
    decreases |bs|
  {
    if bs != [] {
      SchoolCount(bs[1..]);
    }
  }

  lemma {:induction false} SchoolTitleAt(bs: seq<Block>, k: nat)
    requires k < |Lists(bs)| && |SchoolArticles(bs)| == |Lists(bs)|
    ensures SchoolArticles(bs)[k].title == ParseSchoolHeader(HeaderText(Lists(bs)[k])).name
    decreases |bs|
  {
    SchoolCount(bs[1..]);
    if !bs[0].UL? {
      SchoolTitleAt(bs[1..], k);
    } else if k > 0 {
      SchoolTitleAt(bs[1..], k - 1);
    }
  }

  lemma {:induction false} SchoolStrongAt(bs: seq<Block>, k: nat)
    requires k < |SchoolArticles(bs)|
    ensures SchoolArticles(bs)[k].strongTitle && SchoolArticles(bs)[k].meta.None?
    decreases |bs|
  {
    if !bs[0].UL? {
      SchoolStrongAt(bs[1..], k);
    } else if k > 0 {
      SchoolStrongAt(bs[1..], k - 1);
    }
  }

  /** The text of every paragraph, read back with the bold tags deleted. */
  function ParaTexts(nodes: seq<Node>): seq<string>
    decreases |nodes|
  {
    if nodes == [] then []
    else (if nodes[0].Para? then [Flatten(nodes[0].content)] else []) + ParaTexts(nodes[1..])
  }

  /** The texts of the paragraphs at the front of `bs`. */
  function LeadingTexts(bs: seq<Block>): seq<string>
    decreases |bs|
  {
    if bs == [] || bs[0].UL? then [] else [bs[0].text] + LeadingTexts(bs[1..])
  }

  /** Bolding the GPA changes no wording: the details read back as the paragraphs they came from. */
  lemma {:induction false} DetailsKeepWording(bs: seq<Block>)
    ensures ParaTexts(Details(bs)) == LeadingTexts(bs)
    ensures |Details(bs)| == LeadingParas(bs)
    decreases |bs|
  {
    if bs != [] && bs[0].P? {
      DetailsKeepWording(bs[1..]);
      var d := [Para(BoldGpa(bs[0].text))] + Details(bs[1..]);
      assert d[0] == Para(BoldGpa(bs[0].text)) && d[1..] == Details(bs[1..]);
    }
  }

  /**
   * The body of a school reads back as its trailing header text, when there
   * is one, followed by the paragraphs after its list.
   */
  lemma SchoolBodyWording(items: seq<string>, rest: seq<Block>)
    ensures var header := ParseSchoolHeader(HeaderText(items));
            ParaTexts(SchoolArticle(items, rest).body) ==
              (if header.trailing != [] then [header.trailing] else []) + LeadingTexts(rest)
  {
    var header := ParseSchoolHeader(HeaderText(items));
    LeadWording(header.trailing, rest);
  }

  lemma LeadWording(trailing: string, rest: seq<Block>)
    ensures ParaTexts((if trailing != [] then [Para(BoldGpa(trailing))] else []) + Details(rest)) ==
              (if trailing != [] then [trailing] else []) + LeadingTexts(rest)
  {
    DetailsKeepWording(rest);
    if trailing != [] {
      var body := [Para(BoldGpa(trailing))] + Details(rest);
      assert body[0] == Para(BoldGpa(trailing)) && body[1..] == Details(rest);
    } else {
      assert [] + Details(rest) == Details(rest);
    }
  }

  /** A list, its paragraphs up to index `j`, and the rest of the children. */
  lemma SchoolStep(nodes: seq<Block>, i: nat, j: nat)
    requires i < j <= |nodes| && nodes[i].UL?
    requires forall t :: i + 1 <= t < j ==> nodes[t].P?
    ensures SchoolArticles(nodes[i..]) == [SchoolArticle(nodes[i].items, nodes[i + 1..])] + SchoolArticles(nodes[j..])
  {
    assert nodes[i..][1..] == nodes[i + 1..];
    SkipParas(nodes[i + 1..], j - (i + 1));
    assert nodes[i + 1..][j - (i + 1)..] == nodes[j..];
  }

  lemma PushArticle(done: seq<Article>, art: Article, rest: seq<Article>, all: seq<Article>)
    requires done + ([art] + rest) == all
    ensures (done + [art]) + rest == all
  {
  }

  lemma SkipPara(nodes: seq<Block>, i: nat)
    requires i < |nodes| && nodes[i].P?
    ensures SchoolArticles(nodes[i..]) == SchoolArticles(nodes[i + 1..])
  {
    assert nodes[i..][1..] == nodes[i + 1..];
  }

  lemma DetailsStep(nodes: seq<Block>, j: nat)
    requires j < |nodes| && nodes[j].P?
    ensures Details(nodes[j..]) == [Para(BoldGpa(nodes[j].text))] + Details(nodes[j + 1..])
  {
    assert nodes[j..][1..] == nodes[j + 1..];
  }

  lemma DetailsEnd(nodes: seq<Block>, j: nat)
    requires j <= |nodes| && (j == |nodes| || nodes[j].UL?)
    ensures Details(nodes[j..]) == []
  {
  }

  lemma PushNode(done: seq<Node>, n: Node, rest: seq<Node>, all: seq<Node>)
    requires done + ([n] + rest) == all
    ensures (done + [n]) + rest == all
  {
  }

  /** One school: the list at `i` and the paragraphs after it, up to the next list at `j`. */
  method SchoolAt(nodes: seq<Block>, i: nat) returns (art: Article, j: nat)
    requires i < |nodes| && nodes[i].UL?
    ensures i < j <= |nodes|
    ensures forall t :: i + 1 <= t < j ==> nodes[t].P?
    ensures art == SchoolArticle(nodes[i].items, nodes[i + 1..])
  {
    var header := ParseSchoolHeader(HeaderText(nodes[i].items));
    var lead: seq<Node> := if header.trailing != [] then [Para(BoldGpa(header.trailing))] else [];
    var body;
    body, j := TakeDetails(nodes, i + 1, lead);
    art := Article(header.name, true, None, body);
  }

  /** The inner loop: the paragraphs from `from` up to the next list, appended to `lead` with their GPA bolded. */
  method TakeDetails(nodes: seq<Block>, from: nat, lead: seq<Node>) returns (body: seq<Node>, j: nat)
    requires from <= |nodes|
    ensures from <= j <= |nodes| && (j == |nodes| || nodes[j].UL?)
    ensures forall t :: from <= t < j ==> nodes[t].P?
    ensures body == lead + Details(nodes[from..])
  {
    body := lead;
    j := from;
    while j < |nodes| && nodes[j].P?
      invariant from <= j <= |nodes|
      invariant forall t :: from <= t < j ==> nodes[t].P?
      invariant body + Details(nodes[j..]) == lead + Details(nodes[from..])
      decreases |nodes| - j
    {
      DetailsStep(nodes, j);
      PushNode(body, Para(BoldGpa(nodes[j].text)), Details(nodes[j + 1..]), lead + Details(nodes[from..]));
      body := body + [Para(BoldGpa(nodes[j].text))];
      j := j + 1;
    }
    DetailsEnd(nodes, j);
  }

  /**
   * The loop over the container's children: a list opens a school and the
   * inner loop takes its paragraphs up to the next list; any other child is
   * skipped.
   */
  method FormatSchools(nodes: seq<Block>) returns (articles: seq<Article>)
    ensures articles == SchoolArticles(nodes)
  {
    articles := [];
    var i := 0;
    while i < |nodes|
      invariant 0 <= i <= |nodes|
      invariant articles + SchoolArticles(nodes[i..]) == SchoolArticles(nodes)
      decreases |nodes| - i
    {
      if nodes[i].UL? {
        var art, j := SchoolAt(nodes, i);
        SchoolStep(nodes, i, j);
        PushArticle(articles, art, SchoolArticles(nodes[j..]), SchoolArticles(nodes));
        articles := articles + [art];
        i := j;
      } else {
        SkipPara(nodes, i);
        i := i + 1;
      }
    }
  }
}
