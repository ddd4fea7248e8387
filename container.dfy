/**
 * The section container of the resume page and the three layouts that
 * rewrite it (script.js): `buildEntries`, which dispatches on the section
 * name, `formatEducationSchools` and `buildEducationByColon`.  A container
 * holds either the paragraphs and lists of the converted document, or the
 * articles a layout put in their place.
 */
module Resume {
  import opened Opt
  import opened JsText
  import opened Tree
  import opened Entries
  import opened Colon
  import opened Schools

  /** What a container holds: the converted children, or rendered articles. */
  datatype Content = Raw(blocks: seq<Block>) | Rendered(articles: seq<Article>)

  /**
   * The paragraphs and lists a layout sees among the children.  Rendered
   * articles are neither, so every layout skips them.
   */
  function Children(c: Content): seq<Block> {
    if c.Raw? then c.blocks else []
  }

  /** `formatEducationSchools`: the schools replace the children when there is at least one. */
  function AfterSchools(c: Content): (r: Content)
    ensures r == c || r.Rendered?
  {
    var arts := SchoolArticles(Children(c));
    if arts != [] then Rendered(arts) else c
  }

  /** `buildEntries`: the education layout, or the entries rendered in place of the children when there are any. */
  function AfterBuildEntries(c: Content, sectionName: string): (r: Content)
    ensures r == c || r.Rendered?
  {
    if Contains(sectionName, "education") then AfterSchools(c)
    else
      var es := if IsIndustrySection(sectionName) then IndustryEntries(Children(c)) else GenericEntries(Children(c));
      if es != [] then Rendered(RenderEntries(es, sectionName)) else c
  }

  /** `buildEducationByColon`: the colon entries replace the children when there is at least one. */
  function AfterColon(c: Content): (r: Content)
    ensures r == c || r.Rendered?
  {
    var es := ColonEntries(Segments(Children(c)));
    if es != [] then Rendered(seq(|es|, i requires 0 <= i < |es| => ColonArticle(es[i]))) else c
  }

  /** Running `buildEntries` on a container it already laid out changes nothing. */
  lemma BuildEntriesIdempotent(c: Content, sectionName: string)
    ensures AfterBuildEntries(AfterBuildEntries(c, sectionName), sectionName) == AfterBuildEntries(c, sectionName)
  {
    var r := AfterBuildEntries(c, sectionName);
    if r.Rendered? {
      assert Children(r) == [];
      assert SchoolArticles([]) == [];
      assert GenericRun(None, []) == None;
      assert IndustryRun(Acc([], None), []) == Acc([], None);
    }
  }

  /** Running `buildEducationByColon` on a container it already laid out changes nothing. */
  lemma ColonIdempotent(c: Content)
    ensures AfterColon(AfterColon(c)) == AfterColon(c)
  {
    var r := AfterColon(c);
    if r.Rendered? {
      assert Children(r) == [];
      assert Segments([]) == [];
      assert ColonRun(ColonAcc([], None), []) == ColonAcc([], None);
    }
  }

  /**
   * `buildEducationByColon` rewrites the container exactly when some item
   * or paragraph has a title candidate before its first colon.
   */
  lemma ColonRewritesIffHeading(c: Content)
    ensures AfterColon(c) != c <==> HeadingCount(Segments(Children(c))) > 0
  {
    var segs := Segments(Children(c));
    ColonEntriesCount(segs);
    if c.Rendered? {
      assert Segments([]) == [];
      assert ColonRun(ColonAcc([], None), []) == ColonAcc([], None);
    }
  }

  /**
   * In the industry layout every article but the last has a body ending
   * with a list, and there are no more articles than list items that name
   * an organisation.
   */
  lemma IndustryLayoutShape(c: Content, sectionName: string)
    requires !Contains(sectionName, "education") && IsIndustrySection(sectionName)
    requires AfterBuildEntries(c, sectionName) != c
    ensures var arts := AfterBuildEntries(c, sectionName).articles;
            |arts| <= HeadingItems(Children(c)) &&
            forall k :: 0 <= k < |arts| - 1 ==> arts[k].body != [] && arts[k].body[|arts[k].body| - 1].Bullets?
  {
    var acc := IndustryRun(Acc([], None), Children(c));
    var es := IndustryEntries(Children(c));
    IndustryFacts(Children(c));
    var arts := RenderEntries(es, sectionName);
    assert AfterBuildEntries(c, sectionName) == Rendered(arts);
    forall k | 0 <= k < |arts| - 1
      ensures arts[k].body != [] && arts[k].body[|arts[k].body| - 1].Bullets?
    {
      assert es[k] == acc.done[k];
      var e := es[k];
      assert EndsWithList(e);
      assert arts[k] == RenderEntry(e, sectionName);
    }
  }

  /** The rendering loop of `buildEducationByColon`: one article per entry, its details grouped by the inner loop. */
  method RenderColonEntries(es: seq<ColonEntry>) returns (arts: seq<Article>)
    ensures arts == seq(|es|, i requires 0 <= i < |es| => ColonArticle(es[i]))
  {
    arts := [];
    for k := 0 to |es|
      invariant arts == seq(k, i requires 0 <= i < k => ColonArticle(es[i]))
    {
      var e := es[k];
      var body := RenderDetails(e.body);
      arts := arts + [Article(e.title, true, if e.meta != [] then Some(e.meta) else None, body)];
    }
  }

  /** The rendering loop of `buildEntries`: one article per entry. */
  method RenderEntryList(es: seq<Entry>, sectionName: string) returns (arts: seq<Article>)
    ensures arts == RenderEntries(es, sectionName)
  {
    arts := [];
    for k := 0 to |es|
      invariant arts == RenderEntries(es[..k], sectionName)
    {
      assert es[..k + 1][..k] == es[..k];
      arts := arts + [RenderEntry(es[k], sectionName)];
    }
    assert es[..|es|] == es;
  }

  class Container {
    var content: Content

    constructor(blocks: seq<Block>)
      ensures content == Raw(blocks)
    {
      content := Raw(blocks);
    }

    method FormatEducationSchools()
      modifies this
      ensures content == AfterSchools(old(content))
    {
      var articles := FormatSchools(Children(content));
      if articles != [] {
        content := Rendered(articles);
      }
    }

    method BuildEntries(sectionName: string)
      modifies this
      ensures content == AfterBuildEntries(old(content), sectionName)
    {
      if Contains(sectionName, "education") {
        FormatEducationSchools();
        return;
      }
      var entries := CollectEntries(Children(content), IsIndustrySection(sectionName));
      if entries != [] {
        var arts := RenderEntryList(entries, sectionName);
        content := Rendered(arts);
      }
    }

    method BuildEducationByColon() returns (ok: bool)
      modifies this
      ensures ok <==> ColonEntries(Segments(Children(old(content)))) != []
      ensures content == AfterColon(old(content))
    {
      var segs := CollectSegments(Children(content));
      var entries := CollectColonEntries(segs);
      if entries == [] {
        return false;
      }
      var arts := RenderColonEntries(entries);
      content := Rendered(arts);
      ok := true;
    }
  }
}
