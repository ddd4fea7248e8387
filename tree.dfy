/**
 * The children of a résumé section's details container as script.js meets
 * them, and the structure it builds in their place, kept as an abstract
 * tree instead of DOM nodes: one article per entry, a header (title,
 * optionally in bold, and an optional meta caption) and a body of
 * paragraphs and bullet lists.
 */
module Tree {
  import opened Opt

  /** A child of the container: a `<p>` with its `textContent`, or a `<ul>` with the `textContent` of each `<li>`. */
  datatype Block = P(text: string) | UL(items: seq<string>)

  /** A run of paragraph text, plain or wrapped in `<strong>`. */
  datatype Inline = Plain(text: string) | Strong(text: string)

  /** The text of a paragraph with its `<strong>` tags deleted. */
  function Flatten(xs: seq<Inline>): string {
    if xs == [] then [] else xs[0].text + Flatten(xs[1..])
  }

  lemma {:induction false} FlattenAppend(a: seq<Inline>, b: seq<Inline>)
    ensures Flatten(a + b) == Flatten(a) + Flatten(b)
  {
    if a == [] {
      assert a + b == b;
    } else {
      assert (a + b)[1..] == a[1..] + b;
      FlattenAppend(a[1..], b);
    }
  }

  /** A body element: a `<p>` of inline runs or a `<ul>` of `<li>` texts. */
  datatype Node = Para(content: seq<Inline>) | Bullets(items: seq<string>)

  /**
   * An `article.entry`: the `h3.entry__title` text (inside `<strong>` when
   * `strongTitle`), the `span.entry__meta` caption when one is appended,
   * and the children of `div.entry__body`.
   */
  datatype Article = Article(title: string, strongTitle: bool, meta: Option<string>, body: seq<Node>)

  /** A paragraph holding one plain text run. */
  function TextPara(s: string): Node {
    Para([Plain(s)])
  }
}
