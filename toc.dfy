/** The table-of-contents collector: which navigation items are chapters,
    the URLs they resolve to, and in which order. */
module Toc {
  import opened Outcomes

  /** One `<li>` of the navigation list as the HTML parser hands it over:
      its class attribute split into tokens (absent when the attribute is
      missing) and its `data-path` attribute (absent when missing). */
  datatype Li = Li(classes: Option<seq<string>>, dataPath: Option<string>)

  /** The parsed landing page: the text of its `<title>` and the `<li>`
      items under `<ul class="summary">`, each absent when the element is. */
  datatype Page = Page(title: Option<string>, summary: Option<seq<Li>>)

  /** `urllib.parse.urljoin`, left uninterpreted. */
  type UrlJoin = (string, Option<string>) -> string

  /** The class token that marks a chapter entry. */
  const ChapterToken: string := "chapter"

  /** Python truthiness of the optional output name: `None` and `""` are falsy. */
  predicate Falsy(name: Option<string>): (b: bool)
    ensures b <==> name.None? || |name.value| == 0
  {
    name == None || name == Some("")
  }

  /** The collector keeps an item only when its class list is present,
      non-empty and holds the chapter token; the non-emptiness test is then
      implied by the token test. */
  predicate IsChapter(li: Li): (b: bool)
    ensures b <==> li.classes.Some? && ChapterToken in li.classes.value
  {
    match li.classes
    case None => false
    case Some(tokens) => |tokens| > 0 && ChapterToken in tokens
  }

  /** The URL list the collector builds from the items `lis`: one resolved
      URL per chapter item, in the order of the items. */
  function ChapterUrls(start: string, lis: seq<Li>, urljoin: UrlJoin): (urls: seq<string>)
    ensures |urls| <= |lis|
  {
    if lis == [] then []
    else
      var rest := ChapterUrls(start, lis[..|lis| - 1], urljoin);
      var li := lis[|lis| - 1];
      if IsChapter(li) then rest + [urljoin(start, li.dataPath)] else rest
  }

  /** The positions of the chapter items of `lis`: strictly increasing, each
      one a chapter, and every chapter among them. */
  function ChapterIndices(lis: seq<Li>): (ix: seq<nat>)
    ensures forall j :: 0 <= j < |ix| ==> ix[j] < |lis| && IsChapter(lis[ix[j]])
    ensures forall j, k :: 0 <= j < k < |ix| ==> ix[j] < ix[k]
    ensures forall i :: 0 <= i < |lis| && IsChapter(lis[i]) ==> i in ix
  {
    if lis == [] then []
    else
      var rest := ChapterIndices(lis[..|lis| - 1]);
      if IsChapter(lis[|lis| - 1]) then rest + [|lis| - 1] else rest
  }

  /** The j-th URL is the resolution of the j-th chapter item, and there is
      exactly one URL per chapter item. */
  lemma {:induction false} ChapterUrlsFollowIndices(start: string, lis: seq<Li>, urljoin: UrlJoin)
    ensures |ChapterUrls(start, lis, urljoin)| == |ChapterIndices(lis)|
    ensures forall j :: 0 <= j < |ChapterIndices(lis)| ==>
      ChapterUrls(start, lis, urljoin)[j] == urljoin(start, lis[ChapterIndices(lis)[j]].dataPath)
  {
    if lis != [] {
      var init := lis[..|lis| - 1];
      ChapterUrlsFollowIndices(start, init, urljoin);
      assert forall k :: 0 <= k < |init| ==> init[k] == lis[k];
    }
  }

  /** Collecting from two runs of items one after the other gives the two
      URL lists one after the other: the filter keeps relative order. */
  lemma {:induction false} ChapterUrlsAppend(start: string, a: seq<Li>, b: seq<Li>, urljoin: UrlJoin)
    ensures ChapterUrls(start, a + b, urljoin) == ChapterUrls(start, a, urljoin) + ChapterUrls(start, b, urljoin)
  {
    if b == [] {
      assert a + b == a;
    } else {
      var init := b[..|b| - 1];
      ChapterUrlsAppend(start, a, init, urljoin);
      assert (a + b)[..|a + b| - 1] == a + init;
      assert (a + b)[|a + b| - 1] == b[|b| - 1];
    }
  }

  /** An item with no class attribute, an empty one, or one without the
      chapter token contributes nothing. */
  lemma NonChapterSkipped(start: string, a: seq<Li>, li: Li, b: seq<Li>, urljoin: UrlJoin)
    requires li.classes == None || li.classes == Some([]) || ChapterToken !in li.classes.value
    ensures ChapterUrls(start, a + [li] + b, urljoin) == ChapterUrls(start, a + b, urljoin)
  {
    ChapterUrlsAppend(start, a + [li], b, urljoin);
    ChapterUrlsAppend(start, a, [li], urljoin);
    ChapterUrlsAppend(start, a, b, urljoin);
    assert [li][..0] == [];
  }

  /** A chapter item contributes exactly its resolved URL, in its place. */
  lemma ChapterContributes(start: string, a: seq<Li>, li: Li, b: seq<Li>, urljoin: UrlJoin)
    requires li.classes.Some? && ChapterToken in li.classes.value
    ensures ChapterUrls(start, a + [li] + b, urljoin)
         == ChapterUrls(start, a, urljoin) + [urljoin(start, li.dataPath)] + ChapterUrls(start, b, urljoin)
  {
    ChapterUrlsAppend(start, a + [li], b, urljoin);
    ChapterUrlsAppend(start, a, [li], urljoin);
    assert [li][..0] == [];
  }
}
