/** A client of the converter: three chapter entries among other navigation
    items, the second page timing out once, and the pages completing out of
    order. */
module Scenario {
  import opened Outcomes
  import opened Toc
  import opened Slots
  import opened Crawl
  import opened Gitbook

  const Base: string := "https://book/"
  const A: string := "https://book/a.html"
  const B: string := "https://book/b.html"
  const C: string := "https://book/c.html"

  /** The navigation list: chapters a, b and c among a section header, an
      item without a class attribute and one with an empty class list. */
  const Items: seq<Li> := [
    Li(Some(["chapter"]), Some("a.html")),
    Li(Some(["header"]), None),
    Li(None, Some("ignored.html")),
    Li(Some(["chapter", "active"]), Some("b.html")),
    Li(Some([]), Some("ignored.html")),
    Li(Some(["chapter"]), Some("c.html"))]

  /** A resolution that appends the path to the base. */
  function AppendPath(base: string, path: Option<string>): string
  {
    if path.Some? then base + path.value else base
  }

  /** A server whose page b answers only without a timeout. */
  function Server(url: string, timeout: Option<nat>): Response
  {
    if url == B && timeout.Some? then Raised
    else if url == A then Text("<p>1</p>")
    else if url == B then Text("<p>2</p>")
    else Text("<p>3</p>")
  }

  function WholeBody(body: string): Option<string>
  {
    Some(body)
  }

  lemma ItemsResolve()
    ensures ChapterUrls(Base, Items, AppendPath) == [A, B, C]
  {
    var s := Items;
    assert AppendPath(Base, Some("a.html")) == A;
    assert AppendPath(Base, Some("b.html")) == B;
    assert AppendPath(Base, Some("c.html")) == C;
    assert IsChapter(s[0]) && !IsChapter(s[1]) && !IsChapter(s[2]);
    assert IsChapter(s[3]) && !IsChapter(s[4]) && IsChapter(s[5]);
    assert ChapterUrls(Base, s[..1], AppendPath) == [A];
    assert s[..2][..1] == s[..1];
    assert s[..3][..2] == s[..2];
    assert ChapterUrls(Base, s[..3], AppendPath) == [A];
    assert s[..4][..3] == s[..3];
    assert ChapterUrls(Base, s[..4], AppendPath) == [A, B];
    assert s[..5][..4] == s[..4];
    assert s[..6][..5] == s[..5];
    assert s[..6] == s;
  }

  lemma PagesCrawl()
    ensures Fragments(Server, WholeBody, [A, B, C]) == Some(["<p>1</p>", "<p>2</p>", "<p>3</p>"])
  {
    assert A != B && B != C && A != C;
    assert Retrieve(Server, A).response == Text("<p>1</p>");
    assert Retrieve(Server, B).response == Text("<p>2</p>");
    assert Retrieve(Server, C).response == Text("<p>3</p>");
    assert CrawlPage(Server, WholeBody, A) == Ok("<p>1</p>");
    assert CrawlPage(Server, WholeBody, B) == Ok("<p>2</p>");
    assert CrawlPage(Server, WholeBody, C) == Ok("<p>3</p>");
    var urls := [A, B, C];
    assert forall i :: 0 <= i < 3 ==> CrawlPage(Server, WholeBody, urls[i]).Ok?;
    var fs := Fragments(Server, WholeBody, urls).value;
    assert CrawlPage(Server, WholeBody, urls[0]) == Ok(fs[0]);
    assert CrawlPage(Server, WholeBody, urls[1]) == Ok(fs[1]);
    assert CrawlPage(Server, WholeBody, urls[2]) == Ok(fs[2]);
    assert fs == ["<p>1</p>", "<p>2</p>", "<p>3</p>"];
  }

  lemma ConcatExample()
    ensures Concat(["<p>1</p>", "<p>2</p>", "<p>3</p>"]) == "<p>1</p><p>2</p><p>3</p>"
  {
    var fs := ["<p>1</p>", "<p>2</p>", "<p>3</p>"];
    assert fs[..2][..1] == fs[..1] && fs[..1][..0] == [];
    assert Concat(fs[..1]) == "<p>1</p>";
    assert Concat(fs[..2]) == "<p>1</p><p>2</p>";
  }

  lemma ScheduleExample()
    ensures IsSchedule([2, 0, 1], 3)
  {
    assert Indices(3) == [0, 1, 2];
  }

  /** The end-to-end run: the document is the three fragments in TOC
      order, and the output name comes from the title. */
  method ThreeChapters()
  {
    var book := new Gitbook2PDF(Base, None);
    var order: seq<nat> := [2, 0, 1];
    ScheduleExample();
    ItemsResolve();
    PagesCrawl();
    var document := book.Run(Page(Some("Interview"), Some(Items)), AppendPath, Server, WholeBody, order);
    ConcatExample();
    assert document == Ok("<p>1</p><p>2</p><p>3</p>");
    assert book.fname == Some("Interview");
  }
}
