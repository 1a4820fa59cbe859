/** The converter object: it collects the table of contents, keeps one
    fragment slot per content URL, crawls every page into its slot and joins
    the slots into the document handed to the renderer. */
module Gitbook {
  import opened Outcomes
  import opened Toc
  import opened Slots
  import opened Crawl

  /** One crawl task, as launched for a pair of `enumerate(content_urls)`. */
  datatype Task = Task(index: nat, url: string)

  /** When every task of a schedule succeeded, every page was crawled. */
  lemma EveryScheduledPageCrawled(request: Request, extract: Extract, urls: seq<string>, order: seq<nat>)
    requires IsSchedule(order, |urls|)
    requires forall j :: 0 <= j < |order| ==> CrawlPage(request, extract, urls[order[j]]).Ok?
    ensures Fragments(request, extract, urls).Some?
  {
    ScheduleCovers(order, |urls|);
    forall i | 0 <= i < |urls| ensures CrawlPage(request, extract, urls[i]).Ok? {
      assert i in order;
      var j :| 0 <= j < |order| && order[j] == i;
    }
  }

  class Gitbook2PDF {
    /** The output file name; absent until given or derived from the title. */
    var fname: Option<string>
    const baseUrl: string
    /** The fragment slots, one per content URL. */
    var contentList: array<Option<string>>

    constructor (baseUrl: string, fname: Option<string>)
      ensures this.baseUrl == baseUrl && this.fname == fname
      ensures fresh(contentList) && contentList.Length == 0
    {
      this.baseUrl := baseUrl;
      this.fname := fname;
      contentList := new Option<string>[0];
    }

    /** Derives the output name from the title when none was given, then
        collects one resolved URL per chapter item, in order. */
    method CollectToc(startUrl: string, page: Page, urljoin: UrlJoin) returns (r: Result<seq<string>>)
      modifies this`fname
      ensures fname == if Falsy(old(fname)) && page.title.Some? then page.title else old(fname)
      ensures r == if Falsy(old(fname)) && page.title.None? then Err(TitleMissing)
                   else if page.summary.None? then Err(SummaryMissing)
                   else Ok(ChapterUrls(startUrl, page.summary.value, urljoin))
    {
      if Falsy(fname) {
        if page.title.None? {
          return Err(TitleMissing);
        }
        fname := page.title;
      }
      if page.summary.None? {
        return Err(SummaryMissing);
      }
      var lis := page.summary.value;
      var contentUrls: seq<string> := [];
      for i := 0 to |lis|
        invariant contentUrls == ChapterUrls(startUrl, lis[..i], urljoin)
      {
        assert lis[..i + 1][..i] == lis[..i];
        var li := lis[i];
        if li.classes.None? || li.classes.value == [] {
          continue;
        }
        if ChapterToken in li.classes.value {
          contentUrls := contentUrls + [urljoin(startUrl, li.dataPath)];
        }
      }
      assert lis[..|lis|] == lis;
      return Ok(contentUrls);
    }

    /** Replaces the slot list by `n` empty slots. */
    method InitSlots(n: nat)
      modifies this`contentList
      ensures fresh(contentList)
      ensures contentList[..] == Empty(n)
    {
      contentList := new Option<string>[n](_ => None);
    }

    /** Stores a fragment in slot `index` and touches no other slot. */
    method WriteSlot(index: nat, text: string)
      requires index < contentList.Length
      modifies contentList
      ensures contentList[..] == old(contentList[..])[index := Some(text)]
    {
      contentList[index] := Some(text);
    }

    /** Fetches `url` (retrying once without a timeout when the first
        attempt raises), extracts its fragment and stores it in slot
        `index`; on an error nothing is stored. */
    method GetText(index: nat, url: string, request: Request, extract: Extract)
      returns (r: Result<string>, ghost attempts: seq<Option<nat>>)
      requires index < contentList.Length
      modifies contentList
      ensures attempts == Retrieve(request, url).timeouts
      ensures r == CrawlPage(request, extract, url)
      ensures contentList[..] == if r.Ok? then old(contentList[..])[index := Some(r.value)] else old(contentList[..])
    {
      var metatext: string;
      var first := request(url, Some(FirstTimeout));
      attempts := [Some(FirstTimeout)];
      if first.Text? {
        metatext := first.body;
      } else {
        var second := request(url, None);
        attempts := attempts + [None];
        if second.Raised? {
          r := Err(FetchFailed(url));
          return;
        }
        metatext := second.body;
      }
      var text := extract(metatext);
      if text.None? {
        r := Err(ExtractionFailed(url));
        return;
      }
      WriteSlot(index, text.value);
      r := Ok(text.value);
    }

    /** Builds one task per URL, paired with its position. */
    method LaunchTasks(urls: seq<string>) returns (tasks: seq<Task>)
      ensures |tasks| == |urls|
      ensures forall i :: 0 <= i < |urls| ==> tasks[i] == Task(i, urls[i])
    {
      tasks := [];
      for i := 0 to |urls|
        invariant |tasks| == i
        invariant forall j :: 0 <= j < i ==> tasks[j] == Task(j, urls[j])
      {
        tasks := tasks + [Task(i, urls[i])];
      }
    }

    /** Runs every task to completion in the order `order` the event loop
        picks; the run fails when some task raises. */
    method CrawlMainContent(urls: seq<string>, order: seq<nat>, request: Request, extract: Extract)
      returns (r: Result<()>)
      requires contentList.Length == |urls|
      requires IsSchedule(order, |urls|)
      modifies contentList
      ensures r.Ok? <==> Fragments(request, extract, urls).Some?
      ensures r.Ok? ==> contentList[..] == ApplyWrites(old(contentList[..]), order, Fragments(request, extract, urls).value)
      ensures r.Err? ==> exists i :: 0 <= i < |urls| && CrawlPage(request, extract, urls[i]) == Err(r.error)
    {
      var tasks := LaunchTasks(urls);
      ghost var fs := Fragments(request, extract, urls);
      ghost var before := contentList[..];
      ScheduleCovers(order, |urls|);
      var k := 0;
      while k < |order|
        invariant 0 <= k <= |order|
        invariant forall j :: 0 <= j < k ==> CrawlPage(request, extract, urls[order[j]]).Ok?
        invariant fs.Some? ==> contentList[..] == ApplyWrites(before, order[..k], fs.value)
      {
        var task := tasks[order[k]];
        var done;
        ghost var attempts;
        done, attempts := GetText(task.index, task.url, request, extract);
        if done.Err? {
          assert CrawlPage(request, extract, urls[order[k]]) == Err(done.error);
          return Err(done.error);
        }
        if fs.Some? {
          ApplyWritesStep(before, order, fs.value, k);
        }
        k := k + 1;
      }
      EveryScheduledPageCrawled(request, extract, urls, order);
      assert order[..|order|] == order;
      r := Ok(());
    }

    /** The whole run up to the hand-off to the renderer: collect the URLs,
        set up the slots, crawl, and join the slots into the document. */
    method Run(page: Page, urljoin: UrlJoin, request: Request, extract: Extract, order: seq<nat>)
      returns (r: Result<string>)
      requires page.summary.Some? ==> IsSchedule(order, |ChapterUrls(baseUrl, page.summary.value, urljoin)|)
      modifies this
      ensures fname == if Falsy(old(fname)) && page.title.Some? then page.title else old(fname)
      ensures Falsy(old(fname)) && page.title.None? ==> r == Err(TitleMissing)
      ensures !(Falsy(old(fname)) && page.title.None?) && page.summary.None? ==> r == Err(SummaryMissing)
      ensures r.Ok? <==>
        && !(Falsy(old(fname)) && page.title.None?)
        && page.summary.Some?
        && Fragments(request, extract, ChapterUrls(baseUrl, page.summary.value, urljoin)).Some?
      ensures r.Ok? ==>
        r.value == Concat(Fragments(request, extract, ChapterUrls(baseUrl, page.summary.value, urljoin)).value)
      ensures r.Err? && !(Falsy(old(fname)) && page.title.None?) && page.summary.Some? ==>
        exists i :: 0 <= i < |ChapterUrls(baseUrl, page.summary.value, urljoin)| &&
          CrawlPage(request, extract, ChapterUrls(baseUrl, page.summary.value, urljoin)[i]) == Err(r.error)
    {
      var contentUrls := CollectToc(baseUrl, page, urljoin);
      if contentUrls.Err? {
        return Err(contentUrls.error);
      }
      InitSlots(|contentUrls.value|);
      var crawled := CrawlMainContent(contentUrls.value, order, request, extract);
      if crawled.Err? {
        return Err(crawled.error);
      }
      WritesInAnyOrder(Empty(|contentUrls.value|), order, Fragments(request, extract, contentUrls.value).value);
      var allHtml := Join(contentList[..]);
      r := Ok(allHtml.value);
    }
  }
}
