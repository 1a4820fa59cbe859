# gitbook2pdf: ordered crawl-and-assemble, modelled in Dafny

`gitbook2pdf` turns a GitBook-style site into one PDF. The class `Gitbook2PDF` works in four steps. It reads the navigation list of the landing page to get the ordered chapter URLs, deriving the output name from the page title when none was given. It makes one slot per URL. It crawls every page concurrently, and each page's task writes only its own slot. Finally it joins the slots in index order into one HTML string for the PDF renderer.

This project models that bookkeeping:

- `outcomes.dfy` (module `Outcomes`): `Option`, the run's errors and `Result`.
- `toc.dfy` (module `Toc`): the chapter filter of `collect_toc`, as the specification function `ChapterUrls`. It also holds an independent description by positions (`ChapterIndices`) and lemmas on order, on skipped items and on each chapter's contribution.
- `slots.dfy` (module `Slots`): the slot list and `"".join`. `Join` is defined only when no slot is `None`. A schedule is a completion order of the tasks: each index exactly once. `ApplyWrites` gives the slots after the writes of a schedule. `WritesInAnyOrder` proves that every schedule ends with the same joined document: the fragments in index order.
- `crawl.dfy` (module `Crawl`): the try/except retry of `gettext`. `Retrieve` records the timeouts of the attempts made. `CrawlPage` is one page's fragment or error. `Fragments` is the fragments of a whole URL list.
- `gitbook.dfy` (module `Gitbook`): the class `Gitbook2PDF`. Its fields are `fname`, `baseUrl` and the slot array `contentList: array<Option<string>>`. Its methods follow the source: `CollectToc` is a loop that appends and sets `fname`. `InitSlots` and `WriteSlot` allocate and write the slots. `GetText` runs the retry and then the write. `LaunchTasks` and `CrawlMainContent` launch the tasks and run them in a given completion order. `Run` chains all of these and returns the joined HTML.
- `scenario.dfy` (module `Scenario`): a client method. Six navigation items contain three chapters. Page b times out on its first attempt. The pages complete in the order c, a, b. The proved result is exactly `<p>1</p><p>2</p><p>3</p>`, and the output name comes from the title.

Things outside the program are parameters:

- the network request is `request: (url, timeout) -> Response`;
- `urljoin` is `urljoin: (base, path) -> url`;
- the parsed landing page is a `Page` value;
- the lxml extraction is `extract: body -> Option<fragment>`;
- the event loop's completion order is `order: seq<nat>`.

Three points of the code's behaviour that the model keeps:

- The code retries after *any* exception of the first request (`except Exception`, gitbook.py:53), not only after a timeout. `Response` has a single `Raised` case for this reason.
- The title is looked up only when no output name was given (gitbook.py:81-83). A missing title is therefore an error only in that case.
- `fname` is assigned before the navigation list is looked up. A page without `<ul class="summary">` therefore ends the run with `fname` already set.

## Model

| member | source | states |
|---|---|---|
| `Toc.Falsy` | gitbook.py:81 | an output name counts as missing exactly when it is `None` or the empty string (`not self.fname`) |
| `Toc.IsChapter` | gitbook.py:90-93 | an item is kept exactly when its class list is present and holds the token `"chapter"`; the test for an empty list at line 91 is implied by the token test |
| `Toc.ChapterUrls` | gitbook.py:87-98 | the collected URL list is never longer than the list of `<li>` items |
| `Toc.ChapterIndices` | gitbook.py:89-93 | the kept positions are strictly increasing, each is a chapter item (class list present, non-empty, holding `"chapter"`), and every chapter item is kept |
| `Toc.ChapterUrlsFollowIndices` | gitbook.py:89-97 | exactly one URL per chapter item; the j-th URL is `urljoin(start_url, data_path)` of the j-th chapter item |
| `Toc.ChapterUrlsAppend` | gitbook.py:89-98 | collecting from `a + b` gives the URLs of `a` followed by those of `b` (relative order is kept) |
| `Toc.NonChapterSkipped` | gitbook.py:90-93 | an item with no class attribute, an empty one, or one without `"chapter"` contributes nothing wherever it stands |
| `Toc.ChapterContributes` | gitbook.py:93-97 | a chapter item contributes exactly its resolved URL, between the URLs of the items before and after it |
| `Slots.Concat` | gitbook.py:32 | `"".join` on strings: the fragments one after the other in list order, without separators; the first fragment leads, followed by the join of the rest |
| `Slots.Empty` | gitbook.py:28 | `[None for _ in range(n)]`: `n` slots, all `None`; their join is undefined unless `n` is 0 |
| `Slots.Join` | gitbook.py:32 | `"".join(content_list)` is defined exactly when no slot is `None` |
| `Slots.JoinFilled` | gitbook.py:32 | slots filled with fragments `f[0..N)` join to their concatenation in index order, without separators |
| `Slots.ScheduleCovers` | gitbook.py:38-42 | a completion order of the tasks has length N and contains every index below N |
| `Slots.ScheduleRunsEachOnce` | gitbook.py:38-42 | no index appears twice in a completion order |
| `Slots.ApplyWrites` | gitbook.py:66 | the slot writes of a run of tasks keep the number of slots |
| `Slots.ApplyWritesAt` | gitbook.py:66 | after the writes, slot i holds fragment i if task i ran and its earlier value otherwise |
| `Slots.WritesInAnyOrder` | gitbook.py:28-32 | for any completion order in which every index is written once (line 66), the slots are exactly the fragments by index and the join equals `f[0] + ... + f[N-1]` |
| `Slots.IncompleteWritesJoinUndefined` | gitbook.py:28-32 | from the `N` `None` slots of line 28, if some index was never written the join is undefined (the TypeError case) |
| `Crawl.Retrieve` | gitbook.py:51-55 | one or two attempts; the first uses timeout 10; a second one, without timeout, is made exactly when the first raised; the response is that of the last attempt |
| `Crawl.RetrieveOutcome` | gitbook.py:51-55 | retrieval raises exactly when both attempts raise; otherwise it gives the first attempt's body when that one succeeded and the retry's body otherwise |
| `Crawl.RetryTransparent` | gitbook.py:51-55 | a first attempt that raises followed by a successful retry yields the same response as a first attempt that succeeded with that body |
| `Crawl.CrawlPage` | gitbook.py:51-66 | `gettext` yields a fragment exactly when some attempt returned a body and extraction found the content section; a fetch error when both attempts raised, an extraction error otherwise |
| `Crawl.Fragments` | gitbook.py:36-42 | the fragments of all pages exist exactly when every page is crawled without error, and fragment i is page i's |
| `Gitbook.EveryScheduledPageCrawled` | gitbook.py:38-42 | if every task of a completion order succeeded, every page was crawled |
| `Gitbook.Gitbook2PDF.constructor` | gitbook.py:18-24 | keeps the base URL and the output name given, and starts with an empty slot list |
| `Gitbook.Gitbook2PDF.CollectToc` | gitbook.py:77-98 | `fname` is replaced by the title only when falsy; a missing title (only then) or a missing summary list is an error; otherwise the result is `ChapterUrls` of the items |
| `Gitbook.Gitbook2PDF.InitSlots` | gitbook.py:28 | a fresh slot array of the given length, every slot `None` |
| `Gitbook.Gitbook2PDF.WriteSlot` | gitbook.py:66 | slot `index` holds the fragment afterwards and every other slot is unchanged |
| `Gitbook.Gitbook2PDF.GetText` | gitbook.py:45-66 | the requests made are those of `Retrieve` (timeout 10 first, then one without timeout only after a raise); the result is `CrawlPage` of the URL; on success only slot `index` changes, to that fragment; on an error no slot changes |
| `Gitbook.Gitbook2PDF.LaunchTasks` | gitbook.py:37-41 | one task per `(index, url)` pair of `enumerate(content_urls)`, in order |
| `Gitbook.Gitbook2PDF.CrawlMainContent` | gitbook.py:36-42 | succeeds exactly when every page crawls; then the slots are the writes of the completion order applied to the old slots; a failure carries the error of a failing page |
| `Gitbook.Gitbook2PDF.Run` | gitbook.py:26-32 | `fname` as in `collect_toc`; the title and summary errors; success exactly when the TOC is found and every page crawls; the result is then the fragments concatenated in TOC order, whatever the completion order; a crawl failure returns the error of one of the failing pages |

## Left out

- Network I/O of the pages (`request` with aiohttp): a request is the function parameter `request: (url, timeout) -> Response`. Two slots with the same URL therefore see the same response.
- The landing-page fetch (`requests.get` at gitbook.py:78): it is folded, together with parsing, into the `Page` value that `CollectToc` and `Run` receive. Its failure, which in the source raises before `fname` is touched, is not modelled.
- The request headers (the fixed user-agent map): they are passed unchanged to every request and do not affect control flow.
- BeautifulSoup parsing of the landing page: its result is the `Page` value, which holds the title text and the `<li>` items with their class tokens and `data-path`.
- lxml parsing, the xpath selection with `[0]`, footer removal, `etree.tostring` and `html.unescape`: together they are the function parameter `extract`. Its `None` stands for the exception raised when there is no content section. The lxml element-truthiness test of the footer is not modelled.
- The internals of `urljoin`: it is a function parameter.
- The asyncio event loop, `gather` and interleaving at `await` points: the model runs the tasks one after the other in the order given by `order`, which is any permutation of the indices. Each task writes its slot only at its end, so the order of the writes is what the model captures.
- `get_all_css`, `write_pdf` and the WeasyPrint renderer: `Run` ends at the joined HTML that the source hands to the renderer.
- The `print` diagnostics and the `__main__` entry point.
- Gitbook.Gitbook2PDF.CrawlMainContent: on failure it does not say which slots were written. In the source the run is abandoned, and other tasks may still be in flight when `gather` raises.
- Gitbook.Gitbook2PDF.WriteSlot: the IndexError that Python raises for an index out of range is excluded by a precondition, because every index comes from `enumerate` over the URL list that sized the slots.
