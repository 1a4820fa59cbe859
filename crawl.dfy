/** The page crawler's value: the request attempts made for one URL, the
    fragment extracted from the response, and the fragments of a whole list
    of URLs. */
module Crawl {
  import opened Outcomes

  /** What one request call gives: the response body, or an exception of
      any kind. */
  datatype Response = Text(body: string) | Raised

  /** One HTTP GET of a URL with an optional timeout, left uninterpreted. */
  type Request = (string, Option<nat>) -> Response

  /** Everything between the response body and the slot write: HTML parsing,
      the first `section.normal.markdown-section`, footer removal,
      serialisation and entity decoding. `None` when there is no such
      section, where the source raises. */
  type Extract = string -> Option<string>

  /** The timeout of the first request attempt. */
  const FirstTimeout: nat := 10

  /** The timeouts of the request attempts made for a URL, in order, and the
      response that the last of them gave. */
  datatype Retrieval = Retrieval(timeouts: seq<Option<nat>>, response: Response)

  /** The try/except around the request: one attempt with the first
      timeout and, only when it raised, one more without a timeout. The
      response is that of the last attempt made. */
  function Retrieve(request: Request, url: string): (r: Retrieval)
    ensures 1 <= |r.timeouts| <= 2 && r.timeouts[0] == Some(FirstTimeout)
    ensures |r.timeouts| == 2 <==> request(url, Some(FirstTimeout)).Raised?
    ensures |r.timeouts| == 2 ==> r.timeouts[1] == None
    ensures r.response == request(url, r.timeouts[|r.timeouts| - 1])
  {
    match request(url, Some(FirstTimeout))
    case Text(body) => Retrieval([Some(FirstTimeout)], Text(body))
    case Raised => Retrieval([Some(FirstTimeout), None], request(url, None))
  }

  /** The retry hides nothing and invents nothing: retrieval fails exactly
      when both attempts raise, and otherwise gives the body of the first
      attempt that did not raise. */
  lemma RetrieveOutcome(request: Request, url: string)
    ensures Retrieve(request, url).response.Raised?
       <==> request(url, Some(FirstTimeout)).Raised? && request(url, None).Raised?
    ensures request(url, Some(FirstTimeout)).Text? ==>
      Retrieve(request, url).response == request(url, Some(FirstTimeout))
    ensures request(url, Some(FirstTimeout)).Raised? ==>
      Retrieve(request, url).response == request(url, None)
  {
  }

  /** A first attempt that raises and a retry that returns a body gives the
      same response as a first attempt that returned that body. */
  lemma RetryTransparent(quick: Request, slow: Request, url: string, body: string)
    requires quick(url, Some(FirstTimeout)) == Text(body)
    requires slow(url, Some(FirstTimeout)).Raised? && slow(url, None) == Text(body)
    ensures Retrieve(slow, url).response == Retrieve(quick, url).response == Text(body)
  {
  }

  /** What `gettext` produces for a URL: the extracted fragment, or the
      error it raises. */
  function CrawlPage(request: Request, extract: Extract, url: string): (r: Result<string>)
    ensures r.Ok? <==> Retrieve(request, url).response.Text? && extract(Retrieve(request, url).response.body).Some?
    ensures r.Ok? ==> Some(r.value) == extract(Retrieve(request, url).response.body)
    ensures r.Err? ==> r.error == (if Retrieve(request, url).response.Raised? then FetchFailed(url) else ExtractionFailed(url))
  {
    match Retrieve(request, url).response
    case Raised => Err(FetchFailed(url))
    case Text(body) =>
      match extract(body)
      case None => Err(ExtractionFailed(url))
      case Some(fragment) => Ok(fragment)
  }

  /** The fragments of all pages, defined exactly when every page is
      crawled without error; fragment i is that of URL i. */
  function Fragments(request: Request, extract: Extract, urls: seq<string>): (r: Option<seq<string>>)
    ensures r.Some? <==> forall i :: 0 <= i < |urls| ==> CrawlPage(request, extract, urls[i]).Ok?
    ensures r.Some? ==> |r.value| == |urls|
    ensures r.Some? ==> forall i :: 0 <= i < |urls| ==> CrawlPage(request, extract, urls[i]) == Ok(r.value[i])
  {
    if urls == [] then Some([])
    else
      match (Fragments(request, extract, urls[..|urls| - 1]), CrawlPage(request, extract, urls[|urls| - 1]))
      case (Some(init), Ok(last)) => Some(init + [last])
      case _ => None
  }
}
