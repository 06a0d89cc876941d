/**
 * Fetching one abstract: `_fetch_pmid` (downloader.py:41-48) and
 * `_get_pmid_abstract` (downloader.py:51-61). The HTTP session and the
 * HTML extractor are oracles: the model fixes only what this file decides
 * with their answers.
 */
module Fetch {
  import opened Wrappers

  /** What `session.get(url)` does. `Raised` is any exception thrown by the
      call itself (a connection failure, retries exhausted inside urllib3);
      `Responded` is a response whose `raise_for_status()` raises
      `HTTPError` exactly when `errorStatus` holds. */
  datatype GetOutcome = Raised | Responded(errorStatus: bool, text: string)

  /** The collaborators the fetch depends on. */
  datatype Services = Services(
    get: string -> GetOutcome,                // the retrying session's GET
    htmlToAbstract: string -> Option<string>) // `_html_to_abstract`: the text of div#abstract, if any

  /** The exceptions that escape a row and end the run. */
  datatype Fault =
    | TransportError(url: string)  // raised by `session.get`, not caught
    | MissingField(name: string)   // `KeyError` from `row["PMID"]`
    | NoFieldnames                 // `assert reader.fieldnames is not None` fails

  const CouldNotDownloadPage: string := "Abstract download failed: could not download page"
  const AbstractNotFound: string := "Abstract download failed: abstract not found on page"

  const PubmedPrefix: string := "https://pubmed.ncbi.nlm.nih.gov/"

  /** The article page of a PMID. */
  function PmidUrl(pmid: string): (url: string)
    ensures |url| == |PubmedPrefix| + |pmid| + 1
    ensures url[..|PubmedPrefix|] == PubmedPrefix && url[|url| - 1] == '/'
  {
    PubmedPrefix + pmid + "/"
  }

  /** Reads the PMID back out of an article URL. */
  function PmidOfUrl(url: string): (pmid: Option<string>)
    ensures pmid.Some? ==> |pmid.value| + |PubmedPrefix| + 1 == |url|
  {
    if |url| > |PubmedPrefix| && url[..|PubmedPrefix|] == PubmedPrefix && url[|url| - 1] == '/'
    then Some(url[|PubmedPrefix|..|url| - 1])
    else None
  }

  /** Every PMID is requested at its own URL: the URL determines the PMID. */
  lemma PmidUrlRoundTrip(pmid: string)
    ensures PmidOfUrl(PmidUrl(pmid)) == Some(pmid)
  {
    var url := PmidUrl(pmid);
    assert url[|PubmedPrefix|..|url| - 1] == pmid;
  }

  lemma PmidUrlInjective(p: string, q: string)
    requires PmidUrl(p) == PmidUrl(q)
    ensures p == q
  {
    PmidUrlRoundTrip(p);
    PmidUrlRoundTrip(q);
  }

  /** `_fetch_pmid`: the page text, `None` when the status is an HTTP error
      (the `HTTPError` is caught and logged), and the exception propagated
      when `session.get` itself raises (it is outside the `try`). */
  function FetchPmid(services: Services, pmid: string): (r: Result<Option<string>, Fault>)
    ensures r.Failure? <==> services.get(PmidUrl(pmid)).Raised?
    ensures r.Failure? ==> r.error == TransportError(PmidUrl(pmid))
    ensures r == Success(None) <==>
              services.get(PmidUrl(pmid)).Responded? && services.get(PmidUrl(pmid)).errorStatus
    ensures r.Success? && r.value.Some? ==> services.get(PmidUrl(pmid)) == Responded(false, r.value.value)
  {
    match services.get(PmidUrl(pmid))
    case Raised => Failure(TransportError(PmidUrl(pmid)))
    case Responded(errorStatus, text) => if errorStatus then Success(None) else Success(Some(text))
  }

  /** `_get_pmid_abstract`: the abstract text, or the sentinel naming the
      stage that failed. Only an exception from `session.get` escapes. */
  function GetPmidAbstract(services: Services, pmid: string): (r: Result<string, Fault>)
    ensures r.Failure? <==> FetchPmid(services, pmid).Failure?
    ensures r.Failure? ==> r.error == FetchPmid(services, pmid).error
    ensures FetchPmid(services, pmid) == Success(None) ==> r == Success(CouldNotDownloadPage)
    ensures FetchPmid(services, pmid).Success? && FetchPmid(services, pmid).value.Some? ==>
              var extracted := services.htmlToAbstract(FetchPmid(services, pmid).value.value);
              && (extracted.None? ==> r == Success(AbstractNotFound))
              && (extracted.Some? ==> r == Success(extracted.value))
  {
    match FetchPmid(services, pmid)
    case Failure(e) => Failure(e)
    case Success(None) => Success(CouldNotDownloadPage)
    case Success(Some(html)) =>
      match services.htmlToAbstract(html)
      case None => Success(AbstractNotFound)
      case Some(text) => Success(text)
  }
  /** The two sentinels name different stages, so, unless the page's own
      abstract reads like a sentinel, the text written says which stage
      failed: the download, or the search for the abstract on the page. */
  lemma SentinelNamesTheStage(services: Services, pmid: string)
    requires var page := services.get(PmidUrl(pmid));
      page.Responded? && !page.errorStatus ==>
        services.htmlToAbstract(page.text) != Some(CouldNotDownloadPage) &&
        services.htmlToAbstract(page.text) != Some(AbstractNotFound)
    ensures var page := services.get(PmidUrl(pmid));
      GetPmidAbstract(services, pmid) == Success(CouldNotDownloadPage) <==>
        page.Responded? && page.errorStatus
    ensures var page := services.get(PmidUrl(pmid));
      GetPmidAbstract(services, pmid) == Success(AbstractNotFound) <==>
        page.Responded? && !page.errorStatus && services.htmlToAbstract(page.text).None?
  {
    assert CouldNotDownloadPage != AbstractNotFound by {
      assert |CouldNotDownloadPage| != |AbstractNotFound|;
    }
  }
}
