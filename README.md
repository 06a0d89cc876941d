# PubMed abstract downloader, modelled in Dafny

`downloader.py` reads a CSV file of PubMed articles and writes a copy of it
with one extra column, `abstract`. For each row it takes the `PMID` field,
downloads `https://pubmed.ncbi.nlm.nih.gov/<PMID>/` through a `requests`
session with `urllib3` retries, and extracts the text of `div#abstract`.
When the page comes back with an HTTP error status, the row gets the text
"Abstract download failed: could not download page". This holds only for
statuses that the session does not retry: a status in the retry policy's
forcelist (500, 502, 503, 504 and urllib3's own retry-after codes) is
retried by urllib3, which then raises from `session.get`, and that ends
the run. When the page has no
abstract, it gets "Abstract download failed: abstract not found on page".
Rows are processed and written one at a time, in input order. The row
number is logged at every power of two, and a processing rate is logged at
the end when at least one row was processed.

The model keeps the logic that the script itself decides and treats the
libraries it calls as oracles:

- `Retry` (`retry.dfy`) models the policy `sane_retry` builds. urllib3's two
  class constants are a parameter, because their values are not in this
  repository.
- `Powers` (`powers.dfy`) defines the integer predicate "n is a power of two"
  and an executable test, `IsPowerOfTwo`, proved equal to it.
- `Bom` (`bom.dfy`) models `strip_bom` and its use on every input line.
- `Fetch` (`fetch.dfy`) models `_fetch_pmid` and `_get_pmid_abstract`.
  `session.get` and `_html_to_abstract` are fields of a `Services` value.
  A GET either raises or responds, and a response either has an error status
  or carries the page text. Extraction yields an optional string.
- `Rows` (`rows.dfy`) models a row dict as a `Row` object whose `fields` map
  `update_row` changes in place. It also models the output header.
- `Pipeline` (`pipeline.dfy`) models the loop in `main` as a method over a
  sequence of `Row` objects. It is proved against a pure function
  `EnrichValues` and a progress function `Progress`. `Run` adds the header
  and the summary.

Exceptions that escape a row and end the run are values of `Fetch.Fault`:
- an exception from `session.get`;
- the `KeyError` of a row without `PMID`;
- the failed `assert` on missing field names.

Three facts about the code shape the model:

- Only the `HTTPError` raised by `raise_for_status` (downloader.py:43-47) is
  turned into the "could not download page" sentinel. An exception raised by
  `session.get` itself (downloader.py:42), including exhausted retries, is
  outside the `try`. It ends the run after the rows before it were written
  (`Pipeline.ScenarioRaisingGetAborts`).
- `strip_bom` is mapped over every line of the input (downloader.py:131),
  so a mark at the start of any line is dropped, not only one at the start
  of the file (`Bom.StripBomLines`).
- Despite its name and the docstring's "retries can be added"
  (downloader.py:94), `additional_status_forcelist` replaces the default of
  500, 502, 503, 504 instead of adding to it: only urllib3's own codes are
  kept whatever the caller passes (`Retry.CustomStatusForcelistDropsDefault`).

## Model

| member | source | states |
|---|---|---|
| Retry.SaneRetry | downloader.py:79-106 | total, read and connect all equal `retries`; the backoff is passed through; the status set is exactly the union of the library's retry-after codes and the caller's codes, and it contains both; the same holds for the method set |
| Retry.DefaultSaneRetry | downloader.py:79-90 | with every argument defaulted, the policy allows 4 retries in total, and at most 4 for each of read and connect errors, with backoff 0.1, retries on 500, 502, 503 and 504 and the library's own codes, and allows exactly the library's default methods |
| Retry.SaneRetryMonotone | downloader.py:96-97 | widening the caller's status or method set never removes a status code or a method from the policy |
| Retry.CustomStatusForcelistDropsDefault | downloader.py:82-97 | 500 is retried by the default policy, but not by one built with a custom status list that lacks 500 when the library's set lacks it too |
| Powers.Log2 | downloader.py:68-69 | the result is the unique k with 2^k <= n < 2^(k+1) |
| Powers.Log2Unique | downloader.py:68-69 | any exponent that brackets n this way is Log2(n) |
| Powers.IsPowerOfTwo | downloader.py:68-69 | true exactly when n == 2^k for some natural k |
| Powers.Log2Predecessor | downloader.py:68-69 | from n - 1 to n, the floor of log2 grows by one exactly when n is a power of two, and otherwise stays the same |
| Bom.StripBom | downloader.py:64-65 | a line that starts with U+FEFF loses exactly that character; any other line is returned unchanged; the result is a suffix of the line and never longer |
| Bom.StripBomRoundTrip | downloader.py:64-65 | stripping a line with a mark put in front gives the line back, and a line that had a mark is the mark followed by its stripped form |
| Bom.StripBomRemovesOnlyOne | downloader.py:64-65 | a line with two leading marks keeps the second one |
| Bom.StripBomLines | downloader.py:131 | every line handed to the CSV reader is stripped, one output line per input line, in order |
| Fetch.PmidUrl | downloader.py:42 | the URL is the PubMed prefix, then the PMID, then a slash |
| Fetch.PmidUrlRoundTrip | downloader.py:42 | the PMID can be read back out of its URL |
| Fetch.PmidUrlInjective | downloader.py:42 | different PMIDs are requested at different URLs |
| Fetch.FetchPmid | downloader.py:41-48 | the fetch fails with the URL's transport error exactly when the GET raises; it yields no page exactly when the response has an error status; any page it yields is the response text |
| Fetch.GetPmidAbstract | downloader.py:51-61 | the call fails exactly when the fetch fails, with the fetch's own exception; otherwise it gives the "could not download page" sentinel when there is no page, the "abstract not found on page" sentinel when the page has no abstract, and the extracted text unchanged otherwise |
| Fetch.SentinelNamesTheStage | downloader.py:51-61 | unless the extracted text itself equals a sentinel, the first sentinel is returned exactly when the status is an error, and the second exactly when the page has no abstract |
| Rows.Row.constructor | downloader.py:131 | a new row holds the given fields |
| Rows.AbstractForRow | downloader.py:73-74 | a row without "PMID" raises the KeyError; otherwise the value is the abstract fetched for that PMID |
| Rows.WithAbstractFields | downloader.py:75 | after the update, the keys are the old keys plus "abstract", and "abstract" holds the new text, overwriting any earlier value; every other field is unchanged, and the size grows by one only when "abstract" was absent |
| Rows.UpdatedRow | downloader.py:72-76 | a row without "PMID" raises the KeyError; otherwise the update fails exactly when the fetch raises; on success the keys are the old keys plus "abstract", "abstract" holds the fetched abstract, and every other field is kept |
| Rows.UpdateRow | downloader.py:72-76 | the method updates the same row object in place and returns it, and its new fields are the updated dict; when an exception escapes, the row is left untouched |
| Rows.OutputFieldnames | downloader.py:133-134 | the output header is the input header followed by one "abstract": one longer, prefix preserved, exactly one more "abstract" than the input, and no other new name |
| Rows.UpdatedRowFitsHeader | downloader.py:133-145 | a row whose fields are all in the input header has, once updated, only fields that are in the output header |
| Pipeline.ProgressMembers | downloader.py:144-147 | a row number is logged exactly when it lies between 1 and the number of rows processed and is a power of two |
| Pipeline.ProgressArePowers | downloader.py:144-147 | the log is 1, 2, 4, ..., 2^Log2(n): it has Log2(n) + 1 entries, or none when nothing was processed |
| Pipeline.ProgressStrictlyIncreasing | downloader.py:144-147 | the logged row numbers strictly increase |
| Pipeline.LogProgress | downloader.py:146-147 | logging row number n extends the log for n - 1 rows to the log for n rows |
| Pipeline.EnrichValuesInOrder | downloader.py:141-149 | no more rows are written than were read; written row i is input row i updated; the whole input is written when no row raises; otherwise the row after the last written one raises the run's exception |
| Pipeline.EnrichValuesDetermined | downloader.py:141-149 | the converse: rows updated in order, followed by either the end of the input or a row that raises, are exactly what the run writes |
| Pipeline.EnrichValuesComplete | downloader.py:141-149 | the run finishes without an exception exactly when every row's update succeeds, and then it writes one row per input row |
| Pipeline.NoRowDropped | downloader.py:141-149 | when every row has a PMID and no GET raises, every row is written, including those whose page failed or had no abstract |
| Pipeline.Enrich | downloader.py:141-149 | the loop writes the rows and ends with the exception that EnrichValues gives for the input rows; the row count is the number of rows written; the progress log is Progress of that count; rows not reached are untouched |
| Pipeline.ProcessRate | downloader.py:154-156 | a rate exists exactly when at least one row was processed, and the rate times the row count is the duration |
| Pipeline.Run | downloader.py:122-156 | with no field names, the run fails before any row is written. Otherwise the header is the input header plus "abstract", and the rows and progress are those of EnrichValues. It ends with the escaped exception, or with the row count and its rate |
| Pipeline.ScenarioErrorStatusDegrades | downloader.py:41-149 | for two rows where the second page has an error status, both rows are written and the second gets the "could not download page" sentinel |
| Pipeline.ScenarioRaisingGetAborts | downloader.py:41-149 | for two rows where the second GET raises, only the first row is written and the run ends with that GET's exception |

## Left out

- HTTP transport: `Session`, `HTTPAdapter`, `with_http_retry` and `requests_retry_session` (downloader.py:109-119). Their retry and backoff loop runs inside urllib3, which is not part of this model. The GET is an oracle that raises or responds.
- HTML parsing: the internals of `_html_to_abstract` (downloader.py:32-38) belong to BeautifulSoup, so it is an oracle returning an optional string.
- Reading and writing CSV, opening files and `sys.argv` (downloader.py:129-138, 145). Rows are in-memory maps. The written rows are a sequence, and the header is a value.
- Logging setup and message formats (downloader.py:22-29, 46, 58, 147, 153, 156). Progress is the sequence of logged row numbers, and the summary is a value.
- Clock and formatting: `time.monotonic` (downloader.py:125, 151-152) is replaced by a `duration` parameter. The `.3f` rendering of the rate is not modelled, and real numbers stand in for floats.
- Powers.IsPowerOfTwo: it decides the exact integer predicate. The source's floating-point `math.log(n, 2).is_integer()` is not reproduced, and it can misclassify very large row numbers.
- Fetch.Services: the session is a function of the URL. The same URL always gives the same answer, and the order or repetition of requests is not modelled.
- Pipeline.Enrich: it does not restate that each written dict is the same object as the updated input row. The written maps are tied to the input rows through `EnrichValues`, not to the rows' final fields.
- Pipeline.Run: the loop's generator is lazy, so a row is written before the next one is fetched. The model keeps this order only as "rows before the failing one are written", and it does not model the interleaving of writes and requests.
