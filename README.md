# Celeb News Fetcher, modelled in Dafny

Celeb News Fetcher looks up recent news about a celebrity and turns it into
a short summary. It has two front ends with the same core:

- The Streamlit app (`app.py`) crawls each news link with `crawl_text`. That
  function keeps the stripped text of every paragraph and heading, and turns a
  failed fetch into an error message. `combine_texts` then joins the first five
  successful, non-empty texts into one context, labelled `Text 1` to `Text 5`.
- The `celebnews` package has two versions of `fetch_and_summarize`.
  - `celebnews/app.py` checks the SerpAPI key and an optional recency filter
    (`date_value` with a day, week or month unit), builds the query, reads the
    reply, and crawls the result links. As written, the crawl loop reads an
    undefined name and raises NameError whenever the search found news (see
    "## Findings"). Only in the corrected variant does it go on to ask a
    language model for a summary, falling back to a numbered bullet list of
    the results if that call raises.
  - `celebnews/core.py` renders the first `count` results as a numbered digest
    under a `Top N items on name:` header.

The model has one module per concern:

- `Builtins` holds the Python behaviour the code relies on: `str()` of an int,
  `str.strip()` with the full `str.isspace()` set, `str.lower()` as far as it
  matters for ASCII words, `str.join`, and a call that returns or raises.
- `Crawl` models `crawl_text` (loop method and value function).
- `Aggregate` models `combine_texts` (loop method against a
  filter-take-label specification).
- `SerpApi` holds the query and reply shapes.
- `CelebApp` and `CelebCore` model the two `fetch_and_summarize`s.

The network, SerpAPI, the HTML parser and the language model are inputs:

- A crawl takes a `Page`: either the exception that fetching or parsing
  raised, or the parsed document reduced to the text nodes of its paragraph
  and heading elements.
- The search client is a function from query parameters to reply.
- Page fetching is a function from link to `Page`.
- The language model is a function from (name, context) to its answer or the
  exception it raised.

Points where the model follows the code as written:

- The fallback digest of `celebnews/app.py` lists every result, not the first
  few (lines 147-153).
- The missing-key message names `SERPAPI_API_KEY`, while the variable read is
  `SERPAPI_KEY` (lines 81-83). The model takes the key's value as an input, so
  it only reproduces the message text.
- The `[display:none]` entry at `app.py:36` is a tag name to BeautifulSoup, so
  hidden elements are not removed. The model does not claim they are.

## Model

| member | source | states |
|---|---|---|
| Builtins.NatToStr | app.py:75 | `str(n)` of a natural number is one or more decimal digits, with no leading zero unless n is 0 |
| Builtins.NatToStrRoundTrip | app.py:75 | reading back the decimal digits of `str(n)` gives n, so the `Text k` label renders k faithfully |
| Builtins.NatToStrInjective | app.py:75 | distinct numbers render differently, so no two labels or bullet numbers collide |
| Builtins.IntToStr | celebnews/core.py:19 | `str(i)` is non-empty, starts with '-' exactly for negative i, and is the plain digits otherwise |
| Builtins.IntToStrInjective | celebnews/app.py:101 | distinct ints render differently, so `as_qdr` determines the date value |
| Builtins.Strip | app.py:42 | `strip()` never lengthens its input and leaves no whitespace at either end |
| Builtins.StripSpec | app.py:42 | `strip()` returns the infix left after dropping whitespace at both ends; the result has no whitespace at either end; it is empty exactly when the input is all whitespace |
| Builtins.Lower | celebnews/app.py:98 | `lower()` keeps the length and leaves no upper-case ASCII letter |
| Builtins.LowerIdempotent | celebnews/app.py:98 | lowering is idempotent |
| Builtins.ConcatEmpty | app.py:75 | a concatenation is '' exactly when every part is '' |
| Builtins.Join | celebnews/core.py:25 | `sep.join(parts)` is '' for no parts and otherwise begins with the first part |
| Builtins.JoinSnoc | celebnews/app.py:147-150 | joining one more part adds exactly one separator and that part |
| Builtins.JoinAsConcat | celebnews/core.py:25 | `sep.join([h] + rest)` is h followed by sep + p for each later part p, in order |
| Crawl.FirstCatching | app.py:48-66 | the clause that handles an exception is the first one, in written order, whose class it is an instance of; the final `except Exception` guarantees there is one |
| Crawl.FaultMessages | app.py:48-66 | the message for each kind of failure: an HTTP error with its detail; a connection error or a connect timeout (caught by the earlier ConnectionError clause) as "Failed to connect to the server"; a read timeout as "Request timed out"; other request errors and parse errors with their detail |
| Crawl.GetText | app.py:42 | `get_text(strip=True)` never begins or ends with whitespace |
| Crawl.GetTextEmpty | app.py:42-43 | an element's stripped text is '' exactly when all its text nodes are whitespace |
| Crawl.KeptEmpty | app.py:43-44 | only empty element texts are skipped, and nothing is kept exactly when every text is empty |
| Crawl.CollectedSnoc | app.py:41-44 | one loop step: a non-empty element text adds a newline and the text; an empty one adds nothing |
| Crawl.CollectedAppend | app.py:41-44 | collecting over a split element list is collecting over each part, in order |
| Crawl.ExtractText | app.py:40-46 | the text of a fetched page is '' or begins with the newline put before the first kept element |
| Crawl.ExtractTextAppend | app.py:41-46 | the text of a document split in two is the text of each half, concatenated |
| Crawl.ExtractTextEmpty | app.py:41-46 | a fetched page yields '' exactly when none of its paragraphs or headings has visible text |
| Crawl.CrawlText | app.py:23-66 | succeeds exactly when the page was fetched and parsed; the text is then '\n' + t for each non-empty element text t, in document order; otherwise it is the message of the first matching except clause; the pair is the one `Crawled` gives for the page |
| Crawl.Crawled | celebnews/app.py:8-51 | crawl_text's pair as a value: success exactly for a fetched page, and a failure always carries a non-empty message |
| Aggregate.CrawledContributes | app.py:72-73 | a link contributes a block exactly when its page was fetched and some paragraph or heading has visible text |
| Aggregate.GoodTexts | app.py:71-73 | the kept texts number at most one per link, and none of them is '' |
| Aggregate.GoodTextsAppend | app.py:71-75 | selecting the useful crawls commutes with splitting the link list |
| Aggregate.SkipNonContributing | app.py:73 | a failed or empty crawl anywhere in the list changes neither the kept texts nor the combined text |
| Aggregate.GoodTextsAtPositions | app.py:71-75 | each kept text is the text of a successful, non-empty crawl at the matching position, one per position |
| Aggregate.GoodPositionsIncrease | app.py:71-75 | those positions strictly increase, so the kept texts follow link order |
| Aggregate.GoodPositionsComplete | app.py:71-73 | every successful non-empty crawl has its position listed, so no useful text is skipped |
| Aggregate.GoodTextsEmpty | app.py:73 | nothing is kept exactly when no crawl succeeds with non-empty text |
| Aggregate.CombineStep | app.py:72-75 | one more link adds its text, as the next numbered block, exactly when it succeeded with non-empty text |
| Aggregate.LabelledSnoc | app.py:74-75 | one more kept text adds exactly one block, labelled with the next number |
| Aggregate.Combined | app.py:68-78 | a non-empty context opens with the block labelled `Text 1` |
| Aggregate.CombinedEmpty | app.py:68-78 | the combined context is '' exactly when no crawl succeeded with non-empty text |
| Aggregate.LaterLinksIgnored | app.py:76-77 | once five texts are kept, what later links would yield makes no difference |
| Aggregate.CombineTexts | app.py:68-78 | returns the first min(5, #useful) useful texts as blocks `Text 1` … `Text count`, in link order; stops right after the fifth useful link and otherwise visits every link |
| CelebApp.UnitCodeIgnoresCase | celebnews/app.py:97-98 | the unit is matched case-insensitively |
| CelebApp.UnitCodeSpec | celebnews/app.py:97-99 | a unit is accepted exactly when its lower case is day, week or month; its code is that word's first letter |
| CelebApp.BuildQuery | celebnews/app.py:81-101 | the query is rejected exactly for a missing key, a half-given filter or a unit whose lower case is not day, week or month; an accepted query holds engine, q = name, tbm and api_key = the key, plus as_qdr exactly when a filter was given |
| CelebApp.MissingKeyRejected | celebnews/app.py:81-83 | the missing-key message is returned exactly when the key is absent or empty |
| CelebApp.PartialFilterRejected | celebnews/app.py:94-96 | with a key, the partial-filter message is returned exactly when one of date_value and date_unit is missing |
| CelebApp.UnsupportedUnitRejected | celebnews/app.py:97-100 | with a key and both filter parts, the query is rejected exactly for an unknown unit, quoting the unit as given |
| CelebApp.NoFilterParams | celebnews/app.py:86-94 | without a filter, the query has exactly engine=google, q=name, tbm=nws and api_key, and no as_qdr |
| CelebApp.FilterParams | celebnews/app.py:86-101 | with a known unit, as_qdr is the unit's letter followed by str(date_value), and the other keys are unchanged |
| CelebApp.RejectedQueryMakesNoCalls | celebnews/app.py:81-101 | a rejected query returns its message whatever the search, the pages and the model would do |
| CelebApp.SearchNews | celebnews/app.py:81-118 | a rejected query ends with its message; results are passed on exactly when the query is accepted and the reply is error-free with a present, non-empty news_results, and they are exactly that list |
| CelebApp.OnlyTheBuiltQueryIsSearched | celebnews/app.py:104-106 | the search client is asked only for the built query |
| CelebApp.SearchFailuresRaise | celebnews/app.py:104-116 | a search that raises ends in UnboundLocalError for `data`; a reply without news_results ends in KeyError; the as-written and corrected versions agree on both |
| CelebApp.ProviderErrorReported | celebnews/app.py:111-114 | a provider error is returned with its message and detail, and is never mistaken for an empty result |
| CelebApp.EmptyResultsReported | celebnews/app.py:111-118 | an error-free reply with an empty news_results gives the no-news message, whatever error_details holds |
| CelebApp.Items | celebnews/app.py:121-129 | one normalised item per result |
| CelebApp.BulletsUseDefaults | celebnews/app.py:121-129 | each bullet shows the result's title, date and snippet, or "No title", "Unknown date" and "No snippet available." for a missing one |
| CelebApp.Bullets | celebnews/app.py:147-150 | the bullet text is '' exactly when there are no items, and otherwise opens with the first item's bullet, numbered 1 |
| CelebApp.FallbackDigest | celebnews/app.py:147-154 | the fallback opens with the failure detail and ends with the bullets of every item, not only the first few |
| CelebApp.BulletsSnoc | celebnews/app.py:147-150 | one more item adds exactly one bullet, numbered one past the last |
| CelebApp.FetchAndSummarizeAsWritten | celebnews/app.py:81-154 | every outcome decided before the results are read is returned as is; the function returns a value only when it stops before the crawl loop |
| CelebApp.AsWrittenAlwaysRaisesOnResults | celebnews/app.py:133-141 | as written, every search that finds news ends in NameError for `count` |
| CelebApp.FetchAndSummarize | celebnews/app.py:81-154 | the corrected variant agrees with the code as written up to the results, and never raises once results were found |
| CelebApp.CorrectedReturnsOnResults | celebnews/app.py:143-154 | with combine_texts in place of the loop, every search that finds news returns either the model's answer on the combined context or the fallback digest of all items |
| CelebApp.FallbackIgnoresCrawls | celebnews/app.py:144-154 | when the model call raises, the fallback digest depends only on the search results, not on what the pages yielded |
| CelebCore.Take | celebnews/core.py:20 | `results[:count]` is a prefix of the results; it has min(count, n) items for a non-negative count, and all but the last -count items for a negative one |
| CelebCore.DigestLines | celebnews/core.py:19-24 | the digest has one line more than the items shown |
| CelebCore.RenderDigest | celebnews/core.py:19-25 | the loop that appends one line per item, then the join, yields the digest |
| CelebCore.Summary | celebnews/core.py:4-25 | raises exactly for a missing key or a failing search; otherwise returns the no-news message or a text opening with `Top `; with a key and a non-empty news_results it returns exactly `Digest(name, count, results)` |
| CelebCore.FetchAndSummarize | celebnews/core.py:4-25 | the whole function returns or raises what the digest specification prescribes |
| CelebCore.MissingKeyRaises | celebnews/core.py:6-8 | the RuntimeError is raised exactly when the key is absent or empty, whatever the search would do |
| CelebCore.SearchFailurePropagates | celebnews/core.py:15-16 | an exception from the search client propagates unchanged |
| CelebCore.OnlyTheQueryIsSearched | celebnews/core.py:9-16 | the search client is asked only for engine=news, q, api_key and num=count |
| CelebCore.MissingResultsAreNoNews | celebnews/core.py:16-18 | a reply without news_results, including an error reply, gives the no-news message |
| CelebCore.Digest | celebnews/core.py:19-25 | the digest opens with its header, and is the header alone when no item is shown |
| CelebCore.DigestText | celebnews/core.py:19-25 | the digest is the header, then a newline and one line for each shown item, in result order |
| CelebCore.HeaderCountsLines | celebnews/core.py:19-20 | for a non-negative count, the header's number is exactly the number of item lines |
| CelebCore.DigestLinesInOrder | celebnews/core.py:20-24 | line k shows the k-th result with number k, and only results within the first count appear |
| CelebCore.NegativeCount | celebnews/core.py:19-20 | a negative count reaches the header as a negative number, while the lines drop the last -count results |
| CelebCore.LaterResultsUnread | celebnews/core.py:20 | results after the first count cannot change the digest |

## Left out

- Network, SerpAPI and the OpenAI model: these are inputs (a `Page` per link, a search function, a summarize function). Timeouts, retries and the prompt text are not modelled.
- BeautifulSoup: the document is the sequence of paragraph and heading elements left after removal, each as its text nodes. Tag matching, the removal pass and HTML parsing are not modelled.
- The exact text of `str(e)` for an exception is opaque. It is carried as the `detail` of each fault.
- Exceptions outside `Exception` (BaseException subclasses such as KeyboardInterrupt) escape crawl_text and the search block; they are not modelled.
- JSON values of an unexpected type (a null title, a non-list news_results, a non-string link) are not modelled. A missing key is `None` in the model; a present key holds a string or a list.
- Builtins.Lower: only A-Z and the Kelvin sign are lowered. Every other character whose Python lower case differs is left unchanged, which never affects comparison with an ASCII word.
- Environment loading (`load_dotenv`, `os.getenv`): keys are parameters.
- `query_serper` in app.py, the Streamlit page, and main.py are not part of this model. main.py passes four arguments to the three-parameter function, which would raise TypeError before any of the modelled code runs.
- The default `count=5` of celebnews/core.py:4: `CelebCore` always takes the count as an argument, so a call that omits it is modelled by passing 5.
- The `print` calls (of the search failure and of the reply) are side effects only and are not modelled.
- CelebApp.CorrectedReturnsOnResults: the corrected loop is taken to be combine_texts with its cap of five texts, since the as-written loop names no count parameter.

## Findings

| source | as written | input that shows it | evidently intended | confidence | as-written member | corrected member |
|---|---|---|---|---|---|---|
| celebnews/app.py:133-141 | the crawl loop reads `count` (line 139 after a useful crawl, line 140 otherwise), a name bound nowhere in the module | any valid key and name for which SerpAPI returns at least one news result | aggregate up to five crawled texts as combine_texts does (app.py:68-78), then summarize or fall back to the bullet digest | high (not executed) | CelebApp.AsWrittenAlwaysRaisesOnResults | CelebApp.CorrectedReturnsOnResults |
