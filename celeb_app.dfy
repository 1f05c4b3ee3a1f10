/**
 * fetch_and_summarize of the celebnews package: check the key and the
 * recency filter, build the SerpAPI query, read the reply, crawl the result
 * links, and summarize with the language model or fall back to a bullet
 * digest of the results.
 *
 * The search client, the page fetches and the language model are inputs:
 * `search` maps the query parameters to the reply, `fetch` maps a link to the
 * page it yields, `summarize` maps (name, context) to the model's answer.
 */
module CelebApp {
  import opened Builtins
  import opened SerpApi
  import Crawl
  import Aggregate

  // ---------------------------------------------------------------------------
  // Messages

  // The two long messages are each written as two literals, so that proofs can read their first characters.
  const MissingKeyMessage: string := "Missing SERPAPI_API_KEY " + "environment variable."

  const PartialFilterMessage: string := "To filter by date, " + "provide both date_value and date_unit."

  function UnsupportedUnitMessage(unit: string): string {
    "Unsupported date_unit '" + unit + "'. Choose day, week, or month."
  }

  /** `data.get("error_details") or ""`: an absent or empty detail becomes ''. */
  function Detail(details: Option<string>): string {
    if details.Some? && |details.value| > 0 then details.value else ""
  }

  function ProviderErrorMessage(msg: string, details: Option<string>): string {
    "SerpAPI returned an error: " + msg + ". " + Detail(details)
  }

  function NoNewsMessage(name: string): string {
    "No recent news found for '" + name + "'."
  }

  // ---------------------------------------------------------------------------
  // Validation and the query parameters

  /** unit_map.get(date_unit.lower()) */
  function UnitCode(unit: string): Option<string> {
    var u := Lower(unit);
    if u == "day" then Some("d")
    else if u == "week" then Some("w")
    else if u == "month" then Some("m")
    else None
  }

  /** The unit is matched case-insensitively: lowering it first changes nothing. */
  lemma UnitCodeIgnoresCase(unit: string)
    ensures UnitCode(Lower(unit)) == UnitCode(unit)
  {
    LowerIdempotent(unit);
  }

  /** The code is the first letter of the lowered unit, for exactly the three units. */
  lemma UnitCodeSpec(unit: string)
    ensures UnitCode(unit).Some? <==> Lower(unit) in {"day", "week", "month"}
    ensures UnitCode(unit).Some? ==> UnitCode(unit).value == [Lower(unit)[0]]
  {
  }

  /** The outcome of the checks: a message to return, or the parameters to search with. */
  datatype Query = Rejected(message: string) | Accepted(params: Params)

  function BaseParams(name: string, apiKey: string): Params {
    map["engine" := Str("google"), "q" := Str(name), "tbm" := Str("nws"), "api_key" := Str(apiKey)]
  }

  /**
   * The checks and parameter building that come before the search call. A
   * query is rejected for a missing key, a half-given filter or an unknown
   * unit; an accepted one holds the four base keys, and as_qdr exactly when a
   * filter was given.
   */
  function BuildQuery(apiKey: Option<string>, name: string, dateValue: Option<int>, dateUnit: Option<string>): (q: Query)
    ensures q.Rejected? <==> apiKey.None? || apiKey.value == "" || dateValue.None? != dateUnit.None?
                             || (dateUnit.Some? && Lower(dateUnit.value) !in {"day", "week", "month"})
    ensures q.Accepted? ==> q.params.Keys == {"engine", "q", "tbm", "api_key"} + (if dateValue.Some? then {"as_qdr"} else {})
    ensures q.Accepted? ==> q.params["q"] == Str(name) && q.params["api_key"] == Str(apiKey.value)
  {
    UnitCodeSpec(dateUnit.GetOr(""));
    if apiKey.None? || |apiKey.value| == 0 then Rejected(MissingKeyMessage)
    else
      var params := BaseParams(name, apiKey.value);
      if dateValue.None? && dateUnit.None? then Accepted(params)
      else if dateValue.None? || dateUnit.None? then Rejected(PartialFilterMessage)
      else
        match UnitCode(dateUnit.value)
        case None => Rejected(UnsupportedUnitMessage(dateUnit.value))
        case Some(short) => Accepted(params["as_qdr" := Str(short + IntToStr(dateValue.value))])
  }

  /** The missing-key message is returned exactly when the key is absent or empty. */
  lemma MissingKeyRejected(apiKey: Option<string>, name: string, dateValue: Option<int>, dateUnit: Option<string>)
    ensures BuildQuery(apiKey, name, dateValue, dateUnit) == Rejected(MissingKeyMessage)
            <==> apiKey.None? || apiKey.value == ""
  {
    if dateUnit.Some? {
      assert UnsupportedUnitMessage(dateUnit.value)[0] == 'U';
    }
  }

  /** With a key, the partial-filter message is returned exactly when one of value and unit is missing. */
  lemma PartialFilterRejected(key: string, name: string, dateValue: Option<int>, dateUnit: Option<string>)
    requires key != ""
    ensures BuildQuery(Some(key), name, dateValue, dateUnit) == Rejected(PartialFilterMessage)
            <==> dateValue.None? != dateUnit.None?
  {
    if dateValue.Some? && dateUnit.Some? {
      assert PartialFilterMessage[0] == 'T';
      assert UnsupportedUnitMessage(dateUnit.value)[0] == 'U';
    }
  }

  /** With a key and both parts of the filter, an unknown unit is rejected, quoted as given. */
  lemma UnsupportedUnitRejected(key: string, name: string, value: int, unit: string)
    requires key != ""
    ensures BuildQuery(Some(key), name, Some(value), Some(unit)).Rejected?
            <==> Lower(unit) !in {"day", "week", "month"}
    ensures BuildQuery(Some(key), name, Some(value), Some(unit)).Rejected?
            ==> BuildQuery(Some(key), name, Some(value), Some(unit)).message == UnsupportedUnitMessage(unit)
  {
    UnitCodeSpec(unit);
  }

  /** Without a filter the query has exactly the four base keys and no as_qdr. */
  lemma NoFilterParams(key: string, name: string)
    requires key != ""
    ensures var q := BuildQuery(Some(key), name, None, None);
            && q.Accepted?
            && q.params.Keys == {"engine", "q", "tbm", "api_key"}
            && "as_qdr" !in q.params
            && q.params["engine"] == Str("google") && q.params["q"] == Str(name)
            && q.params["tbm"] == Str("nws") && q.params["api_key"] == Str(key)
  {
  }

  /** With a known unit, as_qdr is the unit's letter followed by str(value); the rest is unchanged. */
  lemma FilterParams(key: string, name: string, value: int, unit: string)
    requires key != ""
    requires Lower(unit) in {"day", "week", "month"}
    ensures var q := BuildQuery(Some(key), name, Some(value), Some(unit));
            && q.Accepted?
            && q.params.Keys == {"engine", "q", "tbm", "api_key", "as_qdr"}
            && q.params["as_qdr"] == Str([Lower(unit)[0]] + IntToStr(value))
            && q.params - {"as_qdr"} == BaseParams(name, key)
  {
    UnitCodeSpec(unit);
    var q := BuildQuery(Some(key), name, Some(value), Some(unit));
    assert q.params == BaseParams(name, key)["as_qdr" := Str([Lower(unit)[0]] + IntToStr(value))];
    assert q.params - {"as_qdr"} == BaseParams(name, key);
  }

  // ---------------------------------------------------------------------------
  // Reading the reply

  /** How far fetch_and_summarize gets before it needs the results: a finished outcome, or the results. */
  datatype Stage = Finished(outcome: Outcome) | Found(results: seq<NewsItem>)

  /**
   * Lines 81-118. If the search call raises, the exception is printed and
   * `data` stays unbound, so the next line raises UnboundLocalError; a reply
   * without "news_results" raises KeyError.
   */
  function SearchNews(apiKey: Option<string>, name: string, dateValue: Option<int>, dateUnit: Option<string>,
                      search: Params -> SearchReply): (st: Stage)
    ensures BuildQuery(apiKey, name, dateValue, dateUnit).Rejected?
            ==> st == Finished(Returns(BuildQuery(apiKey, name, dateValue, dateUnit).message))
    ensures st.Found? ==> var q := BuildQuery(apiKey, name, dateValue, dateUnit);
            && q.Accepted? && search(q.params).Data?
            && search(q.params).data.error.None?
            && search(q.params).data.newsResults == Some(st.results)
            && |st.results| > 0
    ensures var q := BuildQuery(apiKey, name, dateValue, dateUnit);
            q.Accepted? && search(q.params).Data? && search(q.params).data.error.None?
            && search(q.params).data.newsResults.Some? && |search(q.params).data.newsResults.value| > 0
            ==> st.Found?
  {
    match BuildQuery(apiKey, name, dateValue, dateUnit)
    case Rejected(m) => Finished(Returns(m))
    case Accepted(params) =>
      match search(params)
      case SearchRaised(_) => Finished(Raises(UnboundLocalError("data")))
      case Data(data) =>
        if data.error.Some? then Finished(Returns(ProviderErrorMessage(data.error.value, data.errorDetails)))
        else if data.newsResults.None? then Finished(Raises(KeyError("news_results")))
        else if |data.newsResults.value| == 0 then Finished(Returns(NoNewsMessage(name)))
        else Found(data.newsResults.value)
  }

  // ---------------------------------------------------------------------------
  // Items and the fallback digest

  /** An item with the defaults of lines 121-129 filled in. */
  datatype DigestItem = DigestItem(title: string, snippet: string, date: string, link: Option<string>)

  function Normalized(itm: NewsItem): DigestItem {
    DigestItem(itm.title.GetOr("No title"), itm.snippet.GetOr("No snippet available."),
               itm.date.GetOr("Unknown date"), itm.link)
  }

  function Items(results: seq<NewsItem>): (items: seq<DigestItem>)
    ensures |items| == |results|
  {
    seq(|results|, i requires 0 <= i < |results| => Normalized(results[i]))
  }

  function Bullet(i: nat, it: DigestItem): string {
    NatToStr(i) + ". " + it.title + " (" + it.date + ")\n   " + it.snippet
  }

  /** One bullet per item, numbered from 1 in the items' order. */
  function BulletLines(items: seq<DigestItem>): (bs: seq<string>)
    ensures |bs| == |items|
  {
    seq(|items|, i requires 0 <= i < |items| => Bullet(i + 1, items[i]))
  }

  /** The bullet lines joined: '' exactly when there are no items, otherwise opening with bullet 1. */
  function Bullets(items: seq<DigestItem>): (r: string)
    ensures |r| == 0 <==> |items| == 0
    ensures |items| > 0 ==> var b := Bullet(1, items[0]); |b| <= |r| && r[..|b|] == b
  {
    Join("\n", BulletLines(items))
  }

  /** The failure detail first, then the bullets of every item, not only the first few. */
  function FallbackDigest(detail: string, items: seq<DigestItem>): (r: string)
    ensures var head := "Summary generation failed: " + detail; |head| <= |r| && r[..|head|] == head
    ensures var b := Bullets(items); |b| <= |r| && r[|r| - |b|..] == b
  {
    "Summary generation failed: " + detail + "\n\nHere are the raw top " + NatToStr(|items|)
    + " items:\n\n" + Bullets(items)
  }

  /** Every bullet shows the result's own fields, or the default for a missing one. */
  lemma BulletsUseDefaults(results: seq<NewsItem>, i: nat)
    requires i < |results|
    ensures BulletLines(Items(results))[i]
            == NatToStr(i + 1) + ". "
               + (if results[i].title.Some? then results[i].title.value else "No title")
               + " (" + (if results[i].date.Some? then results[i].date.value else "Unknown date")
               + ")\n   "
               + (if results[i].snippet.Some? then results[i].snippet.value else "No snippet available.")
  {
  }

  /** One more item adds exactly one line to the digest, numbered one past the last. */
  lemma BulletsSnoc(items: seq<DigestItem>, it: DigestItem)
    requires |items| > 0
    ensures Bullets(items + [it]) == Bullets(items) + "\n" + Bullet(|items| + 1, it)
  {
    assert BulletLines(items + [it]) == BulletLines(items) + [Bullet(|items| + 1, it)];
    JoinSnoc("\n", BulletLines(items), Bullet(|items| + 1, it));
  }

  // ---------------------------------------------------------------------------
  // Summarizing

  /** What the language model call does: answer, or raise. */
  datatype Completion = Reply(content: string) | LlmRaised(detail: string)

  /** What crawl_text returns for each item's link, in result order. */
  function CrawlAll(items: seq<DigestItem>, fetch: Option<string> -> Crawl.Page): (rs: seq<Crawl.CrawlResult>)
    ensures |rs| == |items|
  {
    seq(|items|, i requires 0 <= i < |items| => Crawl.Crawled(fetch(items[i].link)))
  }

  /**
   * The crawl loop of lines 133-141 as written. Its first iteration reads
   * `count` (at line 139 after a useful crawl, at line 140 otherwise), a name
   * bound nowhere in the module, so it raises NameError.
   */
  function CrawlLoopAsWritten(crawls: seq<Crawl.CrawlResult>, fullText: string): Result
  {
    if |crawls| == 0 then Completed(fullText)
    else if crawls[0].success && |crawls[0].text| > 0 then Interrupted(NameError("count"))
    else Interrupted(NameError("count"))
  }

  datatype Result = Completed(fullText: string) | Interrupted(error: Exception)

  /** Lines 143-154: the model's answer, or the digest of every item when the call raises. */
  function SummaryOrFallback(name: string, fullText: string, items: seq<DigestItem>,
                             summarize: (string, string) -> Completion): Outcome
  {
    match summarize(name, fullText)
    case Reply(content) => Returns(content)
    case LlmRaised(detail) => Returns(FallbackDigest(detail, items))
  }

  /** fetch_and_summarize exactly as written. */
  function FetchAndSummarizeAsWritten(apiKey: Option<string>, name: string, dateValue: Option<int>,
                                      dateUnit: Option<string>, search: Params -> SearchReply,
                                      fetch: Option<string> -> Crawl.Page,
                                      summarize: (string, string) -> Completion): (o: Outcome)
    ensures var st := SearchNews(apiKey, name, dateValue, dateUnit, search); st.Finished? ==> o == st.outcome
    ensures o.Returns? ==> SearchNews(apiKey, name, dateValue, dateUnit, search).Finished?
  {
    match SearchNews(apiKey, name, dateValue, dateUnit, search)
    case Finished(o) => o
    case Found(results) =>
      var items := Items(results);
      match CrawlLoopAsWritten(CrawlAll(items, fetch), "")
      case Interrupted(e) => Raises(e)
      case Completed(fullText) => SummaryOrFallback(name, fullText, items, summarize)
  }

  /**
   * As written, every search that finds news ends in NameError: neither the
   * summary nor the fallback digest is ever returned.
   */
  lemma AsWrittenAlwaysRaisesOnResults(apiKey: Option<string>, name: string, dateValue: Option<int>,
                                       dateUnit: Option<string>, search: Params -> SearchReply,
                                       fetch: Option<string> -> Crawl.Page,
                                       summarize: (string, string) -> Completion)
    requires SearchNews(apiKey, name, dateValue, dateUnit, search).Found?
    ensures FetchAndSummarizeAsWritten(apiKey, name, dateValue, dateUnit, search, fetch, summarize)
            == Raises(NameError("count"))
  {
    var results := SearchNews(apiKey, name, dateValue, dateUnit, search).results;
    assert |CrawlAll(Items(results), fetch)| > 0;
  }

  /**
   * fetch_and_summarize with the crawl loop replaced by combine_texts, the
   * working aggregator with its cap of five texts.
   */
  function FetchAndSummarize(apiKey: Option<string>, name: string, dateValue: Option<int>,
                             dateUnit: Option<string>, search: Params -> SearchReply,
                             fetch: Option<string> -> Crawl.Page,
                             summarize: (string, string) -> Completion): (o: Outcome)
    ensures var st := SearchNews(apiKey, name, dateValue, dateUnit, search); st.Finished? ==> o == st.outcome
    ensures o.Raises? ==> SearchNews(apiKey, name, dateValue, dateUnit, search).Finished?
  {
    match SearchNews(apiKey, name, dateValue, dateUnit, search)
    case Finished(o) => o
    case Found(results) =>
      var items := Items(results);
      SummaryOrFallback(name, Aggregate.Combined(CrawlAll(items, fetch)), items, summarize)
  }

  /**
   * With the loop corrected, every search that finds news returns: the model's
   * answer on the aggregated context, or the fallback digest of all items.
   */
  lemma CorrectedReturnsOnResults(apiKey: Option<string>, name: string, dateValue: Option<int>,
                                  dateUnit: Option<string>, search: Params -> SearchReply,
                                  fetch: Option<string> -> Crawl.Page,
                                  summarize: (string, string) -> Completion)
    requires SearchNews(apiKey, name, dateValue, dateUnit, search).Found?
    ensures var results := SearchNews(apiKey, name, dateValue, dateUnit, search).results;
            var items := Items(results);
            var context := Aggregate.Combined(CrawlAll(items, fetch));
            var o := FetchAndSummarize(apiKey, name, dateValue, dateUnit, search, fetch, summarize);
            && o.Returns?
            && (summarize(name, context).Reply? ==> o.text == summarize(name, context).content)
            && (summarize(name, context).LlmRaised? ==> o.text == FallbackDigest(summarize(name, context).detail, items))
  {
  }

  /** A rejected query returns its message whatever the search, the pages and the model would do. */
  lemma RejectedQueryMakesNoCalls(apiKey: Option<string>, name: string, dateValue: Option<int>,
                                  dateUnit: Option<string>,
                                  search1: Params -> SearchReply, search2: Params -> SearchReply,
                                  fetch1: Option<string> -> Crawl.Page, fetch2: Option<string> -> Crawl.Page,
                                  summarize1: (string, string) -> Completion,
                                  summarize2: (string, string) -> Completion)
    requires BuildQuery(apiKey, name, dateValue, dateUnit).Rejected?
    ensures FetchAndSummarize(apiKey, name, dateValue, dateUnit, search1, fetch1, summarize1)
            == Returns(BuildQuery(apiKey, name, dateValue, dateUnit).message)
    ensures FetchAndSummarize(apiKey, name, dateValue, dateUnit, search1, fetch1, summarize1)
            == FetchAndSummarize(apiKey, name, dateValue, dateUnit, search2, fetch2, summarize2)
  {
  }

  /** An accepted query is the only thing asked of the search client. */
  lemma OnlyTheBuiltQueryIsSearched(apiKey: Option<string>, name: string, dateValue: Option<int>,
                                    dateUnit: Option<string>,
                                    search1: Params -> SearchReply, search2: Params -> SearchReply,
                                    fetch: Option<string> -> Crawl.Page,
                                    summarize: (string, string) -> Completion)
    requires BuildQuery(apiKey, name, dateValue, dateUnit).Accepted?
    requires search1(BuildQuery(apiKey, name, dateValue, dateUnit).params)
             == search2(BuildQuery(apiKey, name, dateValue, dateUnit).params)
    ensures FetchAndSummarize(apiKey, name, dateValue, dateUnit, search1, fetch, summarize)
            == FetchAndSummarize(apiKey, name, dateValue, dateUnit, search2, fetch, summarize)
  {
  }

  /** A provider error is reported with its detail, and is never taken for an empty result. */
  lemma ProviderErrorReported(apiKey: Option<string>, name: string, dateValue: Option<int>,
                              dateUnit: Option<string>, search: Params -> SearchReply,
                              fetch: Option<string> -> Crawl.Page,
                              summarize: (string, string) -> Completion)
    requires BuildQuery(apiKey, name, dateValue, dateUnit).Accepted?
    requires var reply := search(BuildQuery(apiKey, name, dateValue, dateUnit).params);
             reply.Data? && reply.data.error.Some?
    ensures var data := search(BuildQuery(apiKey, name, dateValue, dateUnit).params).data;
            var o := FetchAndSummarize(apiKey, name, dateValue, dateUnit, search, fetch, summarize);
            && o == Returns(ProviderErrorMessage(data.error.value, data.errorDetails))
            && o != Returns(NoNewsMessage(name))
  {
    var data := search(BuildQuery(apiKey, name, dateValue, dateUnit).params).data;
    assert ProviderErrorMessage(data.error.value, data.errorDetails)[0] == 'S';
    assert NoNewsMessage(name)[0] == 'N';
  }

  /**
   * A search that raises leaves `data` unbound and a reply without
   * "news_results" fails the lookup: both raise, in either variant, before
   * any page is fetched.
   */
  lemma SearchFailuresRaise(apiKey: Option<string>, name: string, dateValue: Option<int>,
                            dateUnit: Option<string>, search: Params -> SearchReply,
                            fetch: Option<string> -> Crawl.Page,
                            summarize: (string, string) -> Completion)
    requires BuildQuery(apiKey, name, dateValue, dateUnit).Accepted?
    ensures var reply := search(BuildQuery(apiKey, name, dateValue, dateUnit).params);
            var o := FetchAndSummarize(apiKey, name, dateValue, dateUnit, search, fetch, summarize);
            && (reply.SearchRaised? ==> o == Raises(UnboundLocalError("data")))
            && (reply.Data? && reply.data.error.None? && reply.data.newsResults.None?
                ==> o == Raises(KeyError("news_results")))
            && (reply.SearchRaised? || (reply.data.error.None? && reply.data.newsResults.None?)
                ==> o == FetchAndSummarizeAsWritten(apiKey, name, dateValue, dateUnit, search, fetch, summarize))
  {
  }

  /** An empty, error-free result list gives the no-news message. */
  lemma EmptyResultsReported(apiKey: Option<string>, name: string, dateValue: Option<int>,
                             dateUnit: Option<string>, search: Params -> SearchReply,
                             fetch: Option<string> -> Crawl.Page,
                             summarize: (string, string) -> Completion)
    requires BuildQuery(apiKey, name, dateValue, dateUnit).Accepted?
    requires var reply := search(BuildQuery(apiKey, name, dateValue, dateUnit).params);
             reply.Data? && reply.data.error.None? && reply.data.newsResults == Some([])
    ensures FetchAndSummarize(apiKey, name, dateValue, dateUnit, search, fetch, summarize)
            == Returns(NoNewsMessage(name))
  {
  }

  /**
   * The fallback digest is built from the search results alone: when the
   * model call raises, what the pages yielded makes no difference.
   */
  lemma FallbackIgnoresCrawls(apiKey: Option<string>, name: string, dateValue: Option<int>,
                              dateUnit: Option<string>, search: Params -> SearchReply,
                              fetch1: Option<string> -> Crawl.Page, fetch2: Option<string> -> Crawl.Page,
                              summarize: (string, string) -> Completion, detail: string)
    requires SearchNews(apiKey, name, dateValue, dateUnit, search).Found?
    requires forall context :: summarize(name, context) == LlmRaised(detail)
    ensures FetchAndSummarize(apiKey, name, dateValue, dateUnit, search, fetch1, summarize)
            == FetchAndSummarize(apiKey, name, dateValue, dateUnit, search, fetch2, summarize)
            == Returns(FallbackDigest(detail, Items(SearchNews(apiKey, name, dateValue, dateUnit, search).results)))
  {
  }
}
