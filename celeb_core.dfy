/**
 * fetch_and_summarize of celebnews/core.py: ask SerpAPI for `count` news
 * items about a name and render them as a plain numbered digest under a
 * "Top N items on name:" header. The search client is an input, a function
 * from the query parameters to what get_dict() gave or raised.
 */
module CelebCore {
  import opened Builtins
  import opened SerpApi

  const MissingKeyError: Exception := RuntimeError("Set SERPAPI_API_KEY in your environment.")

  function NoNewsMessage(name: string): string {
    "No recent news found for \U{201C}" + name + ".\U{201D}"
  }

  function QueryParams(name: string, apiKey: string, count: int): Params {
    map["engine" := Str("news"), "q" := Str(name), "api_key" := Str(apiKey), "num" := Int(count)]
  }

  /**
   * results[:count]: the first count items, or for a negative count all but
   * the last -count of them.
   */
  function Take(results: seq<NewsItem>, count: int): (r: seq<NewsItem>)
    ensures |r| <= |results| && r == results[..|r|]
    ensures count >= 0 ==> |r| == Min(count, |results|)
    ensures count < 0 ==> |r| == (if |results| + count > 0 then |results| + count else 0)
  {
    if count >= 0 then results[..Min(count, |results|)]
    else if |results| + count > 0 then results[..|results| + count]
    else []
  }

  /** f"{v}" for a value that item.get(key) returned: the string, or None. */
  function PyStr(v: Option<string>): string {
    if v.Some? then v.value else "None"
  }

  function Header(name: string, count: int, available: nat): string {
    "Top " + IntToStr(Min(count, available)) + " items on " + name + ":\n"
  }

  /** The line for the item numbered i. */
  function ItemLine(i: nat, item: NewsItem): string {
    NatToStr(i) + ". \U{201C}" + PyStr(item.title) + "\U{201D} (" + PyStr(item.date) + ")\n   "
    + PyStr(item.snippet) + "\n"
  }

  /** One line per item, numbered from 1 in order. */
  function ItemLines(shown: seq<NewsItem>): (ls: seq<string>)
    ensures |ls| == |shown|
  {
    seq(|shown|, i requires 0 <= i < |shown| => ItemLine(i + 1, shown[i]))
  }

  /** The header, then one line per item of results[:count], numbered from 1. */
  function DigestLines(name: string, count: int, results: seq<NewsItem>): (ls: seq<string>)
    ensures |ls| == 1 + |Take(results, count)|
  {
    [Header(name, count, |results|)] + ItemLines(Take(results, count))
  }

  /** The digest opens with the header; with nothing to show it is the header alone. */
  function Digest(name: string, count: int, results: seq<NewsItem>): (r: string)
    ensures var h := Header(name, count, |results|); |h| <= |r| && r[..|h|] == h
    ensures |Take(results, count)| == 0 ==> r == Header(name, count, |results|)
  {
    Join("\n", DigestLines(name, count, results))
  }

  /** Lines 19-25: the header and the numbered lines, built one item at a time, then joined. */
  method RenderDigest(name: string, count: int, results: seq<NewsItem>) returns (text: string)
    ensures text == Digest(name, count, results)
  {
    var shown := Take(results, count);
    ghost var all := DigestLines(name, count, results);
    var lines := [Header(name, count, |results|)];
    var i := 0;
    while i < |shown|
      invariant 0 <= i <= |shown|
      invariant lines == all[..i + 1]
    {
      var line := ItemLine(i + 1, shown[i]);
      assert all[i + 1] == line;
      TakeSnoc(all, i + 1);
      lines := lines + [line];
      i := i + 1;
    }
    assert all[..i + 1] == all;
    text := Join("\n", lines);
  }

  /**
   * What fetch_and_summarize returns or raises: it raises exactly for a
   * missing key or a failed search, and otherwise returns the no-news message
   * or a digest under its header.
   */
  function Summary(apiKey: Option<string>, name: string, count: int, search: Params -> SearchReply): (o: Outcome)
    ensures o.Raises?
            <==> apiKey.None? || apiKey.value == "" || search(QueryParams(name, apiKey.value, count)).SearchRaised?
    ensures o.Returns? ==> o.text == NoNewsMessage(name) || (|o.text| >= 4 && o.text[..4] == "Top ")
    ensures apiKey.Some? && apiKey.value != ""
            && search(QueryParams(name, apiKey.value, count)).Data?
            && |search(QueryParams(name, apiKey.value, count)).data.newsResults.GetOr([])| > 0
            ==> o == Returns(Digest(name, count, search(QueryParams(name, apiKey.value, count)).data.newsResults.value))
  {
    if apiKey.None? || |apiKey.value| == 0 then Raises(MissingKeyError)
    else
      match search(QueryParams(name, apiKey.value, count))
      case SearchRaised(d) => Raises(SearchFailure(d))
      case Data(data) =>
        var results := data.newsResults.GetOr([]);
        if |results| == 0 then Returns(NoNewsMessage(name))
        else Returns(Digest(name, count, results))
  }

  /** Lines 6-25. */
  method FetchAndSummarize(apiKey: Option<string>, name: string, count: int, search: Params -> SearchReply)
    returns (o: Outcome)
    ensures o == Summary(apiKey, name, count, search)
  {
    if apiKey.None? || |apiKey.value| == 0 {
      return Raises(MissingKeyError);
    }
    var reply := search(QueryParams(name, apiKey.value, count));
    match reply
    case SearchRaised(d) =>
      return Raises(SearchFailure(d));
    case Data(data) =>
      var results := data.newsResults.GetOr([]);
      if |results| == 0 {
        return Returns(NoNewsMessage(name));
      }
      var text := RenderDigest(name, count, results);
      return Returns(text);
  }

  /** The RuntimeError is raised exactly when the key is absent or empty, before any search. */
  lemma MissingKeyRaises(apiKey: Option<string>, name: string, count: int,
                         search1: Params -> SearchReply, search2: Params -> SearchReply)
    ensures Summary(apiKey, name, count, search1) == Raises(MissingKeyError)
            <==> apiKey.None? || apiKey.value == ""
    ensures apiKey.None? || apiKey.value == ""
            ==> Summary(apiKey, name, count, search1) == Summary(apiKey, name, count, search2)
  {
  }

  /** Whatever the search client raises propagates unchanged. */
  lemma SearchFailurePropagates(key: string, name: string, count: int, search: Params -> SearchReply)
    requires key != ""
    requires search(QueryParams(name, key, count)).SearchRaised?
    ensures Summary(Some(key), name, count, search)
            == Raises(SearchFailure(search(QueryParams(name, key, count)).detail))
  {
  }

  /** Only the query for (name, key, count) is asked of the search client. */
  lemma OnlyTheQueryIsSearched(key: string, name: string, count: int,
                               search1: Params -> SearchReply, search2: Params -> SearchReply)
    requires search1(QueryParams(name, key, count)) == search2(QueryParams(name, key, count))
    ensures Summary(Some(key), name, count, search1) == Summary(Some(key), name, count, search2)
  {
  }

  /**
   * A reply without news_results, an error reply included, is reported as
   * no news: this variant never looks at the "error" key.
   */
  lemma MissingResultsAreNoNews(key: string, name: string, count: int, search: Params -> SearchReply)
    requires key != ""
    requires var reply := search(QueryParams(name, key, count));
             reply.Data? && (reply.data.newsResults.None? || reply.data.newsResults == Some([]))
    ensures Summary(Some(key), name, count, search) == Returns(NoNewsMessage(name))
  {
  }

  /**
   * The digest text: the header, then for each shown item a newline and its
   * line, items in result order and numbered 1, 2, ...
   */
  lemma DigestText(name: string, count: int, results: seq<NewsItem>)
    ensures Digest(name, count, results)
            == Header(name, count, |results|) + Concat(Prefixed("\n", ItemLines(Take(results, count))))
  {
    JoinAsConcat("\n", Header(name, count, |results|), ItemLines(Take(results, count)));
  }

  /** For a count of zero or more, the header's number is exactly the number of item lines. */
  lemma HeaderCountsLines(name: string, count: int, results: seq<NewsItem>)
    requires count >= 0
    ensures var n := |DigestLines(name, count, results)| - 1;
            && n == Min(count, |results|)
            && DigestLines(name, count, results)[0] == "Top " + NatToStr(n) + " items on " + name + ":\n"
  {
  }

  /** Line k describes the k-th result, numbered k; only the first count results appear. */
  lemma DigestLinesInOrder(name: string, count: int, results: seq<NewsItem>, k: nat)
    requires 1 <= k < |DigestLines(name, count, results)|
    ensures k <= |results| && (count >= 0 ==> k <= count)
    ensures DigestLines(name, count, results)[k] == ItemLine(k, results[k - 1])
  {
  }

  /**
   * A negative count reaches the header as a negative number, while the
   * lines drop the last -count results.
   */
  lemma NegativeCount(name: string, count: int, results: seq<NewsItem>)
    requires count < 0
    ensures DigestLines(name, count, results)[0] == "Top " + IntToStr(count) + " items on " + name + ":\n"
    ensures IntToStr(count)[0] == '-'
    ensures |DigestLines(name, count, results)| - 1 == (if |results| + count > 0 then |results| + count else 0)
  {
  }

  /** Results after the first count are never read: they cannot change the digest. */
  lemma LaterResultsUnread(name: string, count: int, results1: seq<NewsItem>, results2: seq<NewsItem>)
    requires 0 <= count <= |results1| && count <= |results2|
    requires results1[..count] == results2[..count]
    ensures Digest(name, count, results1) == Digest(name, count, results2)
  {
    assert Take(results1, count) == Take(results2, count);
    assert DigestLines(name, count, results1) == DigestLines(name, count, results2);
  }
}
