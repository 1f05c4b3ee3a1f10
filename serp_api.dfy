/**
 * The shapes the two fetch_and_summarize variants exchange with the SerpAPI
 * client: the query parameters they build and the parts of the reply
 * dictionary they read. The client itself is not modelled; callers receive
 * it as a function from parameters to reply.
 */
module SerpApi {
  import opened Builtins

  /** A value of the params dict: the code stores strings and, for "num", an int. */
  datatype ParamValue = Str(s: string) | Int(i: int)

  type Params = map<string, ParamValue>

  /** One entry of "news_results"; a field is None when its key is absent. */
  datatype NewsItem = NewsItem(
    title: Option<string>,
    snippet: Option<string>,
    date: Option<string>,
    link: Option<string>)

  /** The keys of the get_dict() reply that the code reads; None when a key is absent. */
  datatype SearchData = SearchData(
    error: Option<string>,
    errorDetails: Option<string>,
    newsResults: Option<seq<NewsItem>>)

  /** What building the search and calling get_dict() did: raised, or gave a reply. */
  datatype SearchReply = SearchRaised(detail: string) | Data(data: SearchData)
}
