/**
 * crawl_text: fetch one article and keep the text of its paragraphs and
 * headings, or report why it could not. The network and the HTML parser are
 * abstracted: a Page is either the exception raised while fetching or
 * parsing, or the parsed document, already reduced to the elements that
 * `find_all(['p', 'h1', ..., 'h6'])` yields after script, style and meta
 * elements were removed.
 */
module Crawl {
  import opened Builtins

  /** The exceptions crawl_text can meet, by their class in the requests library. */
  datatype Fault =
    | HTTPError(detail: string)              // raise_for_status on a 4xx or 5xx reply
    | ConnectionError(detail: string)        // also ProxyError and SSLError, its subclasses
    | ConnectTimeout(detail: string)         // a subclass of both ConnectionError and Timeout
    | ReadTimeout(detail: string)            // a subclass of Timeout only
    | OtherRequestException(detail: string)  // MissingSchema, InvalidURL, TooManyRedirects, ...
    | OtherException(detail: string)         // anything raised while parsing the page

  /** The except clauses of crawl_text. */
  datatype Handler = OnHTTPError | OnConnectionError | OnTimeout | OnRequestException | OnException

  /** The clauses in the order they are written; Python tries them in this order. */
  const Handlers: seq<Handler> := [OnHTTPError, OnConnectionError, OnTimeout, OnRequestException, OnException]

  /** isinstance(f, the class that h names) */
  predicate Catches(h: Handler, f: Fault) {
    match h
    case OnHTTPError => f.HTTPError?
    case OnConnectionError => f.ConnectionError? || f.ConnectTimeout?
    case OnTimeout => f.ConnectTimeout? || f.ReadTimeout?
    case OnRequestException => !f.OtherException?
    case OnException => true
  }

  /** The position of the clause that handles f: the first one that catches it. */
  function FirstCatching(hs: seq<Handler>, f: Fault): (k: nat)
    requires |hs| > 0 && hs[|hs| - 1] == OnException
    ensures k < |hs| && Catches(hs[k], f)
    ensures forall j :: 0 <= j < k ==> !Catches(hs[j], f)
  {
    if Catches(hs[0], f) then 0 else 1 + FirstCatching(hs[1..], f)
  }

  /** The message each clause returns; `detail` stands for str(e). */
  function HandlerMessage(h: Handler, f: Fault): string {
    match h
    case OnHTTPError => "HTTP error occurred: " + f.detail
    case OnConnectionError => "Failed to connect to the server"
    case OnTimeout => "Request timed out"
    case OnRequestException => "An error occurred while fetching the page: " + f.detail
    case OnException => "An error occurred while parsing the page: " + f.detail
  }

  function FaultMessage(f: Fault): string {
    HandlerMessage(Handlers[FirstCatching(Handlers, f)], f)
  }

  /** The message for every kind of fault, with the first matching clause deciding. */
  lemma FaultMessages(d: string)
    ensures FaultMessage(HTTPError(d)) == "HTTP error occurred: " + d
    ensures FaultMessage(ConnectionError(d)) == "Failed to connect to the server"
    ensures FaultMessage(ConnectTimeout(d)) == "Failed to connect to the server"
    ensures FaultMessage(ReadTimeout(d)) == "Request timed out"
    ensures FaultMessage(OtherRequestException(d)) == "An error occurred while fetching the page: " + d
    ensures FaultMessage(OtherException(d)) == "An error occurred while parsing the page: " + d
  {
    assert Catches(Handlers[2], ReadTimeout(d));
    assert Catches(Handlers[3], OtherRequestException(d));
    assert FirstCatching(Handlers, ConnectTimeout(d)) == 1;
    assert FirstCatching(Handlers, ReadTimeout(d)) == 2;
    assert FirstCatching(Handlers, OtherRequestException(d)) == 3;
    assert FirstCatching(Handlers, OtherException(d)) == 4;
  }

  /** One element's text node strings, in document order. */
  type Element = seq<string>

  /** The paragraph and heading elements of a page, in document order. */
  type Document = seq<Element>

  datatype Page = Raised(fault: Fault) | Fetched(doc: Document)

  /**
   * element.get_text(strip=True): every text node stripped, then joined with
   * ''. The result never begins or ends with whitespace.
   */
  function GetText(e: Element): (r: string)
    ensures |r| == 0 || (!IsSpace(r[0]) && !IsSpace(r[|r| - 1]))
  {
    if |e| == 0 then "" else Strip(e[0]) + GetText(e[1..])
  }

  /** An element contributes nothing exactly when all of its text is whitespace. */
  lemma {:induction false} GetTextEmpty(e: Element)
    ensures GetText(e) == "" <==> forall i, j :: 0 <= i < |e| && 0 <= j < |e[i]| ==> IsSpace(e[i][j])
    decreases |e|
  {
    if e != [] {
      GetTextEmpty(e[1..]);
      assert forall i :: 1 <= i < |e| ==> e[i] == e[1..][i - 1];
    }
  }

  /** element.get_text(strip=True) for each element of the page, in document order. */
  function ElementTexts(doc: Document): (ts: seq<string>)
    ensures |ts| == |doc|
  {
    seq(|doc|, i requires 0 <= i < |doc| => GetText(doc[i]))
  }

  /** The element texts that are kept: the non-empty ones, in document order. */
  function Kept(ts: seq<string>): seq<string> {
    if |ts| == 0 then []
    else (if |ts[0]| == 0 then [] else [ts[0]]) + Kept(ts[1..])
  }

  /**
   * content_text after the loop has seen the element texts ts: '\n' + t for
   * every non-empty t, in order, nothing merged, reordered or deduplicated.
   */
  function Collected(ts: seq<string>): string {
    Concat(Prefixed("\n", Kept(ts)))
  }

  /**
   * The text crawl_text returns for a page it could fetch and parse: '' or
   * text that begins with the newline put before the first kept element.
   */
  function ExtractText(doc: Document): (r: string)
    ensures |r| == 0 || r[0] == '\n'
  {
    Collected(ElementTexts(doc))
  }

  lemma {:induction false} KeptAppend(a: seq<string>, b: seq<string>)
    ensures Kept(a + b) == Kept(a) + Kept(b)
    decreases |a|
  {
    if a != [] {
      assert (a + b)[1..] == a[1..] + b;
      KeptAppend(a[1..], b);
    } else {
      assert a + b == b;
    }
  }

  /** Every kept text is non-empty, and only empty texts are dropped. */
  lemma {:induction false} KeptEmpty(ts: seq<string>)
    ensures forall i :: 0 <= i < |Kept(ts)| ==> Kept(ts)[i] != ""
    ensures Kept(ts) == [] <==> forall i :: 0 <= i < |ts| ==> ts[i] == ""
    decreases |ts|
  {
    if ts != [] {
      KeptEmpty(ts[1..]);
      assert forall i :: 1 <= i < |ts| ==> ts[i] == ts[1..][i - 1];
    }
  }

  /** Collecting over a split list of texts is collecting over each part, in order. */
  lemma CollectedAppend(a: seq<string>, b: seq<string>)
    ensures Collected(a + b) == Collected(a) + Collected(b)
  {
    KeptAppend(a, b);
    PrefixedAppend("\n", Kept(a), Kept(b));
    ConcatAppend(Prefixed("\n", Kept(a)), Prefixed("\n", Kept(b)));
  }

  /** One loop step: a non-empty text adds a newline and the text, an empty one adds nothing. */
  lemma CollectedSnoc(ts: seq<string>, t: string)
    ensures Collected(ts + [t]) == Collected(ts) + (if t == "" then "" else "\n" + t)
  {
    CollectedAppend(ts, [t]);
    assert [t][1..] == [];
    if t == "" {
      assert Kept([t]) == [];
    } else {
      assert Kept([t]) == [t];
      assert Prefixed("\n", [t]) == ["\n" + t];
      assert Concat(["\n" + t]) == "\n" + t + Concat([]);
    }
  }

  /** Extraction of a page split in two is the extraction of each part, in order. */
  lemma ExtractTextAppend(a: Document, b: Document)
    ensures ExtractText(a + b) == ExtractText(a) + ExtractText(b)
  {
    ElementTextsAppend(a, b);
    CollectedAppend(ElementTexts(a), ElementTexts(b));
  }

  lemma ElementTextsAppend(a: Document, b: Document)
    ensures ElementTexts(a + b) == ElementTexts(a) + ElementTexts(b)
  {
    forall i | 0 <= i < |a + b|
      ensures ElementTexts(a + b)[i] == (ElementTexts(a) + ElementTexts(b))[i]
    {
      if i < |a| {
        assert (a + b)[i] == a[i];
      } else {
        assert (a + b)[i] == b[i - |a|];
      }
    }
  }

  /** A page yields '' exactly when none of its elements has visible text. */
  lemma ExtractTextEmpty(doc: Document)
    ensures ExtractText(doc) == "" <==> forall i :: 0 <= i < |doc| ==> GetText(doc[i]) == ""
  {
    var ts := ElementTexts(doc);
    KeptEmpty(ts);
    var ks := Kept(ts);
    ConcatEmpty(Prefixed("\n", ks));
    assert forall i :: 0 <= i < |doc| ==> ts[i] == GetText(doc[i]);
  }

  /** What crawl_text returns: the pair (success, text). */
  datatype CrawlResult = CrawlResult(success: bool, text: string)

  /** crawl_text(url) for the page that fetching url produced. */
  method CrawlText(page: Page) returns (success: bool, text: string)
    ensures success <==> page.Fetched?
    ensures success ==> text == ExtractText(page.doc)
    ensures !success ==> text == FaultMessage(page.fault)
    ensures CrawlResult(success, text) == Crawled(page)
  {
    match page
    case Raised(f) =>
      return false, FaultMessage(f);
    case Fetched(doc) =>
      var contentText := "";
      ghost var ts := ElementTexts(doc);
      var i := 0;
      while i < |doc|
        invariant 0 <= i <= |doc|
        invariant contentText == Collected(ts[..i])
      {
        var t := GetText(doc[i]);
        TakeSnoc(ts, i);
        CollectedSnoc(ts[..i], t);
        if t != "" {
          contentText := contentText + ("\n" + t);
        }
        i := i + 1;
      }
      assert ts[..i] == ts;
      return true, contentText;
  }

  /** The pair crawl_text returns for a page, as a value for callers that are functions. */
  function Crawled(page: Page): (r: CrawlResult)
    ensures r.success <==> page.Fetched?
    ensures !r.success ==> r.text != ""
  {
    match page
    case Raised(f) =>
      assert FirstCatching(Handlers, f) < 5;
      CrawlResult(false, FaultMessage(f))
    case Fetched(doc) => CrawlResult(true, ExtractText(doc))
  }
}
