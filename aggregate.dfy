/**
 * combine_texts: walk the crawl results of the search links in order, keep
 * every successful non-empty text as a block labelled "Text k", and stop as
 * soon as five blocks were kept. The crawl of each link is an input: the
 * i-th CrawlResult is what crawl_text returned for the i-th link.
 */
module Aggregate {
  import opened Builtins
  import opened Crawl

  /** The most blocks the aggregated context holds. */
  const Cap: nat := 5

  /** A crawl that contributes a block: it succeeded and its text is not ''. */
  predicate Contributes(r: CrawlResult) {
    r.success && |r.text| > 0
  }

  /** A link contributes exactly when its page was fetched and some paragraph or heading has visible text. */
  lemma CrawledContributes(page: Page)
    ensures Contributes(Crawled(page))
            <==> page.Fetched? && exists i :: 0 <= i < |page.doc| && GetText(page.doc[i]) != ""
  {
    if page.Fetched? {
      ExtractTextEmpty(page.doc);
    }
  }

  /** The texts of the contributing crawls, in link order: at most one per link, none of them ''. */
  function GoodTexts(rs: seq<CrawlResult>): (ts: seq<string>)
    ensures |ts| <= |rs|
    ensures "" !in ts
  {
    if |rs| == 0 then []
    else GoodTexts(rs[..|rs| - 1]) + (if Contributes(rs[|rs| - 1]) then [rs[|rs| - 1].text] else [])
  }

  /** The block for the k-th kept text. */
  function Block(k: nat, t: string): string {
    "Text " + NatToStr(k) + "\n" + t + "\n"
  }

  /** The blocks for the kept texts ts, labelled 1, 2, ..., |ts| in order. */
  function Labelled(ts: seq<string>): (bs: seq<string>)
    ensures |bs| == |ts|
  {
    seq(|ts|, i requires 0 <= i < |ts| => Block(i + 1, ts[i]))
  }

  /** The texts that make it into the context: the first Cap contributing ones. */
  function Included(rs: seq<CrawlResult>): seq<string> {
    var g := GoodTexts(rs);
    g[..Min(Cap, |g|)]
  }

  /** The aggregated context combine_texts returns; a non-empty one opens with the block labelled 1. */
  function Combined(rs: seq<CrawlResult>): (r: string)
    ensures |r| == 0 || (7 <= |r| && r[..7] == "Text 1\n")
  {
    var ks := Included(rs);
    assert |ks| > 0 ==> Labelled(ks)[0] == Block(1, ks[0]) && NatToStr(1) == "1";
    Concat(Labelled(ks))
  }

  lemma GoodTextsSnoc(rs: seq<CrawlResult>, r: CrawlResult)
    ensures GoodTexts(rs + [r]) == GoodTexts(rs) + (if Contributes(r) then [r.text] else [])
  {
    assert (rs + [r])[..|rs|] == rs;
  }

  /** Filtering commutes with splitting the link list. */
  lemma {:induction false} GoodTextsAppend(a: seq<CrawlResult>, b: seq<CrawlResult>)
    ensures GoodTexts(a + b) == GoodTexts(a) + GoodTexts(b)
    decreases |b|
  {
    if |b| == 0 {
      assert a + b == a;
    } else {
      var init, last := b[..|b| - 1], b[|b| - 1];
      var tail := if Contributes(last) then [last.text] else [];
      assert b == init + [last];
      assert a + b == (a + init) + [last];
      GoodTextsSnoc(a + init, last);
      GoodTextsSnoc(init, last);
      GoodTextsAppend(a, init);
      calc {
        GoodTexts(a + b);
        GoodTexts(a + init) + tail;
        (GoodTexts(a) + GoodTexts(init)) + tail;
        GoodTexts(a) + (GoodTexts(init) + tail);
        GoodTexts(a) + GoodTexts(b);
      }
    }
  }

  /** A failed or empty crawl anywhere changes nothing: neither the count nor the text. */
  lemma SkipNonContributing(a: seq<CrawlResult>, r: CrawlResult, b: seq<CrawlResult>)
    requires !Contributes(r)
    ensures GoodTexts(a + [r] + b) == GoodTexts(a + b)
    ensures Combined(a + [r] + b) == Combined(a + b)
  {
    GoodTextsAppend(a + [r], b);
    GoodTextsSnoc(a, r);
    GoodTextsAppend(a, b);
  }

  /** The positions of the contributing crawls, in link order. */
  function GoodPositions(rs: seq<CrawlResult>): seq<nat> {
    if |rs| == 0 then []
    else GoodPositions(rs[..|rs| - 1]) + (if Contributes(rs[|rs| - 1]) then [|rs| - 1] else [])
  }

  /**
   * The kept texts are the texts at the contributing positions: one per
   * position, in the same order.
   */
  lemma {:induction false} GoodTextsAtPositions(rs: seq<CrawlResult>)
    ensures |GoodPositions(rs)| == |GoodTexts(rs)|
    ensures forall j :: 0 <= j < |GoodPositions(rs)| ==>
              GoodPositions(rs)[j] < |rs| && Contributes(rs[GoodPositions(rs)[j]])
              && GoodTexts(rs)[j] == rs[GoodPositions(rs)[j]].text
    decreases |rs|
  {
    if |rs| > 0 {
      var n := |rs| - 1;
      var init := rs[..n];
      GoodTextsAtPositions(init);
      var ps0, g0 := GoodPositions(init), GoodTexts(init);
      var ps, g := GoodPositions(rs), GoodTexts(rs);
      assert ps == ps0 + (if Contributes(rs[n]) then [n] else []);
      assert g == g0 + (if Contributes(rs[n]) then [rs[n].text] else []);
      forall j | 0 <= j < |ps|
        ensures ps[j] < |rs| && Contributes(rs[ps[j]]) && g[j] == rs[ps[j]].text
      {
        if j < |ps0| {
          assert ps[j] == ps0[j] && g[j] == g0[j];
          assert init[ps0[j]] == rs[ps0[j]];
        }
      }
    }
  }

  /** The positions strictly increase: the kept texts keep the links' order. */
  lemma {:induction false} GoodPositionsIncrease(rs: seq<CrawlResult>)
    ensures forall j :: 0 <= j < |GoodPositions(rs)| ==> GoodPositions(rs)[j] < |rs|
    ensures forall j, k :: 0 <= j < k < |GoodPositions(rs)| ==> GoodPositions(rs)[j] < GoodPositions(rs)[k]
    decreases |rs|
  {
    if |rs| > 0 {
      var n := |rs| - 1;
      GoodPositionsIncrease(rs[..n]);
      var ps0 := GoodPositions(rs[..n]);
      assert GoodPositions(rs) == ps0 + (if Contributes(rs[n]) then [n] else []);
    }
  }

  /** Every contributing crawl has its position listed: no useful text is skipped. */
  lemma {:induction false} GoodPositionsComplete(rs: seq<CrawlResult>)
    ensures forall i :: 0 <= i < |rs| && Contributes(rs[i]) ==> i in GoodPositions(rs)
    decreases |rs|
  {
    if |rs| > 0 {
      var n := |rs| - 1;
      var init := rs[..n];
      GoodPositionsComplete(init);
      var ps0 := GoodPositions(init);
      assert GoodPositions(rs) == ps0 + (if Contributes(rs[n]) then [n] else []);
      forall i | 0 <= i < |rs| && Contributes(rs[i])
        ensures i in GoodPositions(rs)
      {
        if i < n {
          assert init[i] == rs[i];
        }
      }
    }
  }

  /** Nothing is kept exactly when no crawl contributes. */
  lemma GoodTextsEmpty(rs: seq<CrawlResult>)
    ensures GoodTexts(rs) == [] <==> forall i :: 0 <= i < |rs| ==> !Contributes(rs[i])
  {
    GoodTextsAtPositions(rs);
    GoodPositionsComplete(rs);
    if GoodTexts(rs) != [] {
      var p := GoodPositions(rs)[0];
      assert Contributes(rs[p]);
    }
  }

  lemma LabelledSnoc(ts: seq<string>, t: string)
    ensures Labelled(ts + [t]) == Labelled(ts) + [Block(|ts| + 1, t)]
  {
  }

  /** The context is '' exactly when no crawl succeeded with a non-empty text. */
  lemma CombinedEmpty(rs: seq<CrawlResult>)
    ensures Combined(rs) == "" <==> forall i :: 0 <= i < |rs| ==> !Contributes(rs[i])
  {
    GoodTextsEmpty(rs);
    var bs := Labelled(Included(rs));
    ConcatEmpty(bs);
    if |bs| > 0 {
      assert |bs[0]| > 0;
    }
  }

  /** Once Cap texts are kept, whatever the later links yield does not matter. */
  lemma LaterLinksIgnored(a: seq<CrawlResult>, b1: seq<CrawlResult>, b2: seq<CrawlResult>)
    requires |GoodTexts(a)| >= Cap
    ensures Combined(a + b1) == Combined(a + b2)
  {
    GoodTextsAppend(a, b1);
    GoodTextsAppend(a, b2);
    assert Included(a + b1) == GoodTexts(a)[..Cap] == Included(a + b2);
  }

  /** What one more link adds: its text, as the next block, exactly when it contributes. */
  lemma CombineStep(rs: seq<CrawlResult>, i: nat)
    requires i < |rs|
    ensures !Contributes(rs[i]) ==> GoodTexts(rs[..i + 1]) == GoodTexts(rs[..i])
    ensures Contributes(rs[i]) ==> GoodTexts(rs[..i + 1]) == GoodTexts(rs[..i]) + [rs[i].text]
    ensures Contributes(rs[i]) ==>
              Concat(Labelled(GoodTexts(rs[..i + 1])))
              == Concat(Labelled(GoodTexts(rs[..i]))) + Block(|GoodTexts(rs[..i])| + 1, rs[i].text)
  {
    var kept := GoodTexts(rs[..i]);
    TakeSnoc(rs, i);
    GoodTextsSnoc(rs[..i], rs[i]);
    if !Contributes(rs[i]) {
      assert GoodTexts(rs[..i]) + [] == GoodTexts(rs[..i]);
    } else {
      LabelledSnoc(kept, rs[i].text);
      ConcatSnoc(Labelled(kept), Block(|kept| + 1, rs[i].text));
    }
  }

  /** Where the walk stops, what it kept is the first min(Cap, #contributing) texts. */
  lemma CombineExit(rs: seq<CrawlResult>, i: nat)
    requires i <= |rs| && |GoodTexts(rs[..i])| <= Cap
    requires i == |rs| || |GoodTexts(rs[..i])| == Cap
    ensures var n := |GoodTexts(rs[..i])|;
            n == Min(Cap, |GoodTexts(rs)|) && GoodTexts(rs[..i]) == GoodTexts(rs)[..n]
  {
    assert rs == rs[..i] + rs[i..];
    GoodTextsAppend(rs[..i], rs[i..]);
  }

  /**
   * combine_texts, also giving the final count and how many links it crawled.
   * The blocks are the first min(Cap, #contributing) texts, labelled 1..count;
   * the walk stops right after the Cap-th contributing link and otherwise
   * visits every link.
   */
  method CombineTexts(results: seq<CrawlResult>) returns (fullText: string, count: nat, visited: nat)
    ensures count == Min(Cap, |GoodTexts(results)|)
    ensures fullText == Concat(Labelled(GoodTexts(results)[..count]))
    ensures fullText == Combined(results)
    ensures visited <= |results|
    ensures GoodTexts(results[..visited]) == GoodTexts(results)[..count]
    ensures count == Cap ==> 0 < visited && Contributes(results[visited - 1])
    ensures count < Cap ==> visited == |results|
  {
    count := 0;
    fullText := "";
    var i := 0;
    while i < |results|
      invariant 0 <= i <= |results|
      invariant count == |GoodTexts(results[..i])| < Cap
      invariant fullText == Concat(Labelled(GoodTexts(results[..i])))
    {
      var r := results[i];
      CombineStep(results, i);
      if r.success && r.text != "" {
        count := count + 1;
        fullText := fullText + Block(count, r.text);
      }
      i := i + 1;
      if count == Cap {
        break;
      }
    }
    visited := i;
    CombineExit(results, i);
  }
}
