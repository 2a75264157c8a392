/**
 * services/crawler.py: turning the lightbox links of the catalog pages into
 * crawled items, page by page. The HTTP request and the HTML parsing are not
 * modelled: a page is what they deliver (a status and its links in document
 * order), and the region keyword table comes from services/location.py, which
 * is not part of this model, so it is a parameter.
 */
module Crawler {
  import opened Common
  import opened Strings
  import opened Catalog
  import opened Regions

  const Domain := "https://www.jp-api.com"

  /** `range(1, 11)`: pages 1 to 10. */
  const PageCount := 10

  /** An `<a class="lightbox">` element: its title attribute ("" when absent), the alt
      text of its `<img>` child (None without an img, "" for an img without alt), and
      its href ("" when absent). */
  datatype Link = Link(title: string, imgAlt: Option<string>, href: string)

  /** What fetching one page delivers: the request itself raised, or a response whose
      link loop an exception may interrupt after its first `raisesAfter` links
      (Some(k) with k >= |links|: after the loop). */
  datatype PageFetch =
    | Unreachable
    | Served(status: int, links: seq<Link>, raisesAfter: Option<nat>)

  /** A crawled item: exactly the four fields the crawler emits. */
  datatype CrawledItem = CrawledItem(name: string, image: string, region: string, category: string)

  /** The stripped title, else the stripped alt text of the image. */
  function LinkName(l: Link): string
  {
    var t := Strip(l.title);
    if t != "" then t else if l.imgAlt.Some? then Strip(l.imgAlt.value) else ""
  }

  /** A link's name is its stripped title when that is non-empty, otherwise its image's
      stripped alt text; it never starts or ends with whitespace. */
  lemma LinkNameRule(l: Link)
    ensures Strip(l.title) != "" ==> LinkName(l) == Strip(l.title)
    ensures Strip(l.title) == "" ==> LinkName(l) == (if l.imgAlt.Some? then Strip(l.imgAlt.value) else "")
    ensures LinkName(l) == "" || (!IsSpace(LinkName(l)[0]) && !IsSpace(LinkName(l)[|LinkName(l)| - 1]))
  {
    StripTrims(l.title);
    if l.imgAlt.Some? {
      StripTrims(l.imgAlt.value);
    }
  }

  /** A site-relative href is made absolute; any other href is kept. */
  function ImageUrl(href: string): (u: string)
    ensures StartsWith(u, Domain) || u == href
    ensures StartsWith(href, "/") <==> u != href
    ensures StartsWith(href, "/") ==> u == Domain + href
    ensures !StartsWith(href, "/") ==> u == href
  {
    if StartsWith(href, "/") then Domain + href else href
  }

  const TagWord := "ダイカットキーホルダー"
  const PlushWord := "ぬいぐるみキーチェーン"

  /** Category, by priority tag > plush > socks > other. */
  function Category(name: string): string
  {
    if Contains(name, TagWord) then "tag"
    else if Contains(name, PlushWord) then "plush"
    else if Contains(name, "ソックス") || Contains(name, "靴下") then "socks"
    else "other"
  }

  /** Each category holds exactly when its words occur and no higher-priority word does. */
  lemma CategoryPriority(name: string)
    ensures Category(name) == "tag" <==> Contains(name, TagWord)
    ensures Category(name) == "plush" <==> !Contains(name, TagWord) && Contains(name, PlushWord)
    ensures Category(name) == "socks" <==>
      && !Contains(name, TagWord) && !Contains(name, PlushWord)
      && (Contains(name, "ソックス") || Contains(name, "靴下"))
    ensures Category(name) == "other" <==>
      && !Contains(name, TagWord) && !Contains(name, PlushWord)
      && !Contains(name, "ソックス") && !Contains(name, "靴下")
  {
  }

  /** The first region in table order with a keyword in the name, else "other". */
  function CrawlRegion(keywords: seq<(string, seq<string>)>, name: string): string
  {
    match FirstAnyIn(keywords, name)
    case None => Other
    case Some(i) => keywords[i].0
  }

  /** The region is that of the first table entry with a keyword in the name, and
      "other" when no entry has one. */
  lemma CrawlRegionFirstMatch(keywords: seq<(string, seq<string>)>, name: string)
    ensures (forall i :: 0 <= i < |keywords| ==> !ContainsAny(name, keywords[i].1)) ==> CrawlRegion(keywords, name) == Other
    ensures forall i ::
      (&& 0 <= i < |keywords| && ContainsAny(name, keywords[i].1)
       && (forall j :: 0 <= j < i ==> !ContainsAny(name, keywords[j].1)))
      ==> CrawlRegion(keywords, name) == keywords[i].0
  {
    FirstAnyInFirst(keywords, name);
  }

  /** One link: skipped when it has no name, otherwise an item built from it. */
  function ExtractItem(keywords: seq<(string, seq<string>)>, l: Link): (r: Option<CrawledItem>)
    ensures r.None? <==> LinkName(l) == ""
  {
    var name := LinkName(l);
    if name == "" then None
    else Some(CrawledItem(name, ImageUrl(l.href), CrawlRegion(keywords, name), Category(name)))
  }

  /** What one link appends to the page's items: nothing, or its item. */
  function Emitted(keywords: seq<(string, seq<string>)>, l: Link): seq<CrawledItem>
  {
    match ExtractItem(keywords, l)
    case None => []
    case Some(it) => [it]
  }

  /** The items of a run of links, in link order. */
  function Extracted(keywords: seq<(string, seq<string>)>, links: seq<Link>): seq<CrawledItem>
  {
    if |links| == 0 then [] else Extracted(keywords, links[..|links| - 1]) + Emitted(keywords, links[|links| - 1])
  }

  /** Processing one more link appends what it emits. */
  lemma ExtractedStep(keywords: seq<(string, seq<string>)>, links: seq<Link>, i: nat)
    requires i < |links|
    ensures Extracted(keywords, links[..i + 1]) == Extracted(keywords, links[..i]) + Emitted(keywords, links[i])
  {
    assert links[..i + 1][..i] == links[..i];
  }

  /** Number of links that carry no name. */
  function Nameless(links: seq<Link>): nat
  {
    if |links| == 0 then 0
    else Nameless(links[..|links| - 1]) + (if LinkName(links[|links| - 1]) == "" then 1 else 0)
  }

  /** How many links of a page are processed: all of them, or those before the exception. */
  function Processed(links: seq<Link>, raisesAfter: Option<nat>): (n: nat)
    ensures n <= |links|
  {
    if raisesAfter.Some? && raisesAfter.value < |links| then raisesAfter.value else |links|
  }

  /** `fetch_page`: a non-200 or unreachable page gives nothing; otherwise the items of
      the links processed before any exception. */
  function PageItems(keywords: seq<(string, seq<string>)>, fetch: PageFetch): seq<CrawledItem>
  {
    match fetch
    case Unreachable => []
    case Served(status, links, raisesAfter) =>
      if status != 200 then [] else Extracted(keywords, links[..Processed(links, raisesAfter)])
  }

  /** Concatenation in order. */
  function Flatten<T>(pages: seq<seq<T>>): seq<T>
  {
    if |pages| == 0 then [] else Flatten(pages[..|pages| - 1]) + pages[|pages| - 1]
  }

  /** Exactly the links without a name are skipped. */
  lemma {:induction false} ExtractedCount(keywords: seq<(string, seq<string>)>, links: seq<Link>)
    ensures |Extracted(keywords, links)| + Nameless(links) == |links|
    ensures |Extracted(keywords, links)| <= |links|
  {
    if |links| > 0 {
      ExtractedCount(keywords, links[..|links| - 1]);
    }
  }

  /** A crawled item with a non-empty name that neither starts nor ends with whitespace,
      and the region and category its name determines. */
  predicate WellFormed(keywords: seq<(string, seq<string>)>, it: CrawledItem)
  {
    && it.name != "" && !IsSpace(it.name[0]) && !IsSpace(it.name[|it.name| - 1])
    && it.region == CrawlRegion(keywords, it.name) && it.category == Category(it.name)
  }

  /** The item of a single link is well formed. */
  lemma ExtractItemWellFormed(keywords: seq<(string, seq<string>)>, l: Link)
    ensures ExtractItem(keywords, l).Some? ==> WellFormed(keywords, ExtractItem(keywords, l).value)
  {
    LinkNameRule(l);
  }

  /** Every crawled item is well formed and built from one of the links. */
  lemma {:induction false} ExtractedItemsWellFormed(keywords: seq<(string, seq<string>)>, links: seq<Link>)
    ensures forall it :: it in Extracted(keywords, links) ==>
      WellFormed(keywords, it) && exists l :: l in links && ExtractItem(keywords, l) == Some(it)
  {
    if |links| > 0 {
      var init := links[..|links| - 1];
      var last := links[|links| - 1];
      ExtractedItemsWellFormed(keywords, init);
      ExtractItemWellFormed(keywords, last);
      assert Extracted(keywords, links) == Extracted(keywords, init) + Emitted(keywords, last);
      forall it | it in Extracted(keywords, links)
        ensures WellFormed(keywords, it) && exists l :: l in links && ExtractItem(keywords, l) == Some(it)
      {
        if it in Extracted(keywords, init) {
          var l :| l in init && ExtractItem(keywords, l) == Some(it);
          assert l in links;
        } else {
          assert it in Emitted(keywords, last);
          assert last in links;
        }
      }
    }
  }

  /** The items gathered before an exception are a prefix of the page's full item list. */
  lemma {:induction false} ExtractedPrefix(keywords: seq<(string, seq<string>)>, links: seq<Link>, k: nat)
    requires k <= |links|
    ensures Extracted(keywords, links[..k]) <= Extracted(keywords, links)
    decreases |links|
  {
    if k < |links| {
      var init := links[..|links| - 1];
      assert links[..k] == init[..k];
      ExtractedPrefix(keywords, init, k);
    } else {
      assert links[..k] == links;
    }
  }

  /** An exception part-way through a page keeps the items gathered before it: a prefix
      of what the uninterrupted page would give. */
  lemma PartialPageIsPrefix(keywords: seq<(string, seq<string>)>, links: seq<Link>, k: nat)
    ensures PageItems(keywords, Served(200, links, Some(k))) <= PageItems(keywords, Served(200, links, None))
  {
    assert links[..|links|] == links;
    ExtractedPrefix(keywords, links, Processed(links, Some(k)));
  }

  /** A page that could not be fetched or did not answer 200 yields nothing. */
  lemma PageItemsOfFailedPage(keywords: seq<(string, seq<string>)>, fetch: PageFetch)
    requires fetch.Unreachable? || fetch.status != 200
    ensures PageItems(keywords, fetch) == []
  {
  }

  /** `fetch_page` for one page. */
  method FetchPage(keywords: seq<(string, seq<string>)>, fetch: PageFetch) returns (items: seq<CrawledItem>)
    ensures items == PageItems(keywords, fetch)
    ensures |items| <= (if fetch.Served? then |fetch.links| else 0)
  {
    items := [];
    if fetch.Unreachable? || fetch.status != 200 {
      return;
    }
    var links := fetch.links;
    var stop := Processed(links, fetch.raisesAfter);
    var i := 0;
    while i < stop
      invariant 0 <= i <= stop
      invariant items == Extracted(keywords, links[..i])
    {
      ExtractedStep(keywords, links, i);
      match ExtractItem(keywords, links[i]) {
        case None =>
        case Some(it) => items := items + [it];
      }
      i := i + 1;
    }
    ExtractedCount(keywords, links[..stop]);
  }

  /** `run_crawler`: the pages are fetched (concurrently in the source) and their
      results concatenated in page order 1..10. */
  method RunCrawler(keywords: seq<(string, seq<string>)>, fetches: seq<PageFetch>)
      returns (all: seq<CrawledItem>)
    requires |fetches| == PageCount
    ensures all == Flatten(seq(PageCount, p requires 0 <= p < PageCount => PageItems(keywords, fetches[p])))
  {
    ghost var pages := seq(PageCount, p requires 0 <= p < PageCount => PageItems(keywords, fetches[p]));
    all := [];
    for p := 0 to PageCount
      invariant all == Flatten(pages[..p])
    {
      var res := FetchPage(keywords, fetches[p]);
      assert pages[..p + 1][..p] == pages[..p];
      all := all + res;
    }
    assert pages[..PageCount] == pages;
  }
}
