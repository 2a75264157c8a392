/**
 * app.py: the single-file server. Its crawler (sequential, stopping at the first
 * page that fails), the region rules over its own tables, and the endpoints that
 * rebuild or edit the item database: toggle_item, fix_regions, import_data and
 * refresh_data. The database read and write, Nominatim and the clock are not
 * modelled: the database is a parameter and a result, the geocoder a function.
 */
module ServerApp {
  import opened Common
  import opened Strings
  import opened Catalog
  import opened Regions
  import opened Crawler
  import opened ServerCommon

  /** `apply_region_logic` on an item, over app.py's own tables. */
  function AppRegion(t: Tables, item: Item): string
  {
    ApplyRegionLogic(t.places, t.keywords, item.searchLocation, item.name)
  }

  // ---------------------------------------------------------------- crawler

  /** app.py's crawler knows no socks category: tag, else plush, else other. */
  function AppCategory(name: string): string
  {
    if Contains(name, TagWord) then "tag"
    else if Contains(name, PlushWord) then "plush"
    else "other"
  }

  /** The two crawlers agree on categories except that socks are "other" here; so the
      priority is tag > plush > other. */
  lemma AppCategoryWithoutSocks(name: string)
    ensures AppCategory(name) == (if Category(name) == "socks" then "other" else Category(name))
    ensures AppCategory(name) == "tag" <==> Contains(name, TagWord)
    ensures AppCategory(name) == "plush" <==> !Contains(name, TagWord) && Contains(name, PlushWord)
    ensures AppCategory(name) == "other" <==> !Contains(name, TagWord) && !Contains(name, PlushWord)
  {
  }

  /** One link, as services/crawler.py reads it but with app.py's categories. */
  function AppExtractItem(t: Tables, l: Link): (r: Option<CrawledItem>)
    ensures r.None? <==> LinkName(l) == ""
  {
    match ExtractItem(t.keywords, l)
    case None => None
    case Some(it) => Some(it.(category := AppCategory(it.name)))
  }

  /** The item of a link has the name, address, region and category the rules give it. */
  lemma AppExtractItemFields(t: Tables, l: Link)
    ensures AppExtractItem(t, l).Some? ==>
      var it := AppExtractItem(t, l).value;
      && it.name == LinkName(l) && it.image == ImageUrl(l.href)
      && it.region == CrawlRegion(t.keywords, it.name)
      && it.category == AppCategory(it.name)
  {
  }

  function AppEmitted(t: Tables, l: Link): seq<CrawledItem>
  {
    match AppExtractItem(t, l)
    case None => []
    case Some(it) => [it]
  }

  function AppExtracted(t: Tables, links: seq<Link>): seq<CrawledItem>
  {
    if |links| == 0 then [] else AppExtracted(t, links[..|links| - 1]) + AppEmitted(t, links[|links| - 1])
  }

  lemma AppExtractedStep(t: Tables, links: seq<Link>, i: nat)
    requires i < |links|
    ensures AppExtracted(t, links[..i + 1]) == AppExtracted(t, links[..i]) + AppEmitted(t, links[i])
  {
    assert links[..i + 1][..i] == links[..i];
  }

  /** The items one page contributes: those of the links processed before any exception. */
  function AppPageItems(t: Tables, f: PageFetch): seq<CrawledItem>
  {
    if f.Served? && f.status == 200 then AppExtracted(t, f.links[..Processed(f.links, f.raisesAfter)]) else []
  }

  /** The sequential crawl goes on after a page only if it answered 200 with links and
      no exception interrupted it. */
  predicate Continues(f: PageFetch)
  {
    f.Served? && f.status == 200 && |f.links| > 0 && Processed(f.links, f.raisesAfter) == |f.links|
  }

  /** The crawl over the remaining pages, in page order, up to and including the first
      page after which it stops. */
  function AppCrawl(t: Tables, fetches: seq<PageFetch>): seq<CrawledItem>
  {
    if |fetches| == 0 then []
    else AppPageItems(t, fetches[0]) + (if Continues(fetches[0]) then AppCrawl(t, fetches[1..]) else [])
  }

  /** Nothing fetched after a page that stops the crawl matters. */
  lemma {:induction false} PagesAfterStopIgnored(t: Tables, fetches: seq<PageFetch>, p: nat, later: seq<PageFetch>)
    requires p < |fetches| && !Continues(fetches[p])
    ensures AppCrawl(t, fetches[..p + 1] + later) == AppCrawl(t, fetches)
  {
    if p > 0 {
      assert (fetches[..p + 1] + later)[1..] == fetches[1..][..p] + later;
      PagesAfterStopIgnored(t, fetches[1..], p - 1, later);
      assert (fetches[..p + 1] + later)[0] == fetches[0];
    } else {
      assert (fetches[..1] + later)[0] == fetches[0];
    }
  }

  /** Each page's items, in page order. */
  function PagesOf(t: Tables, fetches: seq<PageFetch>): (pages: seq<seq<CrawledItem>>)
    ensures |pages| == |fetches|
  {
    if |fetches| == 0 then [] else PagesOf(t, fetches[..|fetches| - 1]) + [AppPageItems(t, fetches[|fetches| - 1])]
  }

  /** When every page answers in full, the crawl is all the pages' items in page order. */
  lemma {:induction false} UninterruptedCrawl(t: Tables, fetches: seq<PageFetch>)
    requires forall p :: 0 <= p < |fetches| ==> Continues(fetches[p])
    ensures AppCrawl(t, fetches) == Flatten(PagesOf(t, fetches))
    decreases |fetches|
  {
    if |fetches| > 0 {
      var n := |fetches| - 1;
      var init, last := fetches[..n], fetches[n];
      assert forall p :: 0 <= p < |init| ==> init[p] == fetches[p];
      UninterruptedCrawl(t, init);
      AppCrawlSnoc(t, init, last);
      InitLast(fetches);
      var pages := PagesOf(t, fetches);
      assert pages == PagesOf(t, init) + [AppPageItems(t, last)];
      assert pages[..n] == PagesOf(t, init);
      calc {
        Flatten(pages);
        Flatten(pages[..n]) + pages[n];
        Flatten(PagesOf(t, init)) + AppPageItems(t, last);
        AppCrawl(t, init) + AppPageItems(t, last);
        AppCrawl(t, fetches);
      }
    }
  }

  lemma {:induction false} AppCrawlSnoc(t: Tables, fetches: seq<PageFetch>, f: PageFetch)
    requires forall p :: 0 <= p < |fetches| ==> Continues(fetches[p])
    ensures AppCrawl(t, fetches + [f]) == AppCrawl(t, fetches) + AppPageItems(t, f)
    decreases |fetches|
  {
    if |fetches| == 0 {
      assert [f][1..] == [];
    } else {
      assert (fetches + [f])[0] == fetches[0];
      assert (fetches + [f])[1..] == fetches[1..] + [f];
      AppCrawlSnoc(t, fetches[1..], f);
      AppendAssoc(AppPageItems(t, fetches[0]), AppCrawl(t, fetches[1..]), AppPageItems(t, f));
    }
  }

  /** One step of the page loop: the crawl from `page` on is this page's items, then,
      if the crawl continues, the crawl from the next page on. */
  lemma AppCrawlUnfold(t: Tables, fetches: seq<PageFetch>, page: nat)
    requires page < |fetches|
    ensures AppCrawl(t, fetches[page..]) ==
      AppPageItems(t, fetches[page]) + (if Continues(fetches[page]) then AppCrawl(t, fetches[page + 1..]) else [])
  {
    assert fetches[page..][0] == fetches[page] && fetches[page..][1..] == fetches[page + 1..];
  }

  /** The body of app.py's page loop for one page: the items it appends and whether the
      loop goes on to the next page. */
  method AppFetchPage(t: Tables, f: PageFetch) returns (items: seq<CrawledItem>, more: bool)
    ensures items == AppPageItems(t, f)
    ensures more == Continues(f)
  {
    items := [];
    if f.Unreachable? || f.status != 200 || |f.links| == 0 {
      if f.Served? && f.status == 200 {
        assert f.links[..Processed(f.links, f.raisesAfter)] == [];
      }
      return items, false;
    }
    var links := f.links;
    var stop := Processed(links, f.raisesAfter);
    var i := 0;
    while i < stop
      invariant 0 <= i <= stop
      invariant items == AppExtracted(t, links[..i])
    {
      AppExtractedStep(t, links, i);
      match AppExtractItem(t, links[i]) {
        case None =>
        case Some(it) => items := items + [it];
      }
      i := i + 1;
    }
    more := stop == |links|;
  }

  /** app.py `run_crawler`: pages 1..10 one after another, stopping at the first page
      that raises, does not answer 200 or has no links. */
  method AppRunCrawler(t: Tables, fetches: seq<PageFetch>) returns (all: seq<CrawledItem>)
    requires |fetches| == PageCount
    ensures all == AppCrawl(t, fetches)
  {
    all := [];
    var page := 0;
    assert fetches[0..] == fetches;
    while page < PageCount
      invariant 0 <= page <= PageCount
      invariant all + AppCrawl(t, fetches[page..]) == AppCrawl(t, fetches)
    {
      AppCrawlUnfold(t, fetches, page);
      var items, more := AppFetchPage(t, fetches[page]);
      AppendAssoc(all, items, if more then AppCrawl(t, fetches[page + 1..]) else []);
      all := all + items;
      if !more {
        break;
      }
      page := page + 1;
    }
  }

  // ---------------------------------------------------------------- toggle_item

  /** Index of the first item whose id equals the requested one; a request without an
      id matches nothing. */
  function FirstWithId(s: seq<Item>, target: Option<int>): (r: Option<nat>)
    ensures r.Some? ==> r.value < |s|
  {
    if target.None? || |s| == 0 then None
    else if s[0].id == target.value then Some(0)
    else match FirstWithId(s[1..], target)
      case None => None
      case Some(i) => Some(i + 1)
  }

  /** No item is found exactly when the request has no id or no item carries it;
      otherwise the first item carrying it is found. */
  lemma {:induction false} FirstWithIdFirst(s: seq<Item>, target: Option<int>)
    ensures FirstWithId(s, target).None? <==> target.None? || forall i :: 0 <= i < |s| ==> s[i].id != target.value
    ensures FirstWithId(s, target).Some? ==>
      var r := FirstWithId(s, target).value;
      && target.Some? && s[r].id == target.value
      && forall j :: 0 <= j < r ==> s[j].id != target.value
  {
    if target.Some? && |s| > 0 && s[0].id != target.value {
      FirstWithIdFirst(s[1..], target);
      assert forall i :: 1 <= i < |s| ==> s[i] == s[1..][i - 1];
    }
  }

  /** The database after `toggle_item`. */
  function Toggled(s: seq<Item>, target: Option<int>): (t: seq<Item>)
    ensures |t| == |s|
  {
    match FirstWithId(s, target)
    case None => s
    case Some(i) => s[i := s[i].(owned := !s[i].owned)]
  }

  /** `toggle_item` changes nothing but the ownership flag, and flips it on the first
      item with the requested id and on no other. */
  lemma ToggledOnlyFirst(s: seq<Item>, target: Option<int>)
    ensures forall i :: 0 <= i < |s| ==> Toggled(s, target)[i].(owned := s[i].owned) == s[i]
    ensures forall i :: 0 <= i < |s| ==>
      (Toggled(s, target)[i].owned != s[i].owned <==> FirstWithId(s, target) == Some(i))
  {
  }

  /** A request whose id no item carries leaves the database as it was. */
  lemma ToggleMissingId(s: seq<Item>, target: Option<int>)
    requires target.None? || forall i :: 0 <= i < |s| ==> s[i].id != target.value
    ensures Toggled(s, target) == s
  {
    FirstWithIdFirst(s, target);
  }

  /** Toggling the same id twice restores the database. */
  lemma ToggleTwice(s: seq<Item>, target: Option<int>)
    ensures Toggled(Toggled(s, target), target) == s
  {
    var t := Toggled(s, target);
    assert forall i :: 0 <= i < |s| ==> t[i].id == s[i].id;
    assert FirstWithId(t, target) == FirstWithId(s, target) by {
      FirstWithIdIgnoresOwned(s, t, target);
    }
  }

  lemma {:induction false} FirstWithIdIgnoresOwned(s: seq<Item>, t: seq<Item>, target: Option<int>)
    requires |s| == |t| && forall i :: 0 <= i < |s| ==> t[i].id == s[i].id
    ensures FirstWithId(t, target) == FirstWithId(s, target)
  {
    if target.Some? && |s| > 0 && s[0].id != target.value {
      FirstWithIdIgnoresOwned(s[1..], t[1..], target);
    }
  }

  /** `toggle_item`, in place on the loaded list. */
  method ToggleItem(items: array<Item>, target: Option<int>)
    modifies items
    ensures items[..] == Toggled(old(items[..]), target)
  {
    FirstWithIdFirst(items[..], target);
    var i := 0;
    while i < items.Length
      invariant 0 <= i <= items.Length
      invariant items[..] == old(items[..])
      invariant target.Some? ==> forall j :: 0 <= j < i ==> items[j].id != target.value
    {
      if target.Some? && items[i].id == target.value {
        items[i] := items[i].(owned := !items[i].owned);
        return;
      }
      i := i + 1;
    }
  }

  // ---------------------------------------------------------------- fix_regions

  /** The database after `fix_regions`: every region recomputed, nothing else touched. */
  function AppFixedAll(t: Tables, s: seq<Item>): (r: seq<Item>)
    ensures |r| == |s|
  {
    seq(|s|, i requires 0 <= i < |s| => s[i].(region := AppRegion(t, s[i])))
  }

  /** `fix_regions` touches no field but the region, and leaves every region as the rules
      compute it from the item's search location and name. */
  lemma AppFixedOnlyRegions(t: Tables, s: seq<Item>)
    ensures forall i :: 0 <= i < |s| ==> AppFixedAll(t, s)[i].(region := s[i].region) == s[i]
    ensures forall i :: 0 <= i < |s| ==>
      AppFixedAll(t, s)[i].region == ApplyRegionLogic(t.places, t.keywords, s[i].searchLocation, s[i].name)
  {
  }

  /** A second `fix_regions` changes nothing: its `updated` count is 0. */
  lemma AppFixIdempotent(t: Tables, s: seq<Item>)
    ensures AppFixedAll(t, AppFixedAll(t, s)) == AppFixedAll(t, s)
    ensures ChangedCount(AppFixedAll(t, s), AppFixedAll(t, AppFixedAll(t, s))) == 0
  {
    var once := AppFixedAll(t, s);
    assert forall i :: 0 <= i < |once| ==> AppRegion(t, once[i]) == AppRegion(t, s[i]);
    ChangedCountZero(once, AppFixedAll(t, once));
  }

  /** One iteration of the `fix_regions` loop: only `items[i]` may change, and only its
      region, to the recomputed one; the answer says whether it changed. */
  method FixItem(t: Tables, items: array<Item>, i: nat) returns (changed: bool)
    requires i < items.Length
    modifies items
    ensures items[..] == old(items[..])[i := old(items[i]).(region := AppRegion(t, old(items[i])))]
    ensures changed <==> items[i] != old(items[i])
  {
    var newRegion := AppRegion(t, items[i]);
    if newRegion != "" && newRegion != items[i].region {
      items[i] := items[i].(region := newRegion);
      return true;
    }
    ApplyRegionLogicResult(t.places, t.keywords, items[i].searchLocation, items[i].name);
    return false;
  }

  /** `fix_regions`: recomputes each region in place and counts the items it changed. */
  method FixRegions(t: Tables, items: array<Item>) returns (updated: nat)
    modifies items
    ensures items[..] == AppFixedAll(t, old(items[..]))
    ensures updated == ChangedCount(old(items[..]), items[..])
  {
    ghost var before := items[..];
    ghost var target := AppFixedAll(t, before);
    updated := 0;
    for i := 0 to items.Length
      invariant forall j :: 0 <= j < i ==> items[j] == target[j]
      invariant forall j :: i <= j < items.Length ==> items[j] == before[j]
      invariant updated == ChangedCount(before[..i], target[..i])
    {
      ChangedCountStep(before, target, i);
      var changed := FixItem(t, items, i);
      if changed {
        updated := updated + 1;
      }
    }
    assert items[..] == target;
    assert before[..items.Length] == before && target[..items.Length] == target;
  }

  // ---------------------------------------------------------------- import_data

  /** Result of `import_data`: 400 for a body that is not a list, 500 for a body that does
      not parse, otherwise the saved list and the number of successful geocodes. */
  datatype ImportResult = BadRequest | ServerError | Imported(saved: seq<Item>, geocoded: nat)

  /** The item keeps the old item's coordinates: same name, same stripped non-empty
      search location, and the old item has both coordinates. */
  predicate ReusesOld(item: Item, current: map<string, Item>)
  {
    var q := Strip(item.searchLocation);
    && q != "" && item.name in current
    && Strip(current[item.name].searchLocation) == q
    && current[item.name].lat.Some? && current[item.name].lng.Some?
  }

  predicate NeedsGeocode(item: Item, current: map<string, Item>)
  {
    Strip(item.searchLocation) != "" && !ReusesOld(item, current)
  }

  /** The geocoder was asked and found the place (a miss or an error leaves the item as is). */
  predicate Geocoded(item: Item, current: map<string, Item>, geocode: string -> Option<(real, real)>)
  {
    NeedsGeocode(item, current) && geocode(Strip(item.searchLocation)).Some?
  }

  /** One imported item. The region inherited on reuse is always replaced by the
      recomputed one. */
  function ImportOne(t: Tables, item: Item, current: map<string, Item>, geocode: string -> Option<(real, real)>): Item
  {
    var placed :=
      if ReusesOld(item, current) then
        var prev := current[item.name];
        item.(lat := prev.lat, lng := prev.lng,
              region := if item.region == Other && prev.region != Other then prev.region else item.region)
      else if Geocoded(item, current, geocode) then
        var p := geocode(Strip(item.searchLocation)).value;
        item.(lat := Some(p.0), lng := Some(p.1))
      else item;
    placed.(region := AppRegion(t, placed))
  }

  /** An imported item differs from the posted one only in its coordinates and region:
      reused from the old item, geocoded, or kept; its region is always recomputed. */
  lemma ImportOneRules(t: Tables, item: Item, current: map<string, Item>, geocode: string -> Option<(real, real)>)
    ensures var r := ImportOne(t, item, current, geocode);
      && r.(lat := item.lat, lng := item.lng, region := item.region) == item
      && r.region == AppRegion(t, item)
      && (ReusesOld(item, current) ==> r.lat == current[item.name].lat && r.lng == current[item.name].lng)
      && (Geocoded(item, current, geocode) ==>
            r.lat.Some? && r.lng.Some? && (r.lat.value, r.lng.value) == geocode(Strip(item.searchLocation)).value)
      && (!ReusesOld(item, current) && !Geocoded(item, current, geocode) ==> r.lat == item.lat && r.lng == item.lng)
  {
  }

  /** Reuse and geocoding exclude each other. */
  lemma ReuseMeansNoGeocoding(item: Item, current: map<string, Item>, geocode: string -> Option<(real, real)>)
    requires ReusesOld(item, current)
    ensures !Geocoded(item, current, geocode)
  {
  }

  function GeocodedCount(items: seq<Item>, current: map<string, Item>, geocode: string -> Option<(real, real)>): (n: nat)
    ensures n <= |items|
  {
    if |items| == 0 then 0
    else
      var last := if Geocoded(items[|items| - 1], current, geocode) then 1 else 0;
      GeocodedCount(items[..|items| - 1], current, geocode) + last
  }

  /** `import_data` against the database `currentDb`. */
  method ImportData(t: Tables, body: Body, currentDb: seq<Item>, geocode: string -> Option<(real, real)>)
      returns (r: ImportResult)
    ensures body.JsonOther? <==> r.BadRequest?
    ensures body.Unparsable? <==> r.ServerError?
    ensures body.JsonList? ==>
      && r.Imported? && |r.saved| == |body.items|
      && (forall i :: 0 <= i < |body.items| ==>
            r.saved[i] == ImportOne(t, body.items[i], IndexBy(currentDb, NameKey), geocode))
      && r.geocoded == GeocodedCount(body.items, IndexBy(currentDb, NameKey), geocode)
  {
    match body {
      case Unparsable => return ServerError;
      case JsonOther => return BadRequest;
      case JsonList(newItems) =>
        var current := IndexBy(currentDb, NameKey);
        var updatedItems: seq<Item> := [];
        var geocodedCount := 0;
        for i := 0 to |newItems|
          invariant |updatedItems| == i
          invariant forall j :: 0 <= j < i ==> updatedItems[j] == ImportOne(t, newItems[j], current, geocode)
          invariant geocodedCount == GeocodedCount(newItems[..i], current, geocode)
        {
          assert newItems[..i + 1][..i] == newItems[..i];
          if Geocoded(newItems[i], current, geocode) {
            geocodedCount := geocodedCount + 1;
          }
          var imported := ImportOne(t, newItems[i], current, geocode);
          ghost var prev := updatedItems;
          updatedItems := updatedItems + [imported];
          assert forall j :: 0 <= j < i ==> updatedItems[j] == prev[j];
        }
        assert newItems[..|newItems|] == newItems;
        return Imported(updatedItems, geocodedCount);
    }
  }

  // ---------------------------------------------------------------- refresh_data

  /** Emoji by category: plush, tag, anything else. */
  function AppEmoji(category: string): (e: string)
    ensures category == "plush" <==> e == "\U{1F9F8}"
    ensures category == "tag" <==> e == "\U{1F3F7}\U{FE0F}"
    ensures category != "plush" && category != "tag" <==> e == "\U{2728}"
  {
    if category == "plush" then "\U{1F9F8}"
    else if category == "tag" then "\U{1F3F7}\U{FE0F}"
    else "\U{2728}"
  }

  /** The old item of that name has a manual search location. */
  predicate HasManualLocation(name: string, existing: map<string, Item>)
  {
    name in existing && existing[name].searchLocation != ""
  }

  /** The manual location's old item lacks a coordinate: reading it raises and the
      request fails before anything is saved. */
  predicate LacksCoordinates(name: string, existing: map<string, Item>)
  {
    HasManualLocation(name, existing) && (existing[name].lat.None? || existing[name].lng.None?)
  }

  /** One rebuilt item: manual locations are kept (with the region recomputed from them),
      everything else is scattered around a spot or the region centre. */
  function AppRefreshOne(t: Tables, c: CrawledItem, id: int, existing: map<string, Item>, d: Draw): Item
    requires TablesValid(t)
  {
    var base := Item(id, c.name, c.image, "", c.category, c.region, None, None, "", false);
    var placed :=
      if HasManualLocation(c.name, existing) then
        var prev := existing[c.name];
        var manual := base.(lat := prev.lat, lng := prev.lng, searchLocation := prev.searchLocation);
        manual.(region := AppRegion(t, manual))
      else
        var p := Jittered(AutoAnchor(t.spots, t.regionCoords, c.name, c.region), d);
        base.(lat := Some(p.0), lng := Some(p.1));
    placed.(emoji := AppEmoji(c.category),
            owned := c.name in existing && existing[c.name].owned)
  }

  /** A rebuilt item carries the crawled fields, its id, the emoji of its category and the
      inherited ownership; a manual location is kept with its region recomputed, anything
      else is scattered around its anchor. */
  lemma RefreshOneRules(t: Tables, c: CrawledItem, id: int, existing: map<string, Item>, d: Draw)
    requires TablesValid(t)
    ensures var r := AppRefreshOne(t, c, id, existing, d);
      && r.id == id && r.name == c.name && r.image == c.image && r.category == c.category
      && r.emoji == AppEmoji(c.category)
      && r.owned == (c.name in existing && existing[c.name].owned)
      && (HasManualLocation(c.name, existing) ==>
            && r.lat == existing[c.name].lat && r.lng == existing[c.name].lng
            && r.searchLocation == existing[c.name].searchLocation
            && r.region == AppRegion(t, r))
      && (!HasManualLocation(c.name, existing) ==>
            && r.region == c.region && r.searchLocation == ""
            && r.lat.Some? && r.lng.Some?
            && (r.lat.value, r.lng.value) == Jittered(AutoAnchor(t.spots, t.regionCoords, c.name, c.region), d))
  {
  }

  /** An automatically placed item lands within half the spread of its anchor. */
  lemma AutoPlacementNearAnchor(t: Tables, c: CrawledItem, id: int, existing: map<string, Item>, d: Draw)
    requires !HasManualLocation(c.name, existing) && InUnitInterval(d)
    requires TablesValid(t)
    ensures var a := AutoAnchor(t.spots, t.regionCoords, c.name, c.region);
      var r := AppRefreshOne(t, c, id, existing, d);
      a.lat - a.spread / 2.0 <= r.lat.value <= a.lat + a.spread / 2.0
      && a.lng - a.spread / 2.0 <= r.lng.value <= a.lng + a.spread / 2.0
  {
    JitterWithinSpread(AutoAnchor(t.spots, t.regionCoords, c.name, c.region), d);
  }

  /** `refresh_data`: None when some item's manual location has no coordinates (the
      request fails and nothing is saved), otherwise the rebuilt list. */
  method RefreshData(t: Tables, crawled: seq<CrawledItem>, currentDb: seq<Item>, draws: seq<Draw>)
      returns (r: Option<seq<Item>>)
    requires TablesValid(t) && |draws| == |crawled|
    ensures r.None? <==> exists i :: 0 <= i < |crawled| && LacksCoordinates(crawled[i].name, IndexBy(currentDb, NameKey))
    ensures r.Some? ==>
      && |r.value| == |crawled|
      && forall i :: 0 <= i < |crawled| ==>
           r.value[i] == AppRefreshOne(t, crawled[i], i + 1, IndexBy(currentDb, NameKey), draws[i])
  {
    var existing := IndexBy(currentDb, NameKey);
    var updatedList: seq<Item> := [];
    var newId := 1;
    for i := 0 to |crawled|
      invariant newId == i + 1 && |updatedList| == i
      invariant forall j :: 0 <= j < i ==> !LacksCoordinates(crawled[j].name, existing)
      invariant forall j :: 0 <= j < i ==> updatedList[j] == AppRefreshOne(t, crawled[j], j + 1, existing, draws[j])
    {
      if LacksCoordinates(crawled[i].name, existing) {
        return None;
      }
      updatedList := updatedList + [AppRefreshOne(t, crawled[i], newId, existing, draws[i])];
      newId := newId + 1;
    }
    return Some(updatedList);
  }

  /** The rebuilt list numbers items 1..n in crawl order, sets emoji by category and
      inherits ownership by exact name. */
  lemma RefreshedListShape(t: Tables, crawled: seq<CrawledItem>, existing: map<string, Item>, draws: seq<Draw>, out: seq<Item>)
    requires TablesValid(t) && |draws| == |crawled| && |out| == |crawled|
    requires forall i :: 0 <= i < |crawled| ==> out[i] == AppRefreshOne(t, crawled[i], i + 1, existing, draws[i])
    ensures forall i :: 0 <= i < |out| ==>
      && out[i].id == i + 1 && out[i].name == crawled[i].name
      && out[i].emoji == AppEmoji(out[i].category)
      && out[i].owned == (out[i].name in existing && existing[out[i].name].owned)
  {
  }
}
