/**
 * routes.py: the blueprint server's endpoints that rebuild or edit the public
 * database: refresh (crawl merged with the old database, a correction table
 * overriding everything), fix_regions and import_public_data. The database, the
 * crawler run and the random draws are parameters and results; the region rule,
 * the correction table and the coordinate tables live in services/location.py,
 * which is not part of this model, so they are parameters too.
 */
module ServerRoutes {
  import opened Common
  import opened Strings
  import opened Catalog
  import opened Crawler
  import opened ServerCommon

  /** A `LOCATION_CORRECTIONS` entry: the coordinates and region a place is forced to. */
  datatype Correction = Correction(lat: real, lng: real, region: string)

  /** What services/location.py provides: `apply_region_logic` on an item, the spot and
      region centres, and the correction table keyed by search location. */
  datatype Env = Env(
    applyRegion: Item -> string,
    spots: seq<(string, (real, real))>,
    regionCoords: seq<(string, (real, real))>,
    corrections: map<string, Correction>)

  /** `REGION_COORDS["其他"]` exists (it is read on every automatic placement). */
  predicate EnvValid(e: Env)
  {
    Lookup(e.regionCoords, Other).Some?
  }

  // ---------------------------------------------------------------- refresh_data

  /** The loop that builds `existing_map`: each old item under its key, a later item
      replacing an earlier one with the same key. */
  method BuildExistingMap(oldItems: seq<Item>) returns (m: map<string, Item>)
    ensures m == IndexBy(oldItems, RoutesKey)
  {
    m := map[];
    for i := 0 to |oldItems|
      invariant m == IndexBy(oldItems[..i], RoutesKey)
    {
      assert oldItems[..i + 1][..i] == oldItems[..i];
      m := m[RoutesKey(oldItems[i]) := oldItems[i]];
    }
    assert oldItems[..|oldItems|] == oldItems;
  }

  /** Emoji by category, socks included. */
  function RoutesEmoji(category: string): (e: string)
  {
    if category == "plush" then "\U{1F9F8}"
    else if category == "tag" then "\U{1F3F7}\U{FE0F}"
    else if category == "socks" then "\U{1F9E6}"
    else "\U{2728}"
  }

  /** Each of the four emoji belongs to exactly one category case. */
  lemma RoutesEmojiByCategory(category: string)
    ensures category == "plush" <==> RoutesEmoji(category) == "\U{1F9F8}"
    ensures category == "tag" <==> RoutesEmoji(category) == "\U{1F3F7}\U{FE0F}"
    ensures category == "socks" <==> RoutesEmoji(category) == "\U{1F9E6}"
    ensures category != "plush" && category != "tag" && category != "socks" <==> RoutesEmoji(category) == "\U{2728}"
  {
  }

  /** The search location a crawled item ends up with before placement: crawled items
      carry none, so it is the old item's when one has the same key. */
  function InheritedLocation(key: string, existing: map<string, Item>): string
  {
    if key in existing then existing[key].searchLocation else ""
  }

  /** The location has an entry in the correction table. */
  predicate Corrected(e: Env, loc: string)
  {
    loc != "" && loc in e.corrections
  }

  /** Without a correction, an old item with the same key and a manual search location
      passes its placement on. */
  predicate Inherits(e: Env, key: string, existing: map<string, Item>)
  {
    && !Corrected(e, InheritedLocation(key, existing))
    && key in existing && existing[key].searchLocation != ""
  }

  /** The item as copied from the crawl, with its id and the inherited search location. */
  function Fresh(c: CrawledItem, idx: nat, existing: map<string, Item>): Item
  {
    Item(idx + 1, c.name, c.image, "", c.category, c.region, None, None,
         InheritedLocation(ServerKey(c.image, c.name), existing), false)
  }

  /** The anchor of automatic placement: after the region is recomputed, the first spot
      in the name, else the centre of the new region (or of "other"). */
  function AutoTarget(e: Env, base: Item): Anchor
    requires EnvValid(e)
  {
    AutoAnchor(e.spots, e.regionCoords, base.name, e.applyRegion(base))
  }

  /** One rebuilt item, or None when the inherited old item lacks a coordinate (reading
      it raises and the whole request fails). */
  function RoutesRefreshOne(e: Env, c: CrawledItem, idx: nat, existing: map<string, Item>, d: Draw): Option<Item>
    requires EnvValid(e)
  {
    var key := ServerKey(c.image, c.name);
    var base := Fresh(c, idx, existing);
    var placed :=
      if Corrected(e, base.searchLocation) then
        var k := e.corrections[base.searchLocation];
        Some(base.(lat := Some(k.lat), lng := Some(k.lng), region := k.region))
      else if Inherits(e, key, existing) then
        var prev := existing[key];
        if prev.lat.None? || prev.lng.None? then None
        else Some(base.(lat := prev.lat, lng := prev.lng, searchLocation := prev.searchLocation,
                        region := if prev.region != "" then prev.region else base.region))
      else
        var p := Jittered(AutoTarget(e, base), d);
        Some(base.(region := e.applyRegion(base), lat := Some(p.0), lng := Some(p.1)));
    match placed
    case None => None
    case Some(it) => Some(it.(emoji := RoutesEmoji(c.category)))
  }

  /** The request fails at an item exactly when, without a correction, it inherits from an
      old item that lacks a coordinate. */
  lemma RoutesRefreshOneFails(e: Env, c: CrawledItem, idx: nat, existing: map<string, Item>, d: Draw)
    requires EnvValid(e)
    ensures var key := ServerKey(c.image, c.name);
      RoutesRefreshOne(e, c, idx, existing, d).None? <==>
        Inherits(e, key, existing) && (existing[key].lat.None? || existing[key].lng.None?)
  {
  }

  /** Every rebuilt item keeps its crawled name, image and category, gets id `idx + 1`
      and the emoji of its category, and carries no ownership flag. */
  lemma RoutesRefreshOneShape(e: Env, c: CrawledItem, idx: nat, existing: map<string, Item>, d: Draw)
    requires EnvValid(e)
    ensures var r := RoutesRefreshOne(e, c, idx, existing, d);
      r.Some? ==>
        && r.value.id == idx + 1 && r.value.name == c.name && r.value.image == c.image
        && r.value.category == c.category && r.value.emoji == RoutesEmoji(c.category)
        && !r.value.owned
  {
    var key := ServerKey(c.image, c.name);
    var base := Fresh(c, idx, existing);
    if Corrected(e, base.searchLocation) {
    } else if Inherits(e, key, existing) {
    } else {
      var p := Jittered(AutoTarget(e, base), d);
      assert RoutesRefreshOne(e, c, idx, existing, d)
        == Some(base.(region := e.applyRegion(base), lat := Some(p.0), lng := Some(p.1), emoji := RoutesEmoji(c.category)));
    }
  }

  /** A correction entry for the (inherited) search location fixes coordinates and region,
      whatever the old database holds. */
  lemma CorrectionWins(e: Env, c: CrawledItem, idx: nat, existing: map<string, Item>, d: Draw)
    requires EnvValid(e)
    requires Corrected(e, InheritedLocation(ServerKey(c.image, c.name), existing))
    ensures var loc := InheritedLocation(ServerKey(c.image, c.name), existing);
      var r := RoutesRefreshOne(e, c, idx, existing, d);
      && r.Some? && r.value.searchLocation == loc
      && r.value.lat == Some(e.corrections[loc].lat) && r.value.lng == Some(e.corrections[loc].lng)
      && r.value.region == e.corrections[loc].region
  {
  }

  /** Without a correction, an old item with a manual location passes on its coordinates,
      its location and its region (the crawled one when it has none). */
  lemma InheritanceBeatsAutomatic(e: Env, c: CrawledItem, idx: nat, existing: map<string, Item>, d: Draw)
    requires EnvValid(e)
    requires Inherits(e, ServerKey(c.image, c.name), existing)
    requires var prev := existing[ServerKey(c.image, c.name)]; prev.lat.Some? && prev.lng.Some?
    ensures var prev := existing[ServerKey(c.image, c.name)];
      var r := RoutesRefreshOne(e, c, idx, existing, d);
      && r.Some? && r.value.lat == prev.lat && r.value.lng == prev.lng
      && r.value.searchLocation == prev.searchLocation
      && r.value.region == (if prev.region != "" then prev.region else c.region)
  {
  }

  /** Otherwise the region is recomputed and the item is scattered within half the spread
      of its anchor. */
  lemma AutomaticOtherwise(e: Env, c: CrawledItem, idx: nat, existing: map<string, Item>, d: Draw)
    requires EnvValid(e) && InUnitInterval(d)
    requires !Corrected(e, InheritedLocation(ServerKey(c.image, c.name), existing))
    requires !Inherits(e, ServerKey(c.image, c.name), existing)
    ensures var base := Fresh(c, idx, existing);
      var a := AutoTarget(e, base);
      var r := RoutesRefreshOne(e, c, idx, existing, d);
      && r.Some? && r.value.region == e.applyRegion(base)
      && r.value.lat.Some? && r.value.lng.Some?
      && a.lat - a.spread / 2.0 <= r.value.lat.value <= a.lat + a.spread / 2.0
      && a.lng - a.spread / 2.0 <= r.value.lng.value <= a.lng + a.spread / 2.0
  {
    JitterWithinSpread(AutoTarget(e, Fresh(c, idx, existing)), d);
  }

  /** The body of the refresh loop for one crawled item, updating the copy field by field. */
  method RefreshItem(e: Env, c: CrawledItem, idx: nat, existing: map<string, Item>, d: Draw)
      returns (r: Option<Item>)
    requires EnvValid(e)
    ensures r == RoutesRefreshOne(e, c, idx, existing, d)
  {
    var finalItem := Item(idx + 1, c.name, c.image, "", c.category, c.region, None, None, "", false);
    var key := ServerKey(finalItem.image, finalItem.name);
    var hasManualLocation := false;
    var loc := finalItem.searchLocation;
    if loc == "" && key in existing {
      loc := existing[key].searchLocation;
      finalItem := finalItem.(searchLocation := loc);
    }
    assert finalItem == Fresh(c, idx, existing);
    if loc != "" && loc in e.corrections {
      var correct := e.corrections[loc];
      finalItem := finalItem.(lat := Some(correct.lat), lng := Some(correct.lng), region := correct.region);
      hasManualLocation := true;
    }
    if !hasManualLocation && key in existing {
      var oldItem := existing[key];
      if oldItem.searchLocation != "" {
        if oldItem.lat.None? || oldItem.lng.None? {
          return None;
        }
        finalItem := finalItem.(lat := oldItem.lat, lng := oldItem.lng, searchLocation := oldItem.searchLocation);
        finalItem := finalItem.(region := if oldItem.region != "" then oldItem.region else finalItem.region);
        hasManualLocation := true;
      }
    }
    if !hasManualLocation {
      finalItem := finalItem.(region := e.applyRegion(finalItem));
      var target := AutoAnchor(e.spots, e.regionCoords, finalItem.name, finalItem.region);
      var p := Jittered(target, d);
      finalItem := finalItem.(lat := Some(p.0), lng := Some(p.1));
    }
    ghost var placed := finalItem;
    if finalItem.category == "plush" {
      finalItem := finalItem.(emoji := "\U{1F9F8}");
    } else if finalItem.category == "tag" {
      finalItem := finalItem.(emoji := "\U{1F3F7}\U{FE0F}");
    } else if finalItem.category == "socks" {
      finalItem := finalItem.(emoji := "\U{1F9E6}");
    } else {
      finalItem := finalItem.(emoji := "\U{2728}");
    }
    assert finalItem == placed.(emoji := RoutesEmoji(c.category));
    return Some(finalItem);
  }

  /** The outcome for every crawled item, in crawl order. */
  function RoutesRebuilt(e: Env, crawled: seq<CrawledItem>, existing: map<string, Item>, draws: seq<Draw>)
      : (r: seq<Option<Item>>)
    requires EnvValid(e) && |draws| == |crawled|
    ensures |r| == |crawled|
  {
    seq(|crawled|, i requires 0 <= i < |crawled| => RoutesRefreshOne(e, crawled[i], i, existing, draws[i]))
  }

  /** `refresh_data`: None when the request fails at some item, otherwise the list it saves. */
  method RefreshData(e: Env, crawled: seq<CrawledItem>, oldItems: seq<Item>, draws: seq<Draw>)
      returns (r: Option<seq<Item>>)
    requires EnvValid(e) && |draws| == |crawled|
    ensures r == Collect(RoutesRebuilt(e, crawled, IndexBy(oldItems, RoutesKey), draws))
  {
    var existing := BuildExistingMap(oldItems);
    ghost var rebuilt := RoutesRebuilt(e, crawled, existing, draws);
    var updatedList: seq<Item> := [];
    for idx := 0 to |crawled|
      invariant Collect(rebuilt[..idx]) == Some(updatedList)
    {
      var item := RefreshItem(e, crawled[idx], idx, existing, draws[idx]);
      assert item == rebuilt[idx];
      CollectStep(rebuilt, idx);
      if item.None? {
        CollectFailureStays(rebuilt, idx + 1);
        return None;
      }
      updatedList := updatedList + [item.value];
    }
    assert rebuilt[..|crawled|] == rebuilt;
    return Some(updatedList);
  }

  /** The request fails exactly when, for some crawled item, there is no correction and the
      old item it inherits from lacks a coordinate. */
  lemma RefreshFailsOnMissingCoordinates(e: Env, crawled: seq<CrawledItem>, existing: map<string, Item>, draws: seq<Draw>)
    requires EnvValid(e) && |draws| == |crawled|
    ensures Collect(RoutesRebuilt(e, crawled, existing, draws)).None? <==>
      exists i :: 0 <= i < |crawled| &&
        var key := ServerKey(crawled[i].image, crawled[i].name);
        Inherits(e, key, existing) && (existing[key].lat.None? || existing[key].lng.None?)
  {
    var rebuilt := RoutesRebuilt(e, crawled, existing, draws);
    CollectMeaning(rebuilt);
    forall i | 0 <= i < |crawled|
      ensures rebuilt[i].None? <==>
        var key := ServerKey(crawled[i].image, crawled[i].name);
        Inherits(e, key, existing) && (existing[key].lat.None? || existing[key].lng.None?)
    {
      RoutesRefreshOneFails(e, crawled[i], i, existing, draws[i]);
    }
  }

  /** The saved list has one item per crawled item, numbered 1..n in crawl order, with its
      name and the emoji of its category. */
  lemma RefreshedIdsInCrawlOrder(e: Env, crawled: seq<CrawledItem>, existing: map<string, Item>, draws: seq<Draw>)
    requires EnvValid(e) && |draws| == |crawled|
    ensures var r := Collect(RoutesRebuilt(e, crawled, existing, draws));
      r.Some? ==>
        && |r.value| == |crawled|
        && forall i :: 0 <= i < |crawled| ==>
             r.value[i].id == i + 1 && r.value[i].name == crawled[i].name && r.value[i].emoji == RoutesEmoji(crawled[i].category)
  {
    var rebuilt := RoutesRebuilt(e, crawled, existing, draws);
    CollectMeaning(rebuilt);
    var r := Collect(rebuilt);
    if r.Some? {
      forall i | 0 <= i < |crawled|
        ensures r.value[i].id == i + 1 && r.value[i].name == crawled[i].name && r.value[i].emoji == RoutesEmoji(crawled[i].category)
      {
        assert Some(r.value[i]) == rebuilt[i];
        RoutesRefreshOneShape(e, crawled[i], i, existing, draws[i]);
      }
    }
  }

  // ---------------------------------------------------------------- fix_regions

  /** How close stored coordinates must be to a correction's to count as equal. */
  const Tolerance: real := 0.0001

  function Abs(x: real): real
  {
    if x < 0.0 then -x else x
  }

  /** `item.get('lat', 0)`. */
  function OrZero(c: Option<real>): real
  {
    if c.Some? then c.value else 0.0
  }

  /** The item disagrees with its correction: another region, or a coordinate off by
      more than the tolerance. */
  predicate NeedsCorrection(item: Item, k: Correction)
  {
    || item.region != k.region
    || Abs(OrZero(item.lat) - k.lat) > Tolerance
    || Abs(OrZero(item.lng) - k.lng) > Tolerance
  }

  /** One item after `fix_regions`: a corrected place is forced to its table values when it
      disagrees with them; otherwise a missing or "other" region is recomputed. */
  function RoutesFixOne(e: Env, item: Item): Item
  {
    var loc := Strip(item.searchLocation);
    if loc != "" && loc in e.corrections then
      var k := e.corrections[loc];
      if NeedsCorrection(item, k) then item.(lat := Some(k.lat), lng := Some(k.lng), region := k.region)
      else item
    else if item.region != "" && item.region != Other then item
    else
      var newRegion := e.applyRegion(item);
      if newRegion != "" && newRegion != item.region then item.(region := newRegion) else item
  }

  /** An item with a correction entry is either left alone (it already agrees) or set to
      exactly the table's coordinates and region; nothing else about it changes. */
  lemma CorrectedItemUpdatedOrSkipped(e: Env, item: Item)
    requires Strip(item.searchLocation) != "" && Strip(item.searchLocation) in e.corrections
    ensures var k := e.corrections[Strip(item.searchLocation)];
      var r := RoutesFixOne(e, item);
      && (r == item <==> !NeedsCorrection(item, k))
      && (r != item ==> r == item.(lat := Some(k.lat), lng := Some(k.lng), region := k.region))
  {
  }

  /** A corrected item, once fixed, agrees with its correction: a second pass leaves it. */
  lemma CorrectedItemSettles(e: Env, item: Item)
    requires Strip(item.searchLocation) != "" && Strip(item.searchLocation) in e.corrections
    ensures RoutesFixOne(e, RoutesFixOne(e, item)) == RoutesFixOne(e, item)
  {
  }

  /** Without a correction entry, an item whose region is set and not "other" is untouched. */
  lemma ValidRegionUntouched(e: Env, item: Item)
    requires !(Strip(item.searchLocation) != "" && Strip(item.searchLocation) in e.corrections)
    requires item.region != "" && item.region != Other
    ensures RoutesFixOne(e, item) == item
  {
  }

  /** Without a correction entry, only the region can change, and it changes to the
      recomputed non-empty region. */
  lemma UncorrectedOnlyRegion(e: Env, item: Item)
    requires !(Strip(item.searchLocation) != "" && Strip(item.searchLocation) in e.corrections)
    ensures RoutesFixOne(e, item).(region := item.region) == item
    ensures RoutesFixOne(e, item) != item ==>
      RoutesFixOne(e, item).region == e.applyRegion(item) && e.applyRegion(item) != ""
  {
  }

  /** The database after `fix_regions`. */
  function RoutesFixedAll(e: Env, s: seq<Item>): (r: seq<Item>)
    ensures |r| == |s|
  {
    seq(|s|, i requires 0 <= i < |s| => RoutesFixOne(e, s[i]))
  }

  /** The loop body of `fix_regions` for one item: whether it was modified. */
  method FixItem(e: Env, items: array<Item>, i: nat) returns (changed: bool)
    requires i < items.Length
    modifies items
    ensures items[..] == old(items[..])[i := RoutesFixOne(e, old(items[i]))]
    ensures changed <==> items[i] != old(items[i])
  {
    var item := items[i];
    var loc := Strip(item.searchLocation);
    if loc != "" && loc in e.corrections {
      var correct := e.corrections[loc];
      if item.region != correct.region
        || Abs(OrZero(item.lat) - correct.lat) > Tolerance
        || Abs(OrZero(item.lng) - correct.lng) > Tolerance
      {
        items[i] := item.(lat := Some(correct.lat), lng := Some(correct.lng), region := correct.region);
        return true;
      }
      return false;
    }
    var oldRegion := item.region;
    if oldRegion != "" && oldRegion != Other {
      return false;
    }
    var newRegion := e.applyRegion(item);
    if newRegion != "" && newRegion != oldRegion {
      items[i] := item.(region := newRegion);
      return true;
    }
    return false;
  }

  /** `fix_regions`: fixes every item in place and answers how many it modified. */
  method FixRegions(e: Env, items: array<Item>) returns (updated: nat)
    modifies items
    ensures items[..] == RoutesFixedAll(e, old(items[..]))
    ensures updated == ChangedCount(old(items[..]), items[..])
  {
    ghost var before := items[..];
    ghost var target := RoutesFixedAll(e, before);
    updated := 0;
    for i := 0 to items.Length
      invariant forall j :: 0 <= j < i ==> items[j] == target[j]
      invariant forall j :: i <= j < items.Length ==> items[j] == before[j]
      invariant updated == ChangedCount(before[..i], target[..i])
    {
      ChangedCountStep(before, target, i);
      var changed := FixItem(e, items, i);
      if changed {
        updated := updated + 1;
      }
    }
    assert items[..] == target;
    assert before[..items.Length] == before && target[..items.Length] == target;
  }

  // ---------------------------------------------------------------- import_public_data

  /** Result of `import_public_data`: 400, 500, or the list saved as posted. */
  datatype PublicImport = Rejected | Errored | Saved(items: seq<Item>)

  /** `import_public_data`: only a list is saved, exactly as posted. */
  method ImportPublicData(body: Body) returns (r: PublicImport)
    ensures r.Rejected? <==> body.JsonOther?
    ensures r.Errored? <==> body.Unparsable?
    ensures body.JsonList? <==> r.Saved?
    ensures r.Saved? ==> r.items == body.items
  {
    if body.Unparsable? {
      return Errored;
    }
    if !body.JsonList? {
      return Rejected;
    }
    return Saved(body.items);
  }
}
