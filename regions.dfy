/**
 * Region classification: first-match scans over ordered rule tables (Python
 * dicts iterate in insertion order, so each table is an ordered sequence of
 * pairs) and the priority chain of app.py's `apply_region_logic`.
 */
module Regions {
  import opened Common
  import opened Strings
  import opened Catalog

  /** Python truthiness of an optional string: present and non-empty. */
  predicate Truthy(o: Option<string>)
  {
    o.Some? && o.value != ""
  }

  /** Index of the first entry whose key occurs in `text`. */
  function FirstKeyIn<V>(table: seq<(string, V)>, text: string): (r: Option<nat>)
    ensures r.Some? ==> r.value < |table|
  {
    if |table| == 0 then None
    else if Contains(text, table[0].0) then Some(0)
    else match FirstKeyIn(table[1..], text)
      case None => None
      case Some(i) => Some(i + 1)
  }

  /** FirstKeyIn finds nothing exactly when no key occurs, and otherwise the first
      entry, in table order, whose key occurs. */
  lemma {:induction false} FirstKeyInFirst<V>(table: seq<(string, V)>, text: string)
    ensures FirstKeyIn(table, text).None? <==> forall i :: 0 <= i < |table| ==> !Contains(text, table[i].0)
    ensures FirstKeyIn(table, text).Some? ==>
      var r := FirstKeyIn(table, text).value;
      && r < |table| && Contains(text, table[r].0)
      && forall j :: 0 <= j < r ==> !Contains(text, table[j].0)
  {
    if |table| > 0 && !Contains(text, table[0].0) {
      FirstKeyInFirst(table[1..], text);
      assert forall i :: 1 <= i < |table| ==> table[i] == table[1..][i - 1];
    }
  }

  /** Index of the first entry one of whose keywords occurs in `text`. */
  function FirstAnyIn<K>(table: seq<(K, seq<string>)>, text: string): (r: Option<nat>)
    ensures r.Some? ==> r.value < |table|
  {
    if |table| == 0 then None
    else if ContainsAny(text, table[0].1) then Some(0)
    else match FirstAnyIn(table[1..], text)
      case None => None
      case Some(i) => Some(i + 1)
  }

  /** FirstAnyIn finds nothing exactly when no entry has a keyword in the text, and
      otherwise the first such entry in table order. */
  lemma {:induction false} FirstAnyInFirst<K>(table: seq<(K, seq<string>)>, text: string)
    ensures FirstAnyIn(table, text).None? <==> forall i :: 0 <= i < |table| ==> !ContainsAny(text, table[i].1)
    ensures FirstAnyIn(table, text).Some? ==>
      var r := FirstAnyIn(table, text).value;
      && r < |table| && ContainsAny(text, table[r].1)
      && forall j :: 0 <= j < r ==> !ContainsAny(text, table[j].1)
  {
    if |table| > 0 && !ContainsAny(text, table[0].1) {
      FirstAnyInFirst(table[1..], text);
      assert forall i :: 1 <= i < |table| ==> table[i] == table[1..][i - 1];
    }
  }

  /** app.py `get_region_from_address`: the region of the first place, in table
      order, that occurs in the address; None when no place occurs. */
  function RegionFromAddress(places: seq<(string, string)>, address: string): Option<string>
  {
    match FirstKeyIn(places, address)
    case None => None
    case Some(i) => Some(places[i].1)
  }

  /** `get_region_from_address` answers None exactly when no place of the table occurs in
      the address, and otherwise the region of the first place that does. */
  lemma RegionFromAddressFirst(places: seq<(string, string)>, address: string)
    ensures RegionFromAddress(places, address).None? <==> forall i :: 0 <= i < |places| ==> !Contains(address, places[i].0)
    ensures forall i ::
      (&& 0 <= i < |places| && Contains(address, places[i].0)
       && (forall j :: 0 <= j < i ==> !Contains(address, places[j].0)))
      ==> RegionFromAddress(places, address) == Some(places[i].1)
  {
    FirstKeyInFirst(places, address);
  }

  /** The first region, in table order, with a keyword occurring in `name`. */
  function KeywordRegion(keywords: seq<(string, seq<string>)>, name: string): Option<string>
  {
    match FirstAnyIn(keywords, name)
    case None => None
    case Some(i) => Some(keywords[i].0)
  }

  /** The keyword scan answers None exactly when no entry has a keyword in the name, and
      otherwise the region of the first entry that has one. */
  lemma KeywordRegionFirst(keywords: seq<(string, seq<string>)>, name: string)
    ensures KeywordRegion(keywords, name).None? <==> forall i :: 0 <= i < |keywords| ==> !ContainsAny(name, keywords[i].1)
    ensures forall i ::
      (&& 0 <= i < |keywords| && ContainsAny(name, keywords[i].1)
       && (forall j :: 0 <= j < i ==> !ContainsAny(name, keywords[j].1)))
      ==> KeywordRegion(keywords, name) == Some(keywords[i].0)
  {
    FirstAnyInFirst(keywords, name);
  }

  /** Step 1 of `apply_region_logic`: a non-empty search_location is looked up in the
      place table; failing that, an airport word in it means the "other" bucket. */
  function RegionFromLocation(places: seq<(string, string)>, location: string): Option<string>
  {
    if location == "" then None
    else if Truthy(RegionFromAddress(places, location)) then RegionFromAddress(places, location)
    else if Contains(location, "空港") || Contains(location, "機場") then Some(Other)
    else None
  }

  /** Flight-themed words in a name send the item to the "other" bucket. */
  predicate HasFlightWord(name: string)
  {
    Contains(name, "パイロット") || Contains(name, "飛行機") || Contains(name, "CA")
  }

  /** Step 2 of `apply_region_logic`: flight words, then the keyword scan. */
  function RegionFromName(keywords: seq<(string, seq<string>)>, name: string): Option<string>
  {
    if HasFlightWord(name) then Some(Other) else KeywordRegion(keywords, name)
  }

  /** app.py `apply_region_logic` over the given tables: the first truthy answer of
      the location step and the name step, else the "other" bucket. */
  function ApplyRegionLogic(places: seq<(string, string)>, keywords: seq<(string, seq<string>)>,
                            location: string, name: string): string
  {
    var fromLocation := RegionFromLocation(places, location);
    if Truthy(fromLocation) then fromLocation.value
    else
      var fromName := RegionFromName(keywords, name);
      if Truthy(fromName) then fromName.value else Other
  }

  /** The region is never empty: "other", or a region named in one of the tables. */
  lemma ApplyRegionLogicResult(places: seq<(string, string)>, keywords: seq<(string, seq<string>)>,
                               location: string, name: string)
    ensures ApplyRegionLogic(places, keywords, location, name) != ""
    ensures var r := ApplyRegionLogic(places, keywords, location, name);
      || r == Other
      || (exists i :: 0 <= i < |places| && places[i].1 == r)
      || (exists i :: 0 <= i < |keywords| && keywords[i].0 == r)
  {
    FirstKeyInFirst(places, location);
    FirstAnyInFirst(keywords, name);
  }

  /** A place-table match on the search location beats anything in the name. */
  lemma LocationTableWins(places: seq<(string, string)>, keywords: seq<(string, seq<string>)>,
                          location: string, name: string, i: nat)
    requires location != "" && i < |places| && places[i].1 != ""
    requires Contains(location, places[i].0)
    requires forall j :: 0 <= j < i ==> !Contains(location, places[j].0)
    ensures ApplyRegionLogic(places, keywords, location, name) == places[i].1
  {
    RegionFromAddressFirst(places, location);
  }

  /** With no place-table match, an airport word in the search location gives "other". */
  lemma AirportLocationIsOther(places: seq<(string, string)>, keywords: seq<(string, seq<string>)>,
                               location: string, name: string)
    requires location != "" && !Truthy(RegionFromAddress(places, location))
    requires Contains(location, "空港") || Contains(location, "機場")
    ensures ApplyRegionLogic(places, keywords, location, name) == Other
  {
  }

  /** When the search location decides nothing, a flight word in the name gives "other"
      before any keyword is looked at. */
  lemma FlightNameIsOther(places: seq<(string, string)>, keywords: seq<(string, seq<string>)>,
                          location: string, name: string)
    requires !Truthy(RegionFromLocation(places, location))
    requires HasFlightWord(name)
    ensures ApplyRegionLogic(places, keywords, location, name) == Other
  {
  }

  /** Otherwise the keyword scan picks the first region in table order. */
  lemma KeywordScanOrder(places: seq<(string, string)>, keywords: seq<(string, seq<string>)>,
                         location: string, name: string, i: nat)
    requires !Truthy(RegionFromLocation(places, location)) && !HasFlightWord(name)
    requires i < |keywords| && keywords[i].0 != "" && ContainsAny(name, keywords[i].1)
    requires forall j :: 0 <= j < i ==> !ContainsAny(name, keywords[j].1)
    ensures ApplyRegionLogic(places, keywords, location, name) == keywords[i].0
  {
    KeywordRegionFirst(keywords, name);
  }

  /** Nothing matches anywhere: the default bucket. */
  lemma DefaultIsOther(places: seq<(string, string)>, keywords: seq<(string, seq<string>)>,
                       location: string, name: string)
    requires forall i :: 0 <= i < |places| ==> !Contains(location, places[i].0)
    requires !Contains(location, "空港") && !Contains(location, "機場")
    requires !HasFlightWord(name)
    requires forall i :: 0 <= i < |keywords| ==> !ContainsAny(name, keywords[i].1)
    ensures ApplyRegionLogic(places, keywords, location, name) == Other
  {
    RegionFromAddressFirst(places, location);
    KeywordRegionFirst(keywords, name);
  }
}
