/**
 * The grouping and colouring part of ui.js `updateMapMarkers`: the visible items
 * are gathered into pins by rounded coordinates, airport-themed items of the
 * "other" bucket are repeated at twelve major airports, and each pin gets a colour
 * from its members' ownership and a face from its size. Leaflet, the HTML of icons
 * and popups and the click wiring are rendering and are not modelled.
 */
module Markers {
  import opened Common
  import opened Strings
  import opened Catalog

  datatype Airport = Airport(name: string, lat: real, lng: real)

  const MajorAirports: seq<Airport> := [
    Airport("新千歲空港", 42.7934, 141.6923), Airport("函館空港", 41.7704, 140.8222),
    Airport("仙台空港", 38.1398, 140.9169), Airport("羽田空港", 35.5494, 139.7798),
    Airport("成田空港", 35.7720, 140.3929), Airport("中部國際空港", 34.8584, 136.8053),
    Airport("伊丹空港", 34.7855, 135.4382), Airport("關西國際空港", 34.4320, 135.2304),
    Airport("廣島空港", 34.4398, 132.9195), Airport("福岡空港", 33.5859, 130.4507),
    Airport("鹿兒島空港", 31.8035, 130.7196), Airport("那霸空港", 26.2048, 127.6458)]

  const AirportKeywords: seq<string> := ["空港", "パイロット", "飛行機", "CA", "エアポート"]

  /** An airport-themed item of the "other" bucket is shown at every major airport. */
  predicate FansOut(item: Item)
  {
    ContainsAny(item.name, AirportKeywords) && item.region == Other
  }

  // ---------------------------------------------------------------- coordinate keys

  /** `x.toFixed(5)`: the sign, and the magnitude rounded to units of 1e-5 (halves up). */
  datatype Fixed = Fixed(negative: bool, units: int)

  function ToFixed5(x: real): Fixed
  {
    if x < 0.0 then Fixed(true, (-x * 100000.0 + 0.5).Floor) else Fixed(false, (x * 100000.0 + 0.5).Floor)
  }

  /** The group key `${lat.toFixed(5)},${lng.toFixed(5)}`, as the pair of its two halves. */
  datatype CoordKey = CoordKey(lat: Fixed, lng: Fixed)

  function KeyAt(lat: real, lng: real): CoordKey
  {
    CoordKey(ToFixed5(lat), ToFixed5(lng))
  }

  /** Two coordinates that print alike are less than 1e-5 apart. */
  lemma SameFixedIsClose(x: real, y: real)
    requires ToFixed5(x) == ToFixed5(y)
    ensures -0.00001 < x - y < 0.00001
  {
  }

  // ---------------------------------------------------------------- additions

  /** `{ item, index }`: a member of a pin, with its position in the visible list. */
  datatype Member = Member(item: Item, index: nat)

  /** One `addToGroup` call, with the key it computes from the position. */
  datatype Addition = Addition(key: CoordKey, lat: real, lng: real, member: Member, locName: string)

  function AddAt(lat: real, lng: real, member: Member, locName: string): Addition
  {
    Addition(KeyAt(lat, lng), lat, lng, member, locName)
  }

  function AirportLabel(a: Airport): string
  {
    a.name + " (全日本機場)"
  }

  /** `item.search_location || item.region`. */
  function ItemLabel(item: Item): string
  {
    if item.searchLocation != "" then item.searchLocation else item.region
  }

  /** The twelve additions of a fanned-out item, in airport order. */
  function AirportAdditions(item: Item, index: nat): (r: seq<Addition>)
    ensures |r| == |MajorAirports|
  {
    seq(|MajorAirports|, k requires 0 <= k < |MajorAirports| =>
      AddAt(MajorAirports[k].lat, MajorAirports[k].lng, Member(item, index), AirportLabel(MajorAirports[k])))
  }

  /** The additions of one item; None when an item to be placed at its own position has
      no coordinates (`toFixed` on a missing value throws and the pins are not built). */
  function ItemAdditions(item: Item, index: nat): Option<seq<Addition>>
  {
    if FansOut(item) then Some(AirportAdditions(item, index))
    else if item.lat.None? || item.lng.None? then None
    else Some([AddAt(item.lat.value, item.lng.value, Member(item, index), ItemLabel(item))])
  }

  /** All additions, in the order the visible items are walked. */
  function Additions(items: seq<Item>): Option<seq<Addition>>
  {
    if |items| == 0 then Some([])
    else
      var n := |items| - 1;
      match Additions(items[..n])
      case None => None
      case Some(done) =>
        match ItemAdditions(items[n], n)
        case None => None
        case Some(more) => Some(done + more)
  }

  function FanOutCount(items: seq<Item>): nat
  {
    if |items| == 0 then 0 else FanOutCount(items[..|items| - 1]) + (if FansOut(items[|items| - 1]) then 1 else 0)
  }

  /** Grouping fails exactly when an item placed at its own position lacks a coordinate;
      otherwise each fanned-out item is added twelve times and every other item once. */
  lemma {:induction false} AdditionsCount(items: seq<Item>)
    ensures Additions(items).None? <==>
      exists i :: 0 <= i < |items| && !FansOut(items[i]) && (items[i].lat.None? || items[i].lng.None?)
    ensures Additions(items).Some? ==>
      |Additions(items).value| == 12 * FanOutCount(items) + (|items| - FanOutCount(items))
  {
    if |items| > 0 {
      var n := |items| - 1;
      AdditionsCount(items[..n]);
      assert forall i :: 0 <= i < n ==> items[..n][i] == items[i];
    }
  }

  /** Once an item fails, so does the whole walk. */
  lemma AdditionsFailureStays(items: seq<Item>, k: nat)
    requires k <= |items| && Additions(items[..k]).None?
    ensures Additions(items).None?
  {
    AdditionsCount(items[..k]);
    AdditionsCount(items);
    var i :| 0 <= i < k && !FansOut(items[..k][i]) && (items[..k][i].lat.None? || items[..k][i].lng.None?);
    assert items[..k][i] == items[i];
  }

  // ---------------------------------------------------------------- groups

  /** A pin: its key, the position and label of its first member, and its members. */
  datatype Group = Group(key: CoordKey, lat: real, lng: real, locName: string, members: seq<Member>)

  /** The position of the group with that key. */
  function GroupIndex(groups: seq<Group>, key: CoordKey): (r: Option<nat>)
    ensures r.Some? ==> r.value < |groups|
  {
    if |groups| == 0 then None
    else if groups[0].key == key then Some(0)
    else match GroupIndex(groups[1..], key)
      case None => None
      case Some(i) => Some(i + 1)
  }

  lemma {:induction false} GroupIndexFound(groups: seq<Group>, key: CoordKey)
    ensures GroupIndex(groups, key).None? <==> forall g :: 0 <= g < |groups| ==> groups[g].key != key
    ensures GroupIndex(groups, key).Some? ==> groups[GroupIndex(groups, key).value].key == key
  {
    if |groups| > 0 && groups[0].key != key {
      GroupIndexFound(groups[1..], key);
      assert forall g :: 1 <= g < |groups| ==> groups[g] == groups[1..][g - 1];
    }
  }

  /** `addToGroup`: append the member to the group of its key, creating the group (with
      this member's position and label) when there is none yet. */
  function AddToGroup(groups: seq<Group>, a: Addition): seq<Group>
  {
    match GroupIndex(groups, a.key)
    case Some(g) => groups[g := groups[g].(members := groups[g].members + [a.member])]
    case None => groups + [Group(a.key, a.lat, a.lng, a.locName, [a.member])]
  }

  /** The groups after a run of additions. */
  function Grouped(adds: seq<Addition>): seq<Group>
  {
    if |adds| == 0 then [] else AddToGroup(Grouped(adds[..|adds| - 1]), adds[|adds| - 1])
  }

  lemma GroupedSnoc(adds: seq<Addition>, a: Addition)
    ensures Grouped(adds + [a]) == AddToGroup(Grouped(adds), a)
  {
    assert (adds + [a])[..|adds|] == adds;
  }

  /** `locationGroups` for the visible items, in creation order. */
  function LocationGroups(items: seq<Item>): Option<seq<Group>>
  {
    match Additions(items)
    case None => None
    case Some(adds) => Some(Grouped(adds))
  }

  /** Number of memberships over all groups. */
  function TotalMembers(groups: seq<Group>): nat
  {
    if |groups| == 0 then 0 else TotalMembers(groups[..|groups| - 1]) + |groups[|groups| - 1].members|
  }

  lemma {:induction false} TotalMembersUpdate(groups: seq<Group>, g: nat, x: Group)
    requires g < |groups|
    ensures TotalMembers(groups[g := x]) + |groups[g].members| == TotalMembers(groups) + |x.members|
  {
    var n := |groups| - 1;
    if g < n {
      assert groups[g := x][..n] == groups[..n][g := x];
      TotalMembersUpdate(groups[..n], g, x);
    } else {
      assert groups[g := x][..n] == groups[..n];
    }
  }

  /** Every addition makes exactly one membership. */
  lemma {:induction false} GroupedMembershipCount(adds: seq<Addition>)
    ensures TotalMembers(Grouped(adds)) == |adds|
  {
    if |adds| > 0 {
      var prev := Grouped(adds[..|adds| - 1]);
      var a := adds[|adds| - 1];
      GroupedMembershipCount(adds[..|adds| - 1]);
      match GroupIndex(prev, a.key)
      case Some(g) =>
        TotalMembersUpdate(prev, g, prev[g].(members := prev[g].members + [a.member]));
      case None =>
        assert (prev + [Group(a.key, a.lat, a.lng, a.locName, [a.member])])[..|prev|] == prev;
    }
  }

  /** Total memberships: twelve per fanned-out item plus one per other item. */
  lemma MembershipCount(items: seq<Item>)
    requires LocationGroups(items).Some?
    ensures TotalMembers(LocationGroups(items).value) == 12 * FanOutCount(items) + (|items| - FanOutCount(items))
  {
    AdditionsCount(items);
    GroupedMembershipCount(Additions(items).value);
  }

  /** No two groups share a key. */
  predicate KeysDistinct(groups: seq<Group>)
  {
    forall g, h :: 0 <= g < h < |groups| ==> groups[g].key != groups[h].key
  }

  /** Every addition's member is in the group of its key. */
  predicate MembersPlaced(adds: seq<Addition>, groups: seq<Group>)
  {
    forall j :: 0 <= j < |adds| ==>
      exists g :: 0 <= g < |groups| && groups[g].key == adds[j].key && adds[j].member in groups[g].members
  }

  /** Addition `j` is the first with its key. */
  predicate FirstOfKey(adds: seq<Addition>, j: nat)
    requires j < |adds|
  {
    forall i :: 0 <= i < j ==> adds[i].key != adds[j].key
  }

  /** The group has the addition's key, position and label, and the addition's member first. */
  predicate CreatedBy(g: Group, a: Addition)
  {
    g.key == a.key && g.lat == a.lat && g.lng == a.lng && g.locName == a.locName && |g.members| > 0 && g.members[0] == a.member
  }

  /** Group `g` was created by the first addition with its key. */
  predicate CreatedByFirst(adds: seq<Addition>, groups: seq<Group>, g: nat)
    requires g < |groups|
  {
    exists j :: 0 <= j < |adds| && FirstOfKey(adds, j) && CreatedBy(groups[g], adds[j])
  }

  /** Each group was created by the first addition with its key. */
  predicate GroupsCreated(adds: seq<Addition>, groups: seq<Group>)
  {
    forall g :: 0 <= g < |groups| ==> CreatedByFirst(adds, groups, g)
  }

  /** `addToGroup` keeps every existing group's key, position and label, only appends to
      its members, and either extends the group of the key or appends a new group. */
  lemma AddToGroupShape(groups: seq<Group>, a: Addition)
    ensures var after := AddToGroup(groups, a);
      && |groups| <= |after|
      && (forall g :: 0 <= g < |groups| ==>
            && after[g].key == groups[g].key && after[g].lat == groups[g].lat && after[g].lng == groups[g].lng
            && after[g].locName == groups[g].locName && groups[g].members <= after[g].members)
      && (GroupIndex(groups, a.key).Some? ==>
            |after| == |groups| && a.member in after[GroupIndex(groups, a.key).value].members
            && after[GroupIndex(groups, a.key).value].key == a.key)
      && (GroupIndex(groups, a.key).None? ==>
            after == groups + [Group(a.key, a.lat, a.lng, a.locName, [a.member])])
  {
    GroupIndexFound(groups, a.key);
  }

  lemma AddKeepsKeysDistinct(groups: seq<Group>, a: Addition)
    requires KeysDistinct(groups)
    ensures KeysDistinct(AddToGroup(groups, a))
  {
    GroupIndexFound(groups, a.key);
    AddToGroupShape(groups, a);
  }

  lemma AddPlacesMember(adds: seq<Addition>, groups: seq<Group>, a: Addition)
    requires MembersPlaced(adds, groups)
    ensures MembersPlaced(adds + [a], AddToGroup(groups, a))
  {
    var all := adds + [a];
    var after := AddToGroup(groups, a);
    AddToGroupShape(groups, a);
    forall j | 0 <= j < |all|
      ensures exists g :: 0 <= g < |after| && after[g].key == all[j].key && all[j].member in after[g].members
    {
      if j < |adds| {
        var g :| 0 <= g < |groups| && groups[g].key == adds[j].key && adds[j].member in groups[g].members;
        assert all[j] == adds[j];
        assert all[j].member in after[g].members;
      } else if GroupIndex(groups, a.key).Some? {
        var g0 := GroupIndex(groups, a.key).value;
        assert after[g0].key == all[j].key && all[j].member in after[g0].members;
      } else {
        assert after[|groups|].key == all[j].key && all[j].member in after[|groups|].members;
      }
    }
  }

  /** A group that existed before the addition keeps its creation witness. */
  lemma OldGroupStaysCreated(adds: seq<Addition>, groups: seq<Group>, a: Addition, g: nat)
    requires GroupsCreated(adds, groups) && g < |groups|
    ensures g < |AddToGroup(groups, a)|
    ensures CreatedByFirst(adds + [a], AddToGroup(groups, a), g)
  {
    var all := adds + [a];
    AddToGroupShape(groups, a);
    assert CreatedByFirst(adds, groups, g);
    var j :| 0 <= j < |adds| && FirstOfKey(adds, j) && CreatedBy(groups[g], adds[j]);
    assert all[j] == adds[j];
    assert forall i :: 0 <= i < j ==> all[i] == adds[i];
    assert FirstOfKey(all, j);
    assert CreatedBy(AddToGroup(groups, a)[g], all[j]);
  }

  /** A group the addition creates is witnessed by the addition itself. */
  lemma NewGroupCreated(adds: seq<Addition>, groups: seq<Group>, a: Addition)
    requires MembersPlaced(adds, groups) && GroupIndex(groups, a.key).None?
    ensures |AddToGroup(groups, a)| == |groups| + 1
    ensures CreatedByFirst(adds + [a], AddToGroup(groups, a), |groups|)
  {
    var all := adds + [a];
    GroupIndexFound(groups, a.key);
    forall i | 0 <= i < |adds|
      ensures all[i].key != a.key
    {
      var h :| 0 <= h < |groups| && groups[h].key == adds[i].key && adds[i].member in groups[h].members;
      assert all[i] == adds[i];
    }
    assert FirstOfKey(all, |adds|) && CreatedBy(AddToGroup(groups, a)[|groups|], all[|adds|]);
  }

  lemma AddRecordsCreation(adds: seq<Addition>, groups: seq<Group>, a: Addition)
    requires MembersPlaced(adds, groups) && GroupsCreated(adds, groups)
    ensures GroupsCreated(adds + [a], AddToGroup(groups, a))
  {
    var after := AddToGroup(groups, a);
    AddToGroupShape(groups, a);
    forall g | 0 <= g < |after|
      ensures CreatedByFirst(adds + [a], after, g)
    {
      if g < |groups| {
        OldGroupStaysCreated(adds, groups, a, g);
      } else {
        NewGroupCreated(adds, groups, a);
      }
    }
  }

  lemma {:induction false} GroupedKeysDistinct(adds: seq<Addition>)
    ensures KeysDistinct(Grouped(adds))
  {
    if |adds| > 0 {
      GroupedKeysDistinct(adds[..|adds| - 1]);
      AddKeepsKeysDistinct(Grouped(adds[..|adds| - 1]), adds[|adds| - 1]);
    }
  }

  lemma {:induction false} GroupedMembersPlaced(adds: seq<Addition>)
    ensures MembersPlaced(adds, Grouped(adds))
  {
    if |adds| > 0 {
      var n := |adds| - 1;
      GroupedMembersPlaced(adds[..n]);
      AddPlacesMember(adds[..n], Grouped(adds[..n]), adds[n]);
      assert adds[..n] + [adds[n]] == adds;
    }
  }

  lemma {:induction false} GroupedCreated(adds: seq<Addition>)
    ensures GroupsCreated(adds, Grouped(adds))
  {
    if |adds| > 0 {
      var n := |adds| - 1;
      GroupedCreated(adds[..n]);
      GroupedMembersPlaced(adds[..n]);
      AddRecordsCreation(adds[..n], Grouped(adds[..n]), adds[n]);
      assert adds[..n] + [adds[n]] == adds;
    }
  }

  /** The groups of any run of additions have distinct keys, hold every addition's member
      in the group of its key, and take each group's position and label from the first
      addition with its key, which is also the group's first member. */
  lemma GroupedFaithful(adds: seq<Addition>)
    ensures KeysDistinct(Grouped(adds))
    ensures MembersPlaced(adds, Grouped(adds))
    ensures GroupsCreated(adds, Grouped(adds))
  {
    GroupedKeysDistinct(adds);
    GroupedMembersPlaced(adds);
    GroupedCreated(adds);
  }

  /** Every addition an item makes is among the additions of the whole walk. */
  lemma {:induction false} AdditionsContain(items: seq<Item>, i: nat)
    requires i < |items| && Additions(items).Some?
    ensures ItemAdditions(items[i], i).Some?
    ensures forall a :: a in ItemAdditions(items[i], i).value ==> a in Additions(items).value
  {
    var n := |items| - 1;
    if i < n {
      AdditionsContain(items[..n], i);
      assert items[..n][i] == items[i];
    }
  }

  /** A fanned-out item is a member, with its position in the visible list, of the pin of
      each of the twelve airports; any other item is a member of the pin of its own
      coordinates. */
  lemma ItemsPlaced(items: seq<Item>, i: nat)
    requires i < |items| && LocationGroups(items).Some?
    ensures var groups := LocationGroups(items).value;
      FansOut(items[i]) ==>
        forall k :: 0 <= k < |MajorAirports| ==>
          exists g :: 0 <= g < |groups| && groups[g].key == KeyAt(MajorAirports[k].lat, MajorAirports[k].lng)
            && Member(items[i], i) in groups[g].members
    ensures var groups := LocationGroups(items).value;
      !FansOut(items[i]) ==>
        && items[i].lat.Some? && items[i].lng.Some?
        && exists g :: 0 <= g < |groups| && groups[g].key == KeyAt(items[i].lat.value, items[i].lng.value)
             && Member(items[i], i) in groups[g].members
  {
    var adds := Additions(items).value;
    AdditionsContain(items, i);
    GroupedMembersPlaced(adds);
    var mine := ItemAdditions(items[i], i).value;
    forall a | a in mine
      ensures exists g :: 0 <= g < |Grouped(adds)| && Grouped(adds)[g].key == a.key && a.member in Grouped(adds)[g].members
    {
      var j :| 0 <= j < |adds| && adds[j] == a;
    }
    if FansOut(items[i]) {
      forall k | 0 <= k < |MajorAirports|
        ensures exists g :: 0 <= g < |Grouped(adds)| && Member(items[i], i) in Grouped(adds)[g].members
                          && Grouped(adds)[g].key == KeyAt(MajorAirports[k].lat, MajorAirports[k].lng)
      {
        assert mine[k] in mine;
      }
    } else {
      assert mine[0] in mine;
    }
  }

  /** The inner loop of a fanned-out item: one addition per major airport. */
  method AddAtAirports(groups: seq<Group>, ghost adds: seq<Addition>, item: Item, index: nat)
      returns (after: seq<Group>)
    requires groups == Grouped(adds)
    ensures after == Grouped(adds + AirportAdditions(item, index))
  {
    ghost var airportAdds := AirportAdditions(item, index);
    after := groups;
    assert adds + airportAdds[..0] == adds;
    for k := 0 to |MajorAirports|
      invariant after == Grouped(adds + airportAdds[..k])
    {
      var airport := MajorAirports[k];
      var a := AddAt(airport.lat, airport.lng, Member(item, index), AirportLabel(airport));
      assert a == airportAdds[k];
      PrefixSnoc(adds, airportAdds, k);
      GroupedSnoc(adds + airportAdds[..k], a);
      after := AddToGroup(after, a);
    }
    assert airportAdds[..|MajorAirports|] == airportAdds;
  }

  /** The grouping loop of `updateMapMarkers`. */
  method BuildLocationGroups(visible: seq<Item>) returns (groups: Option<seq<Group>>)
    ensures groups == LocationGroups(visible)
  {
    var locationGroups: seq<Group> := [];
    ghost var adds: seq<Addition> := [];
    for index := 0 to |visible|
      invariant Additions(visible[..index]) == Some(adds)
      invariant locationGroups == Grouped(adds)
    {
      var item := visible[index];
      assert visible[..index + 1][..index] == visible[..index];
      if FansOut(item) {
        locationGroups := AddAtAirports(locationGroups, adds, item, index);
        adds := adds + AirportAdditions(item, index);
      } else {
        if item.lat.None? || item.lng.None? {
          AdditionsFailureStays(visible, index + 1);
          return None;
        }
        var a := AddAt(item.lat.value, item.lng.value, Member(item, index), ItemLabel(item));
        GroupedSnoc(adds, a);
        locationGroups := AddToGroup(locationGroups, a);
        adds := adds + [a];
      }
    }
    assert visible[..|visible|] == visible;
    return Some(locationGroups);
  }

  // ---------------------------------------------------------------- pins

  datatype PinColour = Green | Yellow | Pink

  /** Green when every member is owned, yellow when some are, pink otherwise. */
  function Colour(members: seq<Member>): PinColour
  {
    if forall i :: 0 <= i < |members| ==> members[i].item.owned then Green
    else if exists i :: 0 <= i < |members| && members[i].item.owned then Yellow
    else Pink
  }

  /** For a pin with members, exactly one of the three cases holds. */
  lemma ColourTrichotomy(members: seq<Member>)
    requires |members| > 0
    ensures Colour(members) == Green <==> forall i :: 0 <= i < |members| ==> members[i].item.owned
    ensures Colour(members) == Yellow <==>
      (exists i :: 0 <= i < |members| && members[i].item.owned) && (exists i :: 0 <= i < |members| && !members[i].item.owned)
    ensures Colour(members) == Pink <==> forall i :: 0 <= i < |members| ==> !members[i].item.owned
  {
    if Colour(members) != Green {
      assert exists i :: 0 <= i < |members| && !members[i].item.owned;
    }
    if forall i :: 0 <= i < |members| ==> !members[i].item.owned {
      assert !members[0].item.owned;
    }
  }

  /** What a pin shows: the picture or emoji of its only member, or its member count. */
  datatype PinFace = Picture(image: string) | Glyph(emoji: string) | Count(n: nat)

  function Face(members: seq<Member>): PinFace
  {
    if |members| == 1 then
      (if members[0].item.image != "" then Picture(members[0].item.image) else Glyph(members[0].item.emoji))
    else Count(|members|)
  }

  /** A pin with several members shows their number; a single member shows its image, or
      its emoji when it has none. */
  lemma FaceRule(members: seq<Member>)
    requires |members| > 0
    ensures Face(members).Count? <==> |members| > 1
    ensures Face(members).Count? ==> Face(members).n == |members|
    ensures Face(members).Picture? <==> |members| == 1 && members[0].item.image != ""
    ensures Face(members).Picture? ==> Face(members).image == members[0].item.image
    ensures Face(members).Glyph? <==> |members| == 1 && members[0].item.image == ""
    ensures Face(members).Glyph? ==> Face(members).emoji == members[0].item.emoji
  {
  }
}
