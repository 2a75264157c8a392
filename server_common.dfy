/**
 * Pieces shared by the two server implementations (app.py and routes.py):
 * request bodies, dict-building by key, coordinate tables and the automatic
 * placement of an item near a spot or a region centre.
 */
module ServerCommon {
  import opened Common
  import opened Strings
  import opened Catalog
  import opened Regions

  /** A JSON request body: a list, some other JSON value, or a body that does not parse. */
  datatype Body = JsonList(items: seq<Item>) | JsonOther | Unparsable

  /** A Python dict built by `d[key(x)] = x` over a list: the later item with a key wins. */
  function IndexBy(db: seq<Item>, key: Item -> string): map<string, Item>
  {
    if |db| == 0 then map[]
    else IndexBy(db[..|db| - 1], key)[key(db[|db| - 1]) := db[|db| - 1]]
  }

  /** The dict's keys are exactly the keys of the list's items. */
  lemma {:induction false} IndexByKeys(db: seq<Item>, key: Item -> string)
    ensures forall i :: 0 <= i < |db| ==> key(db[i]) in IndexBy(db, key)
    ensures forall k :: k in IndexBy(db, key) ==> exists i :: 0 <= i < |db| && key(db[i]) == k
  {
    if |db| > 0 {
      IndexByKeys(db[..|db| - 1], key);
      assert forall i :: 0 <= i < |db| - 1 ==> db[..|db| - 1][i] == db[i];
    }
  }

  /** The entry of a key is the last item carrying that key. */
  lemma {:induction false} IndexByLastWins(db: seq<Item>, key: Item -> string, i: nat)
    requires i < |db|
    requires forall j :: i < j < |db| ==> key(db[j]) != key(db[i])
    ensures key(db[i]) in IndexBy(db, key) && IndexBy(db, key)[key(db[i])] == db[i]
  {
    if i < |db| - 1 {
      IndexByLastWins(db[..|db| - 1], key, i);
    }
  }

  /** app.py keys the old database by exact name. */
  function NameKey(item: Item): string
  {
    item.name
  }

  /** routes.py keys the old database by image file name, else name. */
  function RoutesKey(item: Item): string
  {
    ServerKey(item.image, item.name)
  }

  /** `table.get(key)` on a dict given as its ordered pairs. */
  function Lookup<V>(table: seq<(string, V)>, key: string): Option<V>
  {
    if |table| == 0 then None
    else if table[0].0 == key then Some(table[0].1)
    else Lookup(table[1..], key)
  }

  /** A lookup fails exactly when no entry has the key, and otherwise answers the value of
      an entry with that key. */
  lemma {:induction false} LookupFound<V>(table: seq<(string, V)>, key: string)
    ensures Lookup(table, key).None? <==> forall i :: 0 <= i < |table| ==> table[i].0 != key
    ensures Lookup(table, key).Some? ==> exists i :: 0 <= i < |table| && table[i] == (key, Lookup(table, key).value)
  {
    if |table| > 0 && table[0].0 != key {
      LookupFound(table[1..], key);
      assert forall i :: 1 <= i < |table| ==> table[i] == table[1..][i - 1];
      if Lookup(table, key).Some? {
        var i :| 0 <= i < |table[1..]| && table[1..][i] == (key, Lookup(table, key).value);
        assert table[i + 1] == table[1..][i];
      }
    }
  }

  /** The rule tables a server consults, each in the order Python iterates it: place to
      region, region keywords, spot centres and region centres. */
  datatype Tables = Tables(
    places: seq<(string, string)>,
    keywords: seq<(string, seq<string>)>,
    spots: seq<(string, (real, real))>,
    regionCoords: seq<(string, (real, real))>)

  /** The region-centre table has an entry for the "other" bucket, the fallback of every
      lookup in it. */
  predicate TablesValid(t: Tables)
  {
    Lookup(t.regionCoords, Other).Some?
  }

  const SpotSpread: real := 0.005
  const RegionSpread: real := 0.15

  /** The point an automatically placed item is scattered around, and how widely. */
  datatype Anchor = Anchor(lat: real, lng: real, spread: real)

  /** Automatic placement: the first spot, in table order, whose key is in the name
      (narrow spread); otherwise the centre of the item's region, or of "other" when the
      region has no centre (wide spread). */
  function AutoAnchor(spots: seq<(string, (real, real))>, regionCoords: seq<(string, (real, real))>,
                      name: string, region: string): (a: Anchor)
    requires Lookup(regionCoords, Other).Some?
    ensures FirstKeyIn(spots, name).Some? ==>
      a.spread == SpotSpread && (a.lat, a.lng) == spots[FirstKeyIn(spots, name).value].1
    ensures FirstKeyIn(spots, name).None? ==>
      a.spread == RegionSpread
      && (a.lat, a.lng) == (if Lookup(regionCoords, region).Some? then Lookup(regionCoords, region).value
                            else Lookup(regionCoords, Other).value)
  {
    match FirstKeyIn(spots, name)
    case Some(i) => Anchor(spots[i].1.0, spots[i].1.1, SpotSpread)
    case None =>
      var c := match Lookup(regionCoords, region)
        case Some(c) => c
        case None => Lookup(regionCoords, Other).value;
      Anchor(c.0, c.1, RegionSpread)
  }

  /** The two `random.random()` values drawn for one item. */
  datatype Draw = Draw(latDraw: real, lngDraw: real)

  predicate InUnitInterval(d: Draw)
  {
    0.0 <= d.latDraw < 1.0 && 0.0 <= d.lngDraw < 1.0
  }

  /** `target + (random.random() - 0.5) * spread` on both coordinates. */
  function Jittered(a: Anchor, d: Draw): (p: (real, real))
  {
    (a.lat + (d.latDraw - 0.5) * a.spread, a.lng + (d.lngDraw - 0.5) * a.spread)
  }

  /** A scattered point stays within half the spread of its anchor on each axis. */
  lemma JitterWithinSpread(a: Anchor, d: Draw)
    requires InUnitInterval(d) && (a.spread == SpotSpread || a.spread == RegionSpread)
    ensures a.lat - a.spread / 2.0 <= Jittered(a, d).0 <= a.lat + a.spread / 2.0
    ensures a.lng - a.spread / 2.0 <= Jittered(a, d).1 <= a.lng + a.spread / 2.0
  {
  }

  /** Number of positions at which two equally long lists differ. */
  function ChangedCount(before: seq<Item>, after: seq<Item>): (n: nat)
    requires |before| == |after|
    ensures n <= |before|
  {
    if |before| == 0 then 0
    else
      var k := |before| - 1;
      ChangedCount(before[..k], after[..k]) + (if before[k] != after[k] then 1 else 0)
  }

  /** No position differs exactly when the lists are equal. */
  lemma {:induction false} ChangedCountZero(before: seq<Item>, after: seq<Item>)
    requires |before| == |after|
    ensures ChangedCount(before, after) == 0 <==> before == after
  {
    if |before| > 0 {
      var k := |before| - 1;
      ChangedCountZero(before[..k], after[..k]);
      assert before == before[..k] + [before[k]] && after == after[..k] + [after[k]];
    }
  }

  /** Counting one more position adds one exactly when the lists differ there. */
  lemma ChangedCountStep(before: seq<Item>, after: seq<Item>, i: nat)
    requires |before| == |after| && i < |before|
    ensures ChangedCount(before[..i + 1], after[..i + 1])
      == ChangedCount(before[..i], after[..i]) + (if before[i] != after[i] then 1 else 0)
  {
    assert before[..i + 1][..i] == before[..i] && after[..i + 1][..i] == after[..i];
  }

  /** All the values of a list of partial results, in order, or None if one is missing. */
  function Collect<T>(opts: seq<Option<T>>): Option<seq<T>>
  {
    if |opts| == 0 then Some([])
    else match Collect(opts[..|opts| - 1])
      case None => None
      case Some(done) =>
        match opts[|opts| - 1]
        case None => None
        case Some(x) => Some(done + [x])
  }

  /** Collecting fails exactly when some result is missing, and otherwise keeps every
      value at its position. */
  lemma {:induction false} CollectMeaning<T>(opts: seq<Option<T>>)
    ensures Collect(opts).None? <==> exists i :: 0 <= i < |opts| && opts[i].None?
    ensures Collect(opts).Some? ==>
      && |Collect(opts).value| == |opts|
      && forall i :: 0 <= i < |opts| ==> Some(Collect(opts).value[i]) == opts[i]
  {
    if |opts| > 0 {
      var init := opts[..|opts| - 1];
      CollectMeaning(init);
      assert forall i :: 0 <= i < |init| ==> init[i] == opts[i];
      if Collect(init).Some? && opts[|opts| - 1].Some? {
        var out := Collect(init).value + [opts[|opts| - 1].value];
        assert forall i :: 0 <= i < |init| ==> out[i] == Collect(init).value[i];
      }
    }
  }

  /** Collecting one more result. */
  lemma CollectStep<T>(opts: seq<Option<T>>, i: nat)
    requires i < |opts|
    ensures Collect(opts[..i + 1]) ==
      match Collect(opts[..i])
      case None => None
      case Some(done) => if opts[i].None? then None else Some(done + [opts[i].value])
  {
    assert opts[..i + 1][..i] == opts[..i];
  }

  /** Once a prefix fails, the whole list fails. */
  lemma CollectFailureStays<T>(opts: seq<Option<T>>, k: nat)
    requires k <= |opts| && Collect(opts[..k]).None?
    ensures Collect(opts).None?
  {
    CollectMeaning(opts[..k]);
    CollectMeaning(opts);
    var i :| 0 <= i < k && opts[..k][i].None?;
    assert opts[i].None?;
  }
}
