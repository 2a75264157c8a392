/**
 * The ownership engine of static/js/ui.js: the join of the public catalog with the
 * user's ownership overlay (`mergeData`), the three-way filter behind the grid and
 * the map (`filteredItems`), the owned counter, toggling and resetting ownership,
 * and the image viewer's index. The map grouping is in module Markers.
 */
module Ui {
  import opened Common
  import opened Catalog
  import opened ClientState
  import opened Storage

  // ---------------------------------------------------------------- merging

  /** A catalog item as the grid shows it: owned exactly when the overlay marks its key. */
  function MergeItem(p: Item, overlay: Overlay): Item
  {
    p.(owned := ClientKey(p) in overlay && overlay[ClientKey(p)])
  }

  /** `mergeData`: the catalog with each item's ownership taken from the overlay; an
      empty list when there is no catalog array. */
  function Merged(publicItems: Option<seq<Item>>, overlay: Overlay): (r: seq<Item>)
    ensures publicItems.None? ==> r == []
    ensures publicItems.Some? ==> |r| == |publicItems.value|
  {
    match publicItems
    case None => []
    case Some(ps) => seq(|ps|, i requires 0 <= i < |ps| => MergeItem(ps[i], overlay))
  }

  /** Merging keeps the catalog's order and every field but `owned`, which it takes from
      the overlay entry of the item's key (missing entries count as not owned). */
  lemma MergedItems(ps: seq<Item>, overlay: Overlay)
    ensures |Merged(Some(ps), overlay)| == |ps|
    ensures forall i :: 0 <= i < |ps| ==>
      && Merged(Some(ps), overlay)[i].(owned := false) == ps[i].(owned := false)
      && (Merged(Some(ps), overlay)[i].owned <==> ClientKey(ps[i]) in overlay && overlay[ClientKey(ps[i])])
  {
  }

  /** The catalog's own `owned` flags play no part: merging a merged list again gives it back. */
  lemma MergeIdempotent(ps: seq<Item>, overlay: Overlay)
    ensures Merged(Some(Merged(Some(ps), overlay)), overlay) == Merged(Some(ps), overlay)
  {
    var once := Merged(Some(ps), overlay);
    forall i | 0 <= i < |ps|
      ensures Merged(Some(once), overlay)[i] == once[i]
    {
      assert ClientKey(once[i]) == ClientKey(ps[i]);
    }
  }

  /** `mergeData` on the state. */
  method MergeData(st: AppState)
    modifies st`items
    ensures st.items == Merged(st.publicItems, st.userStatus)
  {
    if st.publicItems.None? {
      st.items := [];
      return;
    }
    st.items := Merged(st.publicItems, st.userStatus);
  }

  // ---------------------------------------------------------------- filtering

  const AllRegions := "全部"
  const AllCategories := "all"
  const AllStatuses := "all"
  const OwnedOnly := "owned"

  /** The three filter controls: region, category and ownership status. */
  datatype Selection = Selection(region: string, category: string, status: string)

  /** An item passes when its region, its category and its ownership all match; each
      control has a wildcard, and any status other than the two named ones means "not owned". */
  predicate Keep(item: Item, sel: Selection)
  {
    && (sel.region == AllRegions || item.region == sel.region)
    && (sel.category == AllCategories || item.category == sel.category)
    && (if sel.status == AllStatuses then true else if sel.status == OwnedOnly then item.owned else !item.owned)
  }

  /** `filteredItems`. */
  function Filtered(items: seq<Item>, sel: Selection): seq<Item>
  {
    if |items| == 0 then []
    else
      var n := |items| - 1;
      Filtered(items[..n], sel) + (if Keep(items[n], sel) then [items[n]] else [])
  }

  /** Positions, in increasing order, of the items the filter keeps. */
  function KeptPositions(items: seq<Item>, sel: Selection): seq<nat>
  {
    if |items| == 0 then []
    else
      var n := |items| - 1;
      KeptPositions(items[..n], sel) + (if Keep(items[n], sel) then [n] else [])
  }

  /** The filter result is the subsequence of the items at the kept positions; the kept
      positions increase, and a position is kept exactly when its item passes. */
  lemma {:induction false} FilteredIsSubsequence(items: seq<Item>, sel: Selection)
    ensures var f, pos := Filtered(items, sel), KeptPositions(items, sel);
      && |f| == |pos|
      && (forall k :: 0 <= k < |pos| ==> pos[k] < |items| && f[k] == items[pos[k]])
      && (forall k, l :: 0 <= k < l < |pos| ==> pos[k] < pos[l])
      && (forall i :: 0 <= i < |items| ==> (i in pos <==> Keep(items[i], sel)))
  {
    if |items| > 0 {
      var n := |items| - 1;
      FilteredIsSubsequence(items[..n], sel);
      assert forall i :: 0 <= i < n ==> items[..n][i] == items[i];
    }
  }

  /** Everything the filter returns passes it and comes from the list; everything in the
      list that passes is returned. */
  lemma FilteredMembers(items: seq<Item>, sel: Selection, x: Item)
    ensures x in Filtered(items, sel) <==> x in items && Keep(x, sel)
  {
    var f, pos := Filtered(items, sel), KeptPositions(items, sel);
    FilteredIsSubsequence(items, sel);
    if x in f {
      var k :| 0 <= k < |f| && f[k] == x;
      assert items[pos[k]] == x;
    }
    if x in items && Keep(x, sel) {
      var i :| 0 <= i < |items| && items[i] == x;
      assert i in pos;
      var k :| 0 <= k < |pos| && pos[k] == i;
      assert f[k] == x;
    }
  }

  /** With every control on its wildcard the list comes back unchanged. */
  lemma {:induction false} FilterAllWildcards(items: seq<Item>)
    ensures Filtered(items, Selection(AllRegions, AllCategories, AllStatuses)) == items
  {
    if |items| > 0 {
      FilterAllWildcards(items[..|items| - 1]);
      assert items[..|items| - 1] + [items[|items| - 1]] == items;
    }
  }

  /** `filteredItems` of the state. */
  function Visible(st: AppState): seq<Item>
    reads st`items, st`selectedRegion, st`selectedCategory, st`statusFilter
  {
    Filtered(st.items, Selection(st.selectedRegion, st.selectedCategory, st.statusFilter))
  }

  // ---------------------------------------------------------------- owned counter

  /** `ownedCount`. */
  function OwnedCount(items: seq<Item>): nat
  {
    if |items| == 0 then 0
    else OwnedCount(items[..|items| - 1]) + (if items[|items| - 1].owned then 1 else 0)
  }

  /** The counter is the length of the list filtered on status "owned" alone. */
  lemma {:induction false} OwnedCountIsOwnedFilter(items: seq<Item>)
    ensures OwnedCount(items) == |Filtered(items, Selection(AllRegions, AllCategories, OwnedOnly))|
    ensures OwnedCount(items) <= |items|
  {
    if |items| > 0 {
      OwnedCountIsOwnedFilter(items[..|items| - 1]);
    }
  }

  // ---------------------------------------------------------------- toggling

  /** The list after `item.owned = !item.owned` on the item at position `i`. */
  function ToggledItems(items: seq<Item>, i: nat): seq<Item>
    requires i < |items|
  {
    items[i := items[i].(owned := !items[i].owned)]
  }

  /** The overlay after `toggleOwn` writes the item's new ownership under its key. */
  function ToggledOverlay(overlay: Overlay, items: seq<Item>, i: nat): Overlay
    requires i < |items|
  {
    overlay[ClientKey(items[i]) := !items[i].owned]
  }

  /** `toggleOwn` on the item at position `i` of `items` (the grid, the viewer and the map
      hand over the very same item object). The debounced save is not part of it. */
  method ToggleOwn(st: AppState, i: nat)
    requires i < |st.items|
    modifies st`items, st`userStatus
    ensures st.items == ToggledItems(old(st.items), i)
    ensures st.userStatus == ToggledOverlay(old(st.userStatus), old(st.items), i)
  {
    var item := st.items[i];
    var owned := !item.owned;
    st.items := st.items[i := item.(owned := owned)];
    var key := ClientKey(item);
    st.userStatus := st.userStatus[key := owned];
  }

  /** Toggling flips exactly one item and keeps the rest of the list. */
  lemma ToggleFlipsOne(items: seq<Item>, i: nat)
    requires i < |items|
    ensures |ToggledItems(items, i)| == |items|
    ensures ToggledItems(items, i)[i].owned != items[i].owned
    ensures ToggledItems(items, i)[i].(owned := false) == items[i].(owned := false)
    ensures forall j :: 0 <= j < |items| && j != i ==> ToggledItems(items, i)[j] == items[j]
    ensures ToggledItems(ToggledItems(items, i), i) == items
  {
  }

  /** The overlay entry of the toggled item's key holds the new ownership; every other key
      keeps its entry (or its absence). */
  lemma ToggledOverlayOneKey(overlay: Overlay, items: seq<Item>, i: nat, k: string)
    requires i < |items|
    ensures ToggledOverlay(overlay, items, i)[ClientKey(items[i])] == ToggledItems(items, i)[i].owned
    ensures k != ClientKey(items[i]) ==>
      (k in ToggledOverlay(overlay, items, i) <==> k in overlay)
      && (k in overlay ==> ToggledOverlay(overlay, items, i)[k] == overlay[k])
  {
  }

  /** When no other catalog item shares the toggled item's key, the grid after a toggle is
      the merge of the catalog with the new overlay: toggling keeps the list merged. */
  lemma ToggleKeepsMerged(ps: seq<Item>, overlay: Overlay, i: nat)
    requires i < |ps|
    requires forall j :: 0 <= j < |ps| && j != i ==> ClientKey(ps[j]) != ClientKey(ps[i])
    ensures ToggledItems(Merged(Some(ps), overlay), i)
         == Merged(Some(ps), ToggledOverlay(overlay, Merged(Some(ps), overlay), i))
  {
    var shown := Merged(Some(ps), overlay);
    var after := Merged(Some(ps), ToggledOverlay(overlay, shown, i));
    assert ClientKey(shown[i]) == ClientKey(ps[i]);
    forall j | 0 <= j < |ps|
      ensures ToggledItems(shown, i)[j] == after[j]
    {
    }
  }

  /** When another item shares the key, the overlay already marks it with the new value
      but the shown list keeps its old flag until the next merge. */
  lemma ToggleSharedKeyDiverges(ps: seq<Item>, overlay: Overlay, i: nat, j: nat)
    requires i < |ps| && j < |ps| && i != j && ClientKey(ps[j]) == ClientKey(ps[i])
    requires Merged(Some(ps), overlay)[j].owned == Merged(Some(ps), overlay)[i].owned
    ensures ToggledItems(Merged(Some(ps), overlay), i)[j]
         != Merged(Some(ps), ToggledOverlay(overlay, Merged(Some(ps), overlay), i))[j]
  {
    var shown := Merged(Some(ps), overlay);
    assert ClientKey(shown[i]) == ClientKey(ps[i]);
  }

  /** The deep watch on `userStatus` re-merges after the toggle: every item sharing the
      toggled key then shows the new value, and every other item its overlay entry. */
  lemma RemergeSettlesSharedKey(ps: seq<Item>, overlay: Overlay, i: nat)
    requires i < |ps|
    ensures var shown := Merged(Some(ps), overlay);
      var after := Merged(Some(ps), ToggledOverlay(overlay, shown, i));
      && |after| == |ps|
      && (forall j :: 0 <= j < |ps| && ClientKey(ps[j]) == ClientKey(ps[i]) ==>
            after[j].owned == ToggledItems(shown, i)[i].owned)
      && (forall j :: 0 <= j < |ps| && ClientKey(ps[j]) != ClientKey(ps[i]) ==> after[j] == shown[j])
  {
    var shown := Merged(Some(ps), overlay);
    assert ClientKey(shown[i]) == ClientKey(ps[i]);
  }

  /** `toggleOwn` followed by the watcher's `mergeData` (static/js/main.js): the grid is the
      merge of the catalog with the toggled overlay. */
  method ToggleWatched(st: AppState, i: nat)
    requires i < |st.items|
    modifies st`items, st`userStatus
    ensures st.userStatus == ToggledOverlay(old(st.userStatus), old(st.items), i)
    ensures st.items == Merged(st.publicItems, st.userStatus)
  {
    ToggleOwn(st, i);
    MergeData(st);
  }

  lemma {:induction false} OwnedCountUpdate(items: seq<Item>, i: nat, x: Item)
    requires i < |items|
    ensures OwnedCount(items[i := x]) + (if items[i].owned then 1 else 0)
         == OwnedCount(items) + (if x.owned then 1 else 0)
  {
    var n := |items| - 1;
    if i < n {
      assert items[i := x][..n] == items[..n][i := x];
      OwnedCountUpdate(items[..n], i, x);
    } else {
      assert items[i := x][..n] == items[..n];
    }
  }

  /** A toggle moves the owned counter by exactly one, up or down. */
  lemma ToggleMovesCountByOne(items: seq<Item>, i: nat)
    requires i < |items|
    ensures items[i].owned ==> OwnedCount(ToggledItems(items, i)) + 1 == OwnedCount(items)
    ensures !items[i].owned ==> OwnedCount(ToggledItems(items, i)) == OwnedCount(items) + 1
  {
    OwnedCountUpdate(items, i, items[i].(owned := !items[i].owned));
  }

  // ---------------------------------------------------------------- reset

  /** Once confirmed, `resetSelections` empties the overlay, re-merges and saves: nothing
      is shown as owned, and the empty overlay is what the chosen store now holds. */
  lemma ResetClearsOwned(publicItems: Option<seq<Item>>, loggedIn: bool, folderId: string, net: Net, s: Stores, before: Overlay)
    ensures forall i :: 0 <= i < |Merged(publicItems, map[])| ==> !Merged(publicItems, map[])[i].owned
    ensures OwnedCount(Merged(publicItems, map[])) == 0
    ensures !UsesRemote(loggedIn, folderId) ==> LocalLoad(SavedUserData(loggedIn, folderId, net, map[], s).slots, before) == map[]
    ensures UsesRemote(loggedIn, folderId) && net.Delivered? ==>
      DriveLoad(SavedUserData(loggedIn, folderId, net, map[], s).files, folderId, net, before) == map[]
  {
    NoneOwnedCountsZero(Merged(publicItems, map[]));
    SavedUserDataLoadsBack(loggedIn, folderId, net, map[], s, before);
  }

  lemma {:induction false} NoneOwnedCountsZero(items: seq<Item>)
    requires forall i :: 0 <= i < |items| ==> !items[i].owned
    ensures OwnedCount(items) == 0
  {
    if |items| > 0 {
      NoneOwnedCountsZero(items[..|items| - 1]);
    }
  }

  /** `resetSelections`, with the user's answer to the confirmation as `confirmed`. */
  method ResetSelections(st: AppState, ls: LocalStorage, drive: Drive, net: Net, confirmed: bool)
    modifies st`userStatus, st`items, ls, drive
    ensures !confirmed ==>
      (st.userStatus == old(st.userStatus) && st.items == old(st.items)
       && ls.slots == old(ls.slots) && drive.files == old(drive.files))
    ensures confirmed ==>
      (st.userStatus == map[] && st.items == Merged(st.publicItems, map[])
       && Stores(ls.slots, drive.files)
          == SavedUserData(st.isLoggedIn, st.folderId, net, map[], Stores(old(ls.slots), old(drive.files))))
  {
    if !confirmed {
      return;
    }
    st.userStatus := map[];
    MergeData(st);
    SaveUserData(st, ls, drive, net);
  }

  // ---------------------------------------------------------------- the image viewer

  /** The viewer's second line: region and category. */
  function Subtitle(item: Item): string
  {
    item.region + " | " + item.category
  }

  /** The viewer shows `item`: its image, its name as title, its subtitle, and the item itself. */
  predicate Shows(st: AppState, item: Item)
    reads st`modalImage, st`modalTitle, st`modalSubtitle, st`modalItem
  {
    && st.modalItem == Some(item) && st.modalImage == item.image
    && st.modalTitle == item.name && st.modalSubtitle == Subtitle(item)
  }

  /** `updateModalContent`: shows the visible item at the current index; an index with no
      item there (or an empty list) leaves the viewer as it was. */
  method UpdateModalContent(st: AppState)
    modifies st`modalImage, st`modalTitle, st`modalSubtitle, st`modalItem
    ensures 0 <= st.currentModalIndex < |Visible(st)| ==> Shows(st, Visible(st)[st.currentModalIndex])
    ensures !(0 <= st.currentModalIndex < |Visible(st)|) ==>
      st.modalItem == old(st.modalItem) && st.modalImage == old(st.modalImage)
      && st.modalTitle == old(st.modalTitle) && st.modalSubtitle == old(st.modalSubtitle)
  {
    var f := Visible(st);
    if |f| == 0 {
      return;
    }
    var k := st.currentModalIndex;
    if 0 <= k < |f| {
      var item := f[k];
      st.modalImage := item.image;
      st.modalTitle := item.name;
      st.modalSubtitle := Subtitle(item);
      st.modalItem := Some(item);
    }
  }

  /** The index after `nextImage` on a list of `n` visible items. */
  function NextIndex(k: int, n: nat): int
  {
    if k < n - 1 then k + 1 else k
  }

  /** The index after `prevImage`. */
  function PrevIndex(k: int): int
  {
    if k > 0 then k - 1 else k
  }

  /** Both moves change the index by at most one and keep an index that is in range in
      range; stepping forward and back returns to the start unless already at the end. */
  lemma ModalIndexStaysInRange(k: int, n: nat)
    ensures -1 <= NextIndex(k, n) - k <= 1 && -1 <= PrevIndex(k) - k <= 1
    ensures k >= 0 ==> PrevIndex(k) >= 0
    ensures 0 <= k < n ==> 0 <= NextIndex(k, n) < n && 0 <= PrevIndex(k) < n
    ensures NextIndex(k, n) != k <==> k < n - 1
    ensures 0 <= k < n - 1 ==> PrevIndex(NextIndex(k, n)) == k
    ensures 0 < k < n ==> NextIndex(PrevIndex(k), n) == k
  {
  }

  /** `nextImage`: a move forward shows the visible item at the new index; at the end of
      the list, or when the new index has no item, the viewer is left as it was. */
  method NextImage(st: AppState)
    modifies st`currentModalIndex, st`modalImage, st`modalTitle, st`modalSubtitle, st`modalItem
    ensures st.currentModalIndex == NextIndex(old(st.currentModalIndex), |Visible(st)|)
    ensures st.currentModalIndex != old(st.currentModalIndex) && 0 <= st.currentModalIndex < |Visible(st)| ==>
      Shows(st, Visible(st)[st.currentModalIndex])
    ensures !(st.currentModalIndex != old(st.currentModalIndex) && 0 <= st.currentModalIndex < |Visible(st)|) ==>
      st.modalItem == old(st.modalItem) && st.modalImage == old(st.modalImage)
      && st.modalTitle == old(st.modalTitle) && st.modalSubtitle == old(st.modalSubtitle)
  {
    if st.currentModalIndex < |Visible(st)| - 1 {
      st.currentModalIndex := st.currentModalIndex + 1;
      UpdateModalContent(st);
    }
  }

  /** `prevImage`: a move back shows the visible item at the new index; at the start of
      the list, or when the new index has no item, the viewer is left as it was. */
  method PrevImage(st: AppState)
    modifies st`currentModalIndex, st`modalImage, st`modalTitle, st`modalSubtitle, st`modalItem
    ensures st.currentModalIndex == PrevIndex(old(st.currentModalIndex))
    ensures st.currentModalIndex != old(st.currentModalIndex) && 0 <= st.currentModalIndex < |Visible(st)| ==>
      Shows(st, Visible(st)[st.currentModalIndex])
    ensures !(st.currentModalIndex != old(st.currentModalIndex) && 0 <= st.currentModalIndex < |Visible(st)|) ==>
      st.modalItem == old(st.modalItem) && st.modalImage == old(st.modalImage)
      && st.modalTitle == old(st.modalTitle) && st.modalSubtitle == old(st.modalSubtitle)
  {
    if st.currentModalIndex > 0 {
      st.currentModalIndex := st.currentModalIndex - 1;
      UpdateModalContent(st);
    }
  }

  /** `openImage`: jump to a position of the visible list and show the viewer, with the
      item at that position; a position with no item leaves the viewer's content as it was. */
  method OpenImage(st: AppState, index: int)
    modifies st`currentModalIndex, st`showModal, st`modalImage, st`modalTitle, st`modalSubtitle, st`modalItem
    ensures st.currentModalIndex == index && st.showModal
    ensures 0 <= index < |Visible(st)| ==> Shows(st, Visible(st)[index])
    ensures !(0 <= index < |Visible(st)|) ==>
      st.modalItem == old(st.modalItem) && st.modalImage == old(st.modalImage)
      && st.modalTitle == old(st.modalTitle) && st.modalSubtitle == old(st.modalSubtitle)
  {
    st.currentModalIndex := index;
    UpdateModalContent(st);
    st.showModal := true;
  }

  // ---------------------------------------------------------------- server replies

  /** What `/api/refresh` answers: the status and the number of items saved. The reply
      carries no list. */
  datatype RefreshReply = RefreshReply(total: nat)

  /** `res.data` of a refresh reply: absent. */
  function ReplyData(reply: RefreshReply): Option<seq<Item>>
  {
    None
  }

  /** `autoUpdate` as written: the catalog becomes the reply's (absent) list and is merged. */
  method AutoUpdateAsWritten(st: AppState, reply: RefreshReply)
    modifies st`publicItems, st`items
    ensures st.publicItems == ReplyData(reply) && st.items == Merged(ReplyData(reply), st.userStatus)
  {
    st.publicItems := ReplyData(reply);
    MergeData(st);
  }

  /** Whatever the server saved, the grid after `autoUpdate` as written is empty, and so it
      is not the merge of the saved list when that list has items. */
  lemma AutoUpdateEmptiesList(saved: seq<Item>, overlay: Overlay)
    ensures Merged(ReplyData(RefreshReply(|saved|)), overlay) == []
    ensures |saved| > 0 ==> Merged(ReplyData(RefreshReply(|saved|)), overlay) != Merged(Some(saved), overlay)
  {
  }

  /** `autoUpdate` as evidently intended: after the refresh the saved public list is
      fetched again (as the public import does) and merged with the overlay. */
  method AutoUpdate(st: AppState, reply: RefreshReply, fetched: seq<Item>)
    modifies st`publicItems, st`items
    ensures st.publicItems == Some(fetched) && st.items == Merged(Some(fetched), st.userStatus)
  {
    st.publicItems := Some(fetched);
    MergeData(st);
  }

  /** After the intended refresh the grid holds one entry per saved item, as many as the
      reply's total, in the saved order and with the user's ownership restored. */
  lemma AutoUpdateShowsSaved(saved: seq<Item>, overlay: Overlay, reply: RefreshReply)
    requires reply.total == |saved|
    ensures |Merged(Some(saved), overlay)| == reply.total
    ensures forall i :: 0 <= i < |saved| ==>
      Merged(Some(saved), overlay)[i].(owned := false) == saved[i].(owned := false)
      && (Merged(Some(saved), overlay)[i].owned <==> ClientKey(saved[i]) in overlay && overlay[ClientKey(saved[i])])
  {
    MergedItems(saved, overlay);
  }

  /** `fixRegions` on the client: the catalog becomes the list the server sends back. */
  method ShowFixedRegions(st: AppState, data: seq<Item>)
    modifies st`publicItems, st`items
    ensures st.publicItems == Some(data) && st.items == Merged(Some(data), st.userStatus)
  {
    st.publicItems := Some(data);
    MergeData(st);
  }
}
